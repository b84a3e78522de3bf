/**
 * The metadata record: ten groups of XMP fields and their aggregate. Each
 * Python dataclass default is the default value of the matching constructor
 * parameter, so `FlashInfo()` is the dataclass built with no arguments and
 * `FlashInfo(fired := true)` overrides one field. `float` fields are reals and
 * `datetime` fields are `PyDateTime.DateTime` values.
 */
module XmpDataclass {
  import opened Wrappers
  import opened PyDateTime

  datatype XmpBasicInfo = XmpBasicInfo(
    creatorTool: Option<string> := None,
    modifyDate: Option<DateTime> := None,
    createDate: Option<DateTime> := None,
    metadataDate: Option<DateTime> := None,
    rating: Option<int> := None,          // 1..5 by convention; None means unrated
    colorLabel: Option<string> := None)  // `label` is a Dafny keyword

  datatype XmpDocumentInfo = XmpDocumentInfo(
    documentId: Option<string> := None,
    instanceId: Option<string> := None,
    preservedFileName: Option<string> := None,
    originalDocumentId: Option<string> := None,
    history: seq<map<string, string>> := [])

  datatype TiffInfo = TiffInfo(
    make: Option<string> := None,
    model: Option<string> := None,
    orientation: Option<int> := None,
    imageWidth: Option<int> := None,
    imageLength: Option<int> := None,
    xResolution: Option<real> := None,
    yResolution: Option<real> := None,
    resolutionUnit: Option<int> := None)

  datatype ExifInfo = ExifInfo(
    exposureTime: Option<string> := None,
    shutterSpeedValue: Option<real> := None,
    fNumber: Option<real> := None,
    apertureValue: Option<real> := None,
    exposureProgram: Option<int> := None,
    exposureMode: Option<int> := None,
    exposureBiasValue: Option<real> := None,
    isoSpeedRatings: Option<seq<int>> := None,
    sensitivityType: Option<int> := None,
    recommendedExposureIndex: Option<int> := None,
    meteringMode: Option<int> := None,
    lightSource: Option<int> := None,
    whiteBalance: Option<int> := None,
    brightnessValue: Option<real> := None,
    focalLength: Option<real> := None,
    focalLengthIn35mmFilm: Option<int> := None,
    maxApertureValue: Option<real> := None,
    digitalZoomRatio: Option<real> := None,
    pixelXDimension: Option<int> := None,
    pixelYDimension: Option<int> := None,
    focalPlaneXResolution: Option<real> := None,
    focalPlaneYResolution: Option<real> := None,
    focalPlaneResolutionUnit: Option<int> := None,
    customRendered: Option<int> := None,
    sceneCaptureType: Option<int> := None,
    contrast: Option<int> := None,
    saturation: Option<int> := None,
    sharpness: Option<int> := None,
    fileSource: Option<int> := None,
    sceneType: Option<int> := None,
    exifVersion: Option<string> := None,
    dateTimeOriginal: Option<DateTime> := None,
    dateTimeDigitized: Option<DateTime> := None)

  /** `function` is a Dafny keyword, so the flash-function flag is `flashFunction`. */
  datatype FlashInfo = FlashInfo(
    fired: bool := false,
    returnMode: Option<int> := None,
    mode: Option<int> := None,
    flashFunction: bool := false,
    redEyeMode: bool := false)

  datatype LensInfo = LensInfo(
    lensInfo: Option<string> := None,
    lens: Option<string> := None,
    lensModel: Option<string> := None,
    lensDistortInfo: Option<string> := None,
    lensSerialNumber: Option<string> := None)

  datatype PhotoshopInfo = PhotoshopInfo(
    dateCreated: Option<DateTime> := None,
    sidecarForExtension: Option<string> := None,
    embeddedXmpDigest: Option<string> := None,
    colorMode: Option<int> := None,
    iccProfile: Option<string> := None)

  datatype CameraRawSettings = CameraRawSettings(
    cropTop: real := 0.0,
    cropLeft: real := 0.0,
    cropBottom: real := 1.0,
    cropRight: real := 1.0,
    cropAngle: real := 0.0,
    cropConstrainToWarp: int := 0,
    cropConstrainToUnitSquare: int := 1,
    hasCrop: bool := false,
    alreadyApplied: bool := false,
    rawFileName: Option<string> := None,
    version: Option<string> := None,
    processVersion: Option<string> := None,
    cameraProfile: Option<string> := None,
    lookName: Option<string> := None,
    exposure: Option<real> := None,
    contrast: Option<int> := None,
    highlights: Option<int> := None,
    shadows: Option<int> := None,
    whites: Option<int> := None,
    blacks: Option<int> := None,
    clarity: Option<int> := None,
    vibrance: Option<int> := None,
    saturation: Option<int> := None)

  datatype DublinCoreInfo = DublinCoreInfo(
    format: Option<string> := None,
    title: Option<string> := None,
    creator: Option<seq<string>> := None,
    subject: Option<seq<string>> := None,
    description: Option<string> := None,
    rights: Option<string> := None)

  /** `pick` is 0 (none), 1 (picked) or -1 (rejected) by convention. */
  datatype DynamicMediaInfo = DynamicMediaInfo(
    pick: int := 0,
    good: Option<bool> := None,
    scene: Option<string> := None)

  /** Every group is always present; `XmpMetadata()` holds each group's own default. */
  datatype XmpMetadata = XmpMetadata(
    xmpInfo: XmpBasicInfo := XmpBasicInfo(),
    documentInfo: XmpDocumentInfo := XmpDocumentInfo(),
    tiffInfo: TiffInfo := TiffInfo(),
    exifInfo: ExifInfo := ExifInfo(),
    flashInfo: FlashInfo := FlashInfo(),
    lensInfo: LensInfo := LensInfo(),
    photoshopInfo: PhotoshopInfo := PhotoshopInfo(),
    cameraRawSettings: CameraRawSettings := CameraRawSettings(),
    dublinCoreInfo: DublinCoreInfo := DublinCoreInfo(),
    dynamicMediaInfo: DynamicMediaInfo := DynamicMediaInfo())

  /** The crop rectangle covers the whole image, unrotated, and nothing marks it as cropped. */
  predicate IsFullFrame(c: CameraRawSettings) {
    c.cropTop == 0.0 && c.cropLeft == 0.0 && c.cropBottom == 1.0 && c.cropRight == 1.0
    && c.cropAngle == 0.0 && !c.hasCrop
  }

  /** A flash group that records no flash activity. */
  predicate IsFlashOff(f: FlashInfo) {
    !f.fired && !f.flashFunction && !f.redEyeMode && f.returnMode.None? && f.mode.None?
  }

  /** The default record: an unrated, unpicked, full-frame, flash-free photo with no history. */
  lemma DefaultMetadata()
    ensures var m := XmpMetadata();
      && m.xmpInfo.rating.None?
      && m.documentInfo.history == []
      && IsFlashOff(m.flashInfo)
      && IsFullFrame(m.cameraRawSettings)
      && m.cameraRawSettings.cropConstrainToWarp == 0
      && m.cameraRawSettings.cropConstrainToUnitSquare == 1
      && !m.cameraRawSettings.alreadyApplied
      && m.cameraRawSettings.rawFileName.None?
      && m.dynamicMediaInfo == DynamicMediaInfo(0, None, None)
      && m.exifInfo.isoSpeedRatings.None?
      && m.dublinCoreInfo.creator.None? && m.dublinCoreInfo.subject.None?
  {
  }
}
