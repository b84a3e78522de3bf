/**
 * The XMP extractor: the namespace table, the two scalar coercers
 * (`parse_datetime`, `parse_fraction`), the per-field coercion rules and
 * `parse`, which fills the ten groups of an `XmpMetadata` from the first
 * `rdf:Description` node of a sidecar file.
 *
 * The XML layer is abstract: a descriptor node is given as its attribute map,
 * keyed by (prefix, local name) pairs that stand for the `{uri}local` keys of
 * ElementTree, together with the results of the four searches `parse` makes
 * below it.
 */
module XmpParser {
  import opened Wrappers
  import opened PyNumbers
  import opened PyDateTime
  import opened XmpDataclass

  // ---------------------------------------------------------------------------
  // Namespace table

  /** The fourteen prefixes of the namespace table. */
  datatype Prefix =
    | X | Rdf | Xmp | XmpMM | StEvt | Tiff | Exif | Aux | ExifEX
    | Photoshop | Dc | Crd | XmpDM | Crs

  function PrefixName(p: Prefix): string {
    match p
    case X => "x"
    case Rdf => "rdf"
    case Xmp => "xmp"
    case XmpMM => "xmpMM"
    case StEvt => "stEvt"
    case Tiff => "tiff"
    case Exif => "exif"
    case Aux => "aux"
    case ExifEX => "exifEX"
    case Photoshop => "photoshop"
    case Dc => "dc"
    case Crd => "crd"
    case XmpDM => "xmpDM"
    case Crs => "crs"
  }

  /** The namespace URI registered for a prefix. */
  function NamespaceUri(p: Prefix): (uri: string)
  {
    match p
    case X => "adobe:ns:meta/"
    case Rdf => "http://www.w3.org/1999/02/22-rdf-syntax-ns#"
    case Xmp => "http://ns.adobe.com/xap/1.0/"
    case XmpMM => "http://ns.adobe.com/xap/1.0/mm/"
    case StEvt => "http://ns.adobe.com/xap/1.0/sType/ResourceEvent#"
    case Tiff => "http://ns.adobe.com/tiff/1.0/"
    case Exif => "http://ns.adobe.com/exif/1.0/"
    case Aux => "http://ns.adobe.com/exif/1.0/aux/"
    case ExifEX => "http://cipa.jp/exif/1.0/"
    case Photoshop => "http://ns.adobe.com/photoshop/1.0/"
    case Dc => "http://purl.org/dc/elements/1.1/"
    case Crd => "http://ns.adobe.com/camera-raw-defaults/1.0/"
    case XmpDM => "http://ns.adobe.com/xmp/1.0/DynamicMedia/"
    case Crs => "http://ns.adobe.com/camera-raw-settings/1.0/"
  }

  /** The local names of the attributes the extractor reads. */
  datatype LocalName =
    | Rating | CreatorTool | ModifyDate | CreateDate | MetadataDate | Label | DocumentID
    | InstanceID | PreservedFileName | OriginalDocumentID | Orientation | ImageWidth
    | ImageLength | ResolutionUnit | Make | Model | XResolution | YResolution | ExposureProgram
    | ExposureMode | RecommendedExposureIndex | SensitivityType | MeteringMode | LightSource
    | WhiteBalance | FocalLengthIn35mmFilm | PixelXDimension | PixelYDimension
    | FocalPlaneResolutionUnit | CustomRendered | SceneCaptureType | Contrast | Saturation
    | Sharpness | FileSource | SceneType | ExposureTime | ShutterSpeedValue | FNumber
    | ApertureValue | ExposureBiasValue | BrightnessValue | FocalLength | MaxApertureValue
    | DigitalZoomRatio | FocalPlaneXResolution | FocalPlaneYResolution | ExifVersion
    | DateTimeOriginal | DateTimeDigitized | Fired | Return | Mode | Function | RedEyeMode
    | LensModel | LensInfo | Lens | LensDistortInfo | LensSerialNumber | ColorMode | DateCreated
    | SidecarForExtension | EmbeddedXMPDigest | ICCProfile | CropTop | CropLeft | CropBottom
    | CropRight | CropAngle | HasCrop | RawFileName | CropConstrainToWarp
    | CropConstrainToUnitSquare | Contrast2012 | Highlights2012 | Shadows2012 | Whites2012
    | Blacks2012 | Clarity2012 | Vibrance | AlreadyApplied | CameraProfile | LookName | Version
    | ProcessVersion | Exposure2012 | Format | Title | Description | Rights | Pick | Good
    | Scene

  /** How a local name is spelled in the document. */
  function Spelling(n: LocalName): string {
    match n
    case Rating => "Rating"
    case CreatorTool => "CreatorTool"
    case ModifyDate => "ModifyDate"
    case CreateDate => "CreateDate"
    case MetadataDate => "MetadataDate"
    case Label => "Label"
    case DocumentID => "DocumentID"
    case InstanceID => "InstanceID"
    case PreservedFileName => "PreservedFileName"
    case OriginalDocumentID => "OriginalDocumentID"
    case Orientation => "Orientation"
    case ImageWidth => "ImageWidth"
    case ImageLength => "ImageLength"
    case ResolutionUnit => "ResolutionUnit"
    case Make => "Make"
    case Model => "Model"
    case XResolution => "XResolution"
    case YResolution => "YResolution"
    case ExposureProgram => "ExposureProgram"
    case ExposureMode => "ExposureMode"
    case RecommendedExposureIndex => "RecommendedExposureIndex"
    case SensitivityType => "SensitivityType"
    case MeteringMode => "MeteringMode"
    case LightSource => "LightSource"
    case WhiteBalance => "WhiteBalance"
    case FocalLengthIn35mmFilm => "FocalLengthIn35mmFilm"
    case PixelXDimension => "PixelXDimension"
    case PixelYDimension => "PixelYDimension"
    case FocalPlaneResolutionUnit => "FocalPlaneResolutionUnit"
    case CustomRendered => "CustomRendered"
    case SceneCaptureType => "SceneCaptureType"
    case Contrast => "Contrast"
    case Saturation => "Saturation"
    case Sharpness => "Sharpness"
    case FileSource => "FileSource"
    case SceneType => "SceneType"
    case ExposureTime => "ExposureTime"
    case ShutterSpeedValue => "ShutterSpeedValue"
    case FNumber => "FNumber"
    case ApertureValue => "ApertureValue"
    case ExposureBiasValue => "ExposureBiasValue"
    case BrightnessValue => "BrightnessValue"
    case FocalLength => "FocalLength"
    case MaxApertureValue => "MaxApertureValue"
    case DigitalZoomRatio => "DigitalZoomRatio"
    case FocalPlaneXResolution => "FocalPlaneXResolution"
    case FocalPlaneYResolution => "FocalPlaneYResolution"
    case ExifVersion => "ExifVersion"
    case DateTimeOriginal => "DateTimeOriginal"
    case DateTimeDigitized => "DateTimeDigitized"
    case Fired => "Fired"
    case Return => "Return"
    case Mode => "Mode"
    case Function => "Function"
    case RedEyeMode => "RedEyeMode"
    case LensModel => "LensModel"
    case LensInfo => "LensInfo"
    case Lens => "Lens"
    case LensDistortInfo => "LensDistortInfo"
    case LensSerialNumber => "LensSerialNumber"
    case ColorMode => "ColorMode"
    case DateCreated => "DateCreated"
    case SidecarForExtension => "SidecarForExtension"
    case EmbeddedXMPDigest => "EmbeddedXMPDigest"
    case ICCProfile => "ICCProfile"
    case CropTop => "CropTop"
    case CropLeft => "CropLeft"
    case CropBottom => "CropBottom"
    case CropRight => "CropRight"
    case CropAngle => "CropAngle"
    case HasCrop => "HasCrop"
    case RawFileName => "RawFileName"
    case CropConstrainToWarp => "CropConstrainToWarp"
    case CropConstrainToUnitSquare => "CropConstrainToUnitSquare"
    case Contrast2012 => "Contrast2012"
    case Highlights2012 => "Highlights2012"
    case Shadows2012 => "Shadows2012"
    case Whites2012 => "Whites2012"
    case Blacks2012 => "Blacks2012"
    case Clarity2012 => "Clarity2012"
    case Vibrance => "Vibrance"
    case AlreadyApplied => "AlreadyApplied"
    case CameraProfile => "CameraProfile"
    case LookName => "LookName"
    case Version => "Version"
    case ProcessVersion => "ProcessVersion"
    case Exposure2012 => "Exposure2012"
    case Format => "format"
    case Title => "title"
    case Description => "description"
    case Rights => "rights"
    case Pick => "pick"
    case Good => "good"
    case Scene => "scene"
  }

  /**
   * An attribute name: a prefix of the table and a local name. It stands for
   * the ElementTree key `{uri}local`, with the URI registered for the prefix.
   */
  datatype Attr = Attr(ns: Prefix, local: LocalName)

  /** The ElementTree key an attribute name stands for. */
  function ClarkName(k: Attr): string {
    "{" + NamespaceUri(k.ns) + "}" + Spelling(k.local)
  }

  /** Distinct prefixes of the table have distinct names. */
  lemma PrefixNameInjective(p: Prefix, q: Prefix)
    ensures PrefixName(p) == PrefixName(q) ==> p == q
  {
  }

  /** Distinct prefixes are bound to distinct URIs, so a URI names one prefix. */
  lemma NamespaceUriInjective(p: Prefix, q: Prefix)
    ensures NamespaceUri(p) == NamespaceUri(q) ==> p == q
  {
    // the two pairs of URIs of equal length part at these characters
    assert NamespaceUri(Tiff)[20] == 't' && NamespaceUri(Exif)[20] == 'e';
    assert NamespaceUri(Crd)[31] == 'd' && NamespaceUri(Crs)[31] == 's';
    if NamespaceUri(p) == NamespaceUri(q) {
      assert |NamespaceUri(p)| == |NamespaceUri(q)|;
    }
  }

  /** The braced URI and the spelling can be read back out of a key. */
  lemma ClarkNameParts(k: Attr)
    ensures var c, u := ClarkName(k), NamespaceUri(k.ns);
      && |c| == |u| + 2 + |Spelling(k.local)|
      && c[0] == '{' && c[1..|u| + 1] == u && c[|u| + 1] == '}'
      && c[|u| + 2..] == Spelling(k.local)
  {
  }

  /** Under one local name, equal keys have equal prefixes. */
  lemma ClarkNameDeterminesPrefix(p: Prefix, q: Prefix, n: LocalName)
    ensures ClarkName(Attr(p, n)) == ClarkName(Attr(q, n)) ==> p == q
  {
    if ClarkName(Attr(p, n)) == ClarkName(Attr(q, n)) {
      ClarkNameParts(Attr(p, n));
      ClarkNameParts(Attr(q, n));
      NamespaceUriInjective(p, q);
    }
  }

  /** Under one prefix, equal keys spell the same local name. */
  lemma ClarkNameDeterminesSpelling(p: Prefix, m: LocalName, n: LocalName)
    ensures ClarkName(Attr(p, m)) == ClarkName(Attr(p, n)) ==> Spelling(m) == Spelling(n)
  {
    if ClarkName(Attr(p, m)) == ClarkName(Attr(p, n)) {
      ClarkNameParts(Attr(p, m));
      ClarkNameParts(Attr(p, n));
    }
  }

  // ---------------------------------------------------------------------------
  // Scalar coercers

  /** `s.replace("Z", "+00:00")`. */
  function ReplaceZ(s: string): (r: string)
    ensures 'Z' !in r
    ensures 'Z' !in s ==> r == s
  {
    if s == [] then []
    else
      var last := s[|s| - 1];
      ReplaceZ(s[..|s| - 1]) + (if last == 'Z' then "+00:00" else [last])
  }

  /** Each character is replaced on its own: a "Z" by "+00:00", any other by itself. */
  lemma ReplaceZChar(c: char)
    ensures ReplaceZ([c]) == if c == 'Z' then "+00:00" else [c]
  {
    assert [c][..0] == [];
  }

  /** The replacement works piecewise, so every "Z" is replaced where it stands. */
  lemma {:induction false} ReplaceZAppend(a: string, b: string)
    ensures ReplaceZ(a + b) == ReplaceZ(a) + ReplaceZ(b)
  {
    if b == [] {
      assert a + b == a;
    } else {
      var init, last := b[..|b| - 1], b[|b| - 1];
      assert (a + b)[..|a + b| - 1] == a + init;
      ReplaceZAppend(a, init);
      assert ReplaceZ(b) == ReplaceZ(init) + (if last == 'Z' then "+00:00" else [last]);
    }
  }

  /** A trailing "Z" becomes "+00:00" and the rest is left alone. */
  lemma ReplaceZSuffix(d: string)
    requires 'Z' !in d
    ensures ReplaceZ(d + "Z") == d + "+00:00"
  {
    assert (d + "Z")[..|d|] == d;
  }

  /**
   * `parse_datetime`: None for a missing or empty text, otherwise
   * `fromisoformat` after every "Z" has become "+00:00"; a text it cannot
   * read gives None, never an error.
   */
  function ParseDatetime(dateStr: Option<string>): (r: Option<DateTime>)
    ensures dateStr.None? || dateStr == Some("") ==> r.None?
    ensures r.Some? ==> Valid(r.value)
    ensures dateStr.Some? && 'Z' !in dateStr.value ==> r == ParseIsoFormat(dateStr.value)
  {
    match dateStr
    case None => None
    case Some(s) => if s == "" then None else ParseIsoFormat(ReplaceZ(s))
  }

  /** A timestamp written with a trailing "Z" reads as the same time at UTC offset zero. */
  lemma ParseDatetimeUtcSuffix(dt: DateTime)
    requires Valid(dt)
    ensures ParseDatetime(Some(FormatDate(dt) + "T" + FormatClock(dt) + "Z"))
         == Some(dt.(utcOffset := Some(0)))
  {
    var utc := dt.(utcOffset := Some(0));
    var d := FormatDate(dt) + "T" + FormatClock(dt);
    assert d == FormatDate(utc) + "T" + FormatClock(utc);
    ReplaceZSuffix(d);
    UtcZone();
    assert FormatIso(utc) == d + "+00:00";
    ParseIsoFormatRoundTrip(utc);
  }

  lemma UtcZone()
    ensures FormatZone(Some(0)) == "+00:00"
  {
    assert PadNat(0, 2) == "00";
  }

  /** Every timestamp `isoformat` writes is read back unchanged. */
  lemma ParseDatetimeRoundTrip(dt: DateTime)
    requires Valid(dt)
    ensures ParseDatetime(Some(FormatIso(dt))) == Some(dt)
  {
    ParseIsoFormatRoundTrip(dt);
  }

  /** A text that is not a timestamp gives None rather than an error. */
  lemma ParseDatetimeWord()
    ensures ParseDatetime(Some("invalid")) == None
  {
    var s := "invalid";
    assert forall i :: 0 <= i < |s| ==> s[i] != 'Z';
    assert |ReplaceZ(s)| < 10;
  }

  /** `s.split(sep)`: the pieces between the separators, in order. */
  function Split(s: string, sep: char): (parts: seq<string>)
    ensures |parts| == multiset(s)[sep] + 1
    ensures forall i :: 0 <= i < |parts| ==> sep !in parts[i]
  {
    match IndexOf(s, sep)
    case None => [s]
    case Some(i) =>
      assert s == s[..i] + [sep] + s[i + 1..];
      assert multiset(s[..i])[sep] == 0;
      [s[..i]] + Split(s[i + 1..], sep)
  }

  /**
   * `numerator, denominator = parts` followed by `float(numerator) / float(denominator)`:
   * None unless there are exactly two parts, both numbers, and the second is not zero.
   */
  function Divide(parts: seq<string>): (r: Option<real>)
    ensures r.Some? <==> && |parts| == 2 && ParseFloat(parts[0]).Some? && ParseFloat(parts[1]).Some?
                         && ParseFloat(parts[1]).value != 0.0
    ensures r.Some? ==> r.value == ParseFloat(parts[0]).value / ParseFloat(parts[1]).value
  {
    if |parts| != 2 then None   // the two-name unpack raises ValueError
    else
      var numerator, denominator := ParseFloat(parts[0]), ParseFloat(parts[1]);
      if numerator.None? || denominator.None? || denominator.value == 0.0 then None
      else Some(numerator.value / denominator.value)
  }

  /**
   * `parse_fraction`: None for a missing or empty text; "N/D" with exactly
   * one slash is N divided by D (None when D is zero); a text without a slash
   * is read as a number; anything else is None.
   */
  function ParseFraction(fractionStr: Option<string>): (r: Option<real>)
    ensures fractionStr.None? || fractionStr == Some("") ==> r.None?
    ensures fractionStr.Some? && '/' !in fractionStr.value ==> r == ParseFloat(fractionStr.value)
    ensures fractionStr.Some? && multiset(fractionStr.value)['/'] > 1 ==> r.None?
  {
    match fractionStr
    case None => None
    case Some(s) =>
      if s == "" then None
      else if '/' in s then Divide(Split(s, '/'))
      else ParseFloat(s)
  }

  lemma FormatIntHasNoSlash(n: int)
    ensures '/' !in FormatInt(n)
  {
    var digits := FormatNat(if n < 0 then -n else n);
    assert forall i :: 0 <= i < |digits| ==> digits[i] != '/';
  }

  /**
   * A text with exactly one slash, "N/D", is `float(N) / float(D)`, and None
   * when either side is not a number or D is zero.
   */
  lemma ParseFractionOneSlash(a: string, b: string)
    requires '/' !in a && '/' !in b
    ensures ParseFraction(Some(a + "/" + b)) == Divide([a, b])
    ensures ParseFraction(Some(a + "/" + b))
         == if ParseFloat(a).Some? && ParseFloat(b).Some? && ParseFloat(b).value != 0.0
            then Some(ParseFloat(a).value / ParseFloat(b).value)
            else None
  {
    SplitPair(a, b, '/');
    assert (a + "/" + b)[|a|] == '/';
  }

  /** "p/q" is p divided by q, or None when q is zero. */
  lemma ParseFractionOfIntegers(p: int, q: int)
    ensures ParseFraction(Some(FormatInt(p) + "/" + FormatInt(q)))
         == if q == 0 then None else Some(p as real / q as real)
  {
    var num, den := FormatInt(p), FormatInt(q);
    FormatIntHasNoSlash(p);
    FormatIntHasNoSlash(q);
    SplitPair(num, den, '/');
    var s := num + "/" + den;
    assert s[|num|] == '/';
    assert ParseFraction(Some(s)) == Divide([num, den]);
    DivideIntegers(p, q);
  }

  /** Dividing two integer numerals gives their quotient, or None for a zero denominator. */
  lemma DivideIntegers(p: int, q: int)
    ensures Divide([FormatInt(p), FormatInt(q)]) == if q == 0 then None else Some(p as real / q as real)
  {
    ParseFloatFormatInt(p);
    ParseFloatFormatInt(q);
  }

  /** Two separator-free pieces joined by one separator split back into those two pieces. */
  lemma SplitPair(a: string, b: string, sep: char)
    requires sep !in a && sep !in b
    ensures Split(a + [sep] + b, sep) == [a, b]
  {
    var s := a + [sep] + b;
    assert s[|a|] == sep && s[..|a|] == a && s[|a| + 1..] == b;
    assert IndexOf(s, sep) == Some(|a|);
  }

  /** A word is not a number. */
  lemma ParseFractionWord()
    ensures ParseFraction(Some("invalid")) == None
  {
    var s := "invalid";
    assert forall i :: 0 <= i < |s| ==> s[i] != '/';
    ParseFractionNotNumeric(s);
  }

  /** "1/2" is one half. */
  lemma ParseFractionHalf()
    ensures ParseFraction(Some("1/2")) == Some(0.5)
  {
    ParseFractionOfIntegers(1, 2);
    OneAndTwo();
  }

  lemma OneAndTwo()
    ensures FormatInt(1) + "/" + FormatInt(2) == "1/2"
    ensures 1 as real / 2 as real == 0.5
  {
    assert FormatInt(1) == "1" && FormatInt(2) == "2";
  }

  /** "3.14", with no slash, is read by `float` as 3.14. */
  lemma ParseFractionPi()
    ensures ParseFraction(Some("3.14")) == Some(3.14)
  {
    var s := "3.14";
    assert forall i :: 0 <= i < |s| ==> s[i] != '/';
    ParseFloatPi();
  }

  /** A text without a slash that cannot start a number is not a fraction. */
  lemma ParseFractionNotNumeric(s: string)
    requires s != "" && '/' !in s
    requires !IsDigit(s[0]) && s[0] !in "+-."
    ensures ParseFraction(Some(s)) == None
  {
    assert ParseFraction(Some(s)) == ParseFloat(s);
  }

  // ---------------------------------------------------------------------------
  // The descriptor node and its field coercion rules

  /** Attribute values of an element, keyed by attribute name. */
  type Attributes = map<Attr, string>

  /**
   * The first `rdf:Description` node. Element texts are "" where ElementTree
   * has no text; every list is in document order.
   *  - isoSpeedItems: texts of `.//exif:ISOSpeedRatings/rdf:Seq/rdf:li`
   *  - flash: attributes of the first `.//exif:Flash` element, if any
   *  - creatorItems: texts of `.//dc:creator/rdf:Bag/rdf:li`
   *  - subjectItems: texts of `.//dc:subject/rdf:Bag/rdf:li`
   */
  datatype Descriptor = Descriptor(
    attributes: Attributes,
    isoSpeedItems: seq<string>,
    flash: Option<Attributes>,
    creatorItems: seq<string>,
    subjectItems: seq<string>)

  /** What opening and parsing the sidecar path yields. */
  datatype XmpFile =
    | Missing                                  // the path does not exist
    | Unreadable                               // it exists but cannot be read
    | NotWellFormed                            // ElementTree raises ParseError
    | Document(description: Option<Descriptor>)

  /** The exceptions `parse` lets escape. */
  datatype ParseError =
    | FileNotFound(message: string)
    | OsError                       // IsADirectoryError, PermissionError, ... from opening the file
    | XmlParseError
    | InvalidInt(text: string)      // ValueError from int(text)
    | InvalidFloat(text: string)    // ValueError from float(text)
  {
    /** A `ValueError` raised while coercing a field. */
    predicate IsValueError() {
      InvalidInt? || InvalidFloat?
    }
  }

  /** `element.get(key)`. */
  function Get(attrs: Attributes, key: Attr): (r: Option<string>)
    ensures r.Some? <==> key in attrs
    ensures r.Some? ==> r.value == attrs[key]
  {
    if key in attrs then Some(attrs[key]) else None
  }

  /** `int(element.get(key, default))`: the default only when the attribute is absent. */
  function IntAttr(attrs: Attributes, key: Attr, default: int): (r: Result<int, ParseError>)
    ensures r.Ok? <==> IntReadable(attrs, key)
    ensures key !in attrs ==> r == Ok(default)
    ensures key in attrs ==> (r.Ok? <==> ParseInt(attrs[key]).Some?)
    ensures key in attrs && r.Ok? ==> ParseInt(attrs[key]) == Some(r.value)
    ensures r.Err? ==> key in attrs && r.error == InvalidInt(attrs[key])
    ensures key in attrs && attrs[key] == "" ==> r.Err?
  {
    if key !in attrs then Ok(default)
    else match ParseInt(attrs[key])
      case Some(n) => Ok(n)
      case None => Err(InvalidInt(attrs[key]))
  }

  /** `int(element.get(key, "0")) if element.get(key) else None`. */
  function OptionalIntAttr(attrs: Attributes, key: Attr): (r: Result<Option<int>, ParseError>)
    ensures r.Ok? <==> OptionalIntReadable(attrs, key)
    ensures r == Ok(None) <==> key !in attrs || attrs[key] == ""
    ensures key in attrs && attrs[key] != "" ==> (r.Ok? <==> ParseInt(attrs[key]).Some?)
    ensures r.Ok? && r.value.Some? ==> key in attrs && ParseInt(attrs[key]) == r.value
    ensures r.Err? ==> key in attrs && r.error == InvalidInt(attrs[key])
  {
    if key !in attrs || attrs[key] == "" then Ok(None)
    else match ParseInt(attrs[key])
      case Some(n) => Ok(Some(n))
      case None => Err(InvalidInt(attrs[key]))
  }

  /** `float(element.get(key, default))`: the default only when the attribute is absent. */
  function FloatAttr(attrs: Attributes, key: Attr, default: real): (r: Result<real, ParseError>)
    ensures r.Ok? <==> FloatReadable(attrs, key)
    ensures key !in attrs ==> r == Ok(default)
    ensures key in attrs ==> (r.Ok? <==> ParseFloat(attrs[key]).Some?)
    ensures key in attrs && r.Ok? ==> ParseFloat(attrs[key]) == Some(r.value)
    ensures r.Err? ==> key in attrs && r.error == InvalidFloat(attrs[key])
    ensures key in attrs && attrs[key] == "" ==> r.Err?
  {
    if key !in attrs then Ok(default)
    else match ParseFloat(attrs[key])
      case Some(x) => Ok(x)
      case None => Err(InvalidFloat(attrs[key]))
  }

  /** `element.get(key, "False").lower() == "true"`. */
  function FlagAttr(attrs: Attributes, key: Attr): (b: bool)
    ensures b <==> key in attrs && IsTrueText(attrs[key])
  {
    var text := if key in attrs then attrs[key] else "False";
    assert Lower("False") == "false";
    IsTrueText(text)
  }

  /** `element.get(key, "False").lower() == "true" if element.get(key) else None`. */
  function OptionalFlagAttr(attrs: Attributes, key: Attr): (r: Option<bool>)
    ensures r.None? <==> key !in attrs || attrs[key] == ""
    ensures r.Some? ==> (r.value <==> IsTrueText(attrs[key]))
  {
    if key !in attrs || attrs[key] == "" then None else Some(FlagAttr(attrs, key))
  }

  /** `[int(li.text)]` for the first matching `li` when it has text, else left unset. */
  function FirstIntItem(items: seq<string>): (r: Result<Option<seq<int>>, ParseError>)
    ensures r.Err? ==> r.error.IsValueError()
    ensures items == [] || items[0] == "" ==> r == Ok(None)
    ensures items != [] && items[0] != "" ==> (r.Ok? <==> ParseInt(items[0]).Some?)
    ensures r.Ok? && r.value.Some? ==> items != [] && [ParseInt(items[0]).value] == r.value.value
    ensures r.Err? ==> items != [] && r.error == InvalidInt(items[0])
  {
    if items == [] || items[0] == "" then Ok(None)
    else match ParseInt(items[0])
      case Some(n) => Ok(Some([n]))
      case None => Err(InvalidInt(items[0]))
  }

  /** `[li.text]` for the first matching `li` when it has text, else left unset. */
  function FirstTextItem(items: seq<string>): (r: Option<seq<string>>)
    ensures r.None? <==> items == [] || items[0] == ""
    ensures r.Some? ==> |r.value| == 1 && r.value[0] == items[0] && r.value[0] != ""
  {
    if items == [] || items[0] == "" then None else Some([items[0]])
  }

  /** `[li.text for li in items if li.text]`. */
  function NonEmptyTexts(items: seq<string>): (r: seq<string>)
    ensures "" !in r
    ensures forall t :: t != "" ==> multiset(r)[t] == multiset(items)[t]
  {
    if items == [] then []
    else
      assert items == [items[0]] + items[1..];
      (if items[0] == "" then [] else [items[0]]) + NonEmptyTexts(items[1..])
  }

  /** The kept texts keep their document order. */
  lemma {:induction false} NonEmptyTextsAppend(a: seq<string>, b: seq<string>)
    ensures NonEmptyTexts(a + b) == NonEmptyTexts(a) + NonEmptyTexts(b)
  {
    if a != [] {
      assert (a + b)[1..] == a[1..] + b;
      NonEmptyTextsAppend(a[1..], b);
    } else {
      assert a + b == b;
    }
  }

  /**
   * `v` is what `int(element.get(key, default))` gives: the default when the
   * attribute is absent, else the integer its text spells.
   */
  predicate IsIntOf(attrs: Attributes, key: Attr, default: int, v: int) {
    if key in attrs then ParseInt(attrs[key]) == Some(v) else v == default
  }

  /** An `Option` field that `int(element.get(key, default))` always sets. */
  predicate IsSomeIntOf(attrs: Attributes, key: Attr, default: int, v: Option<int>) {
    v.Some? && IsIntOf(attrs, key, default, v.value)
  }

  /** `v` is what `int(element.get(key, "0")) if element.get(key) else None` gives. */
  predicate IsOptionalIntOf(attrs: Attributes, key: Attr, v: Option<int>) {
    if key in attrs && attrs[key] != "" then v.Some? && ParseInt(attrs[key]) == v else v.None?
  }

  /** `v` is what `float(element.get(key, default))` gives. */
  predicate IsFloatOf(attrs: Attributes, key: Attr, default: real, v: real) {
    if key in attrs then ParseFloat(attrs[key]) == Some(v) else v == default
  }

  /** `v` is what `element.get(key, "False").lower() == "true"` gives. */
  predicate IsFlagOf(attrs: Attributes, key: Attr, v: bool) {
    v <==> key in attrs && IsTrueText(attrs[key])
  }

  /** `int(element.get(key, default))` does not raise. */
  predicate IntReadable(attrs: Attributes, key: Attr) {
    key !in attrs || ParseInt(attrs[key]).Some?
  }

  /** `int(element.get(key, "0")) if element.get(key) else None` does not raise. */
  predicate OptionalIntReadable(attrs: Attributes, key: Attr) {
    key !in attrs || attrs[key] == "" || ParseInt(attrs[key]).Some?
  }

  /** `float(element.get(key, default))` does not raise. */
  predicate FloatReadable(attrs: Attributes, key: Attr) {
    key !in attrs || ParseFloat(attrs[key]).Some?
  }

  // ---------------------------------------------------------------------------
  // The ten groups


  function BasicInfoOf(a: Attributes): (r: Result<XmpBasicInfo, ParseError>)
    ensures r.Ok? ==> r.value.rating.None? == (Attr(Xmp, Rating) !in a || a[Attr(Xmp, Rating)] == "")
    ensures r.Ok? && r.value.rating.Some? ==> ParseInt(a[Attr(Xmp, Rating)]) == r.value.rating
    ensures r.Ok? <==> OptionalIntReadable(a, Attr(Xmp, Rating))
    ensures r.Ok? ==>
      && r.value.creatorTool == Get(a, Attr(Xmp, CreatorTool))
      && r.value.modifyDate == ParseDatetime(Get(a, Attr(Xmp, ModifyDate)))
      && r.value.createDate == ParseDatetime(Get(a, Attr(Xmp, CreateDate)))
      && r.value.metadataDate == ParseDatetime(Get(a, Attr(Xmp, MetadataDate)))
      && r.value.colorLabel == Get(a, Attr(Xmp, Label))
  {
    var rating :- OptionalIntAttr(a, Attr(Xmp, Rating));
    Ok(XmpBasicInfo(
      creatorTool := Get(a, Attr(Xmp, CreatorTool)),
      modifyDate := ParseDatetime(Get(a, Attr(Xmp, ModifyDate))),
      createDate := ParseDatetime(Get(a, Attr(Xmp, CreateDate))),
      metadataDate := ParseDatetime(Get(a, Attr(Xmp, MetadataDate))),
      rating := rating,
      colorLabel := Get(a, Attr(Xmp, Label))))
  }

  function DocumentInfoOf(a: Attributes): (r: XmpDocumentInfo)
    ensures r.history == []
    ensures r.documentId == Get(a, Attr(XmpMM, DocumentID)) && r.instanceId == Get(a, Attr(XmpMM, InstanceID))
    ensures r.preservedFileName == Get(a, Attr(XmpMM, PreservedFileName))
    ensures r.originalDocumentId == Get(a, Attr(XmpMM, OriginalDocumentID))
  {
    XmpDocumentInfo(
      documentId := Get(a, Attr(XmpMM, DocumentID)),
      instanceId := Get(a, Attr(XmpMM, InstanceID)),
      preservedFileName := Get(a, Attr(XmpMM, PreservedFileName)),
      originalDocumentId := Get(a, Attr(XmpMM, OriginalDocumentID)))
  }

  function TiffInfoOf(a: Attributes): (r: Result<TiffInfo, ParseError>)
    ensures r.Ok? <==> TiffCoercible(a)
    ensures r.Err? ==> r.error.IsValueError()
    ensures r.Ok? ==> r.value.orientation.Some? && r.value.imageWidth.Some? && r.value.imageLength.Some?
    ensures r.Ok? && Attr(Tiff, Orientation) !in a ==> r.value.orientation == Some(1)
    ensures r.Ok? && Attr(Tiff, Orientation) in a ==> r.value.orientation == ParseInt(a[Attr(Tiff, Orientation)])
    ensures r.Ok? ==>
      && IsSomeIntOf(a, Attr(Tiff, ImageWidth), 0, r.value.imageWidth)
      && IsSomeIntOf(a, Attr(Tiff, ImageLength), 0, r.value.imageLength)
      && IsOptionalIntOf(a, Attr(Tiff, ResolutionUnit), r.value.resolutionUnit)
    ensures r.Ok? ==>
      && r.value.make == Get(a, Attr(Tiff, Make)) && r.value.model == Get(a, Attr(Tiff, Model))
      && r.value.xResolution == ParseFraction(Get(a, Attr(Tiff, XResolution)))
      && r.value.yResolution == ParseFraction(Get(a, Attr(Tiff, YResolution)))
  {
    var orientation :- IntAttr(a, Attr(Tiff, Orientation), 1);
    var imageWidth :- IntAttr(a, Attr(Tiff, ImageWidth), 0);
    var imageLength :- IntAttr(a, Attr(Tiff, ImageLength), 0);
    var resolutionUnit :- OptionalIntAttr(a, Attr(Tiff, ResolutionUnit));
    Ok(TiffInfo(
      make := Get(a, Attr(Tiff, Make)),
      model := Get(a, Attr(Tiff, Model)),
      orientation := Some(orientation),
      imageWidth := Some(imageWidth),
      imageLength := Some(imageLength),
      xResolution := ParseFraction(Get(a, Attr(Tiff, XResolution))),
      yResolution := ParseFraction(Get(a, Attr(Tiff, YResolution))),
      resolutionUnit := resolutionUnit))
  }

  function ExifInfoOf(a: Attributes): (r: Result<ExifInfo, ParseError>)
    ensures r.Ok? <==> ExifCoercible(a)
    ensures r.Err? ==> r.error.IsValueError()
    ensures r.Ok? ==> r.value.isoSpeedRatings.None?
    ensures r.Ok? ==> r.value.exposureProgram.Some? && r.value.whiteBalance.Some? && r.value.sceneType.Some?
  {
    var exposureProgram :- IntAttr(a, Attr(Exif, ExposureProgram), 0);
    var exposureMode :- IntAttr(a, Attr(Exif, ExposureMode), 0);
    var recommendedExposureIndex :- IntAttr(a, Attr(Exif, RecommendedExposureIndex), 0);
    var sensitivityType :- IntAttr(a, Attr(Exif, SensitivityType), 0);
    var meteringMode :- IntAttr(a, Attr(Exif, MeteringMode), 0);
    var lightSource :- IntAttr(a, Attr(Exif, LightSource), 0);
    var whiteBalance :- IntAttr(a, Attr(Exif, WhiteBalance), 0);
    var focalLengthIn35mmFilm :- IntAttr(a, Attr(Exif, FocalLengthIn35mmFilm), 0);
    var pixelXDimension :- IntAttr(a, Attr(Exif, PixelXDimension), 0);
    var pixelYDimension :- IntAttr(a, Attr(Exif, PixelYDimension), 0);
    var focalPlaneResolutionUnit :- IntAttr(a, Attr(Exif, FocalPlaneResolutionUnit), 0);
    var customRendered :- IntAttr(a, Attr(Exif, CustomRendered), 0);
    var sceneCaptureType :- IntAttr(a, Attr(Exif, SceneCaptureType), 0);
    var contrast :- IntAttr(a, Attr(Exif, Contrast), 0);
    var saturation :- IntAttr(a, Attr(Exif, Saturation), 0);
    var sharpness :- IntAttr(a, Attr(Exif, Sharpness), 0);
    var fileSource :- IntAttr(a, Attr(Exif, FileSource), 0);
    var sceneType :- IntAttr(a, Attr(Exif, SceneType), 0);
    Ok(ExifInfo(
      exposureTime := Get(a, Attr(Exif, ExposureTime)),
      shutterSpeedValue := ParseFraction(Get(a, Attr(Exif, ShutterSpeedValue))),
      fNumber := ParseFraction(Get(a, Attr(Exif, FNumber))),
      apertureValue := ParseFraction(Get(a, Attr(Exif, ApertureValue))),
      exposureProgram := Some(exposureProgram),
      exposureMode := Some(exposureMode),
      exposureBiasValue := ParseFraction(Get(a, Attr(Exif, ExposureBiasValue))),
      recommendedExposureIndex := Some(recommendedExposureIndex),
      sensitivityType := Some(sensitivityType),
      meteringMode := Some(meteringMode),
      lightSource := Some(lightSource),
      whiteBalance := Some(whiteBalance),
      brightnessValue := ParseFraction(Get(a, Attr(Exif, BrightnessValue))),
      focalLength := ParseFraction(Get(a, Attr(Exif, FocalLength))),
      focalLengthIn35mmFilm := Some(focalLengthIn35mmFilm),
      maxApertureValue := ParseFraction(Get(a, Attr(Exif, MaxApertureValue))),
      digitalZoomRatio := ParseFraction(Get(a, Attr(Exif, DigitalZoomRatio))),
      pixelXDimension := Some(pixelXDimension),
      pixelYDimension := Some(pixelYDimension),
      focalPlaneXResolution := ParseFraction(Get(a, Attr(Exif, FocalPlaneXResolution))),
      focalPlaneYResolution := ParseFraction(Get(a, Attr(Exif, FocalPlaneYResolution))),
      focalPlaneResolutionUnit := Some(focalPlaneResolutionUnit),
      customRendered := Some(customRendered),
      sceneCaptureType := Some(sceneCaptureType),
      contrast := Some(contrast),
      saturation := Some(saturation),
      sharpness := Some(sharpness),
      fileSource := Some(fileSource),
      sceneType := Some(sceneType),
      exifVersion := Get(a, Attr(Exif, ExifVersion)),
      dateTimeOriginal := ParseDatetime(Get(a, Attr(Exif, DateTimeOriginal))),
      dateTimeDigitized := ParseDatetime(Get(a, Attr(Exif, DateTimeDigitized)))))
  }

  /** Each integer of the exif group is 0 when its attribute is absent, else the integer its text spells. */
  lemma ExifIntFields(a: Attributes)
    requires ExifInfoOf(a).Ok?
    ensures var r := ExifInfoOf(a).value;
      && IsSomeIntOf(a, Attr(Exif, ExposureProgram), 0, r.exposureProgram)
      && IsSomeIntOf(a, Attr(Exif, ExposureMode), 0, r.exposureMode)
      && IsSomeIntOf(a, Attr(Exif, RecommendedExposureIndex), 0, r.recommendedExposureIndex)
      && IsSomeIntOf(a, Attr(Exif, SensitivityType), 0, r.sensitivityType)
      && IsSomeIntOf(a, Attr(Exif, MeteringMode), 0, r.meteringMode)
      && IsSomeIntOf(a, Attr(Exif, LightSource), 0, r.lightSource)
      && IsSomeIntOf(a, Attr(Exif, WhiteBalance), 0, r.whiteBalance)
      && IsSomeIntOf(a, Attr(Exif, FocalLengthIn35mmFilm), 0, r.focalLengthIn35mmFilm)
      && IsSomeIntOf(a, Attr(Exif, PixelXDimension), 0, r.pixelXDimension)
      && IsSomeIntOf(a, Attr(Exif, PixelYDimension), 0, r.pixelYDimension)
      && IsSomeIntOf(a, Attr(Exif, FocalPlaneResolutionUnit), 0, r.focalPlaneResolutionUnit)
      && IsSomeIntOf(a, Attr(Exif, CustomRendered), 0, r.customRendered)
      && IsSomeIntOf(a, Attr(Exif, SceneCaptureType), 0, r.sceneCaptureType)
      && IsSomeIntOf(a, Attr(Exif, Contrast), 0, r.contrast)
      && IsSomeIntOf(a, Attr(Exif, Saturation), 0, r.saturation)
      && IsSomeIntOf(a, Attr(Exif, Sharpness), 0, r.sharpness)
      && IsSomeIntOf(a, Attr(Exif, FileSource), 0, r.fileSource)
      && IsSomeIntOf(a, Attr(Exif, SceneType), 0, r.sceneType)
  {
  }

  /** The exif ratios are read by `parse_fraction`, the dates by `parse_datetime`, and the texts are kept as written. */
  lemma ExifOtherFields(a: Attributes)
    requires ExifInfoOf(a).Ok?
    ensures var r := ExifInfoOf(a).value;
      && r.shutterSpeedValue == ParseFraction(Get(a, Attr(Exif, ShutterSpeedValue)))
      && r.fNumber == ParseFraction(Get(a, Attr(Exif, FNumber)))
      && r.apertureValue == ParseFraction(Get(a, Attr(Exif, ApertureValue)))
      && r.exposureBiasValue == ParseFraction(Get(a, Attr(Exif, ExposureBiasValue)))
      && r.brightnessValue == ParseFraction(Get(a, Attr(Exif, BrightnessValue)))
      && r.focalLength == ParseFraction(Get(a, Attr(Exif, FocalLength)))
      && r.maxApertureValue == ParseFraction(Get(a, Attr(Exif, MaxApertureValue)))
      && r.digitalZoomRatio == ParseFraction(Get(a, Attr(Exif, DigitalZoomRatio)))
      && r.focalPlaneXResolution == ParseFraction(Get(a, Attr(Exif, FocalPlaneXResolution)))
      && r.focalPlaneYResolution == ParseFraction(Get(a, Attr(Exif, FocalPlaneYResolution)))
    ensures var r := ExifInfoOf(a).value;
      && r.exposureTime == Get(a, Attr(Exif, ExposureTime))
      && r.exifVersion == Get(a, Attr(Exif, ExifVersion))
      && r.dateTimeOriginal == ParseDatetime(Get(a, Attr(Exif, DateTimeOriginal)))
      && r.dateTimeDigitized == ParseDatetime(Get(a, Attr(Exif, DateTimeDigitized)))
  {
  }

  /** The attributes of an `exif:Flash` element. */
  function FlashInfoOf(f: Attributes): (r: Result<FlashInfo, ParseError>)
    ensures r.Ok? <==> FlashCoercible(f)
    ensures r.Err? ==> r.error.IsValueError()
    ensures r.Ok? ==> (r.value.fired <==> Attr(Exif, Fired) in f && IsTrueText(f[Attr(Exif, Fired)]))
    ensures r.Ok? ==> r.value.returnMode.Some? && r.value.mode.Some?
    ensures r.Ok? ==>
      && IsSomeIntOf(f, Attr(Exif, Return), 0, r.value.returnMode)
      && IsSomeIntOf(f, Attr(Exif, Mode), 0, r.value.mode)
      && IsFlagOf(f, Attr(Exif, Function), r.value.flashFunction)
      && IsFlagOf(f, Attr(Exif, RedEyeMode), r.value.redEyeMode)
  {
    var returnMode :- IntAttr(f, Attr(Exif, Return), 0);
    var mode :- IntAttr(f, Attr(Exif, Mode), 0);
    Ok(FlashInfo(
      fired := FlagAttr(f, Attr(Exif, Fired)),
      returnMode := Some(returnMode),
      mode := Some(mode),
      flashFunction := FlagAttr(f, Attr(Exif, Function)),
      redEyeMode := FlagAttr(f, Attr(Exif, RedEyeMode))))
  }

  function LensInfoOf(a: Attributes): (r: LensInfo)
    ensures r.lensModel == Get(a, Attr(ExifEX, LensModel))
    ensures r.lensInfo == Get(a, Attr(Aux, LocalName.LensInfo)) && r.lens == Get(a, Attr(Aux, Lens))
    ensures r.lensDistortInfo == Get(a, Attr(Aux, LensDistortInfo))
    ensures r.lensSerialNumber == Get(a, Attr(Aux, LensSerialNumber))
  {
    XmpDataclass.LensInfo(
      lensInfo := Get(a, Attr(Aux, LocalName.LensInfo)),
      lens := Get(a, Attr(Aux, Lens)),
      lensModel := Get(a, Attr(ExifEX, LensModel)),
      lensDistortInfo := Get(a, Attr(Aux, LensDistortInfo)),
      lensSerialNumber := Get(a, Attr(Aux, LensSerialNumber)))
  }

  function PhotoshopInfoOf(a: Attributes): (r: Result<PhotoshopInfo, ParseError>)
    ensures r.Ok? <==> OptionalIntReadable(a, Attr(Photoshop, ColorMode))
    ensures r.Err? ==> r.error.IsValueError()
    ensures r.Ok? ==> (r.value.colorMode.None? <==> Get(a, Attr(Photoshop, ColorMode)) in {None, Some("")})
    ensures r.Ok? ==> IsOptionalIntOf(a, Attr(Photoshop, ColorMode), r.value.colorMode)
    ensures r.Ok? ==>
      && r.value.dateCreated == ParseDatetime(Get(a, Attr(Photoshop, DateCreated)))
      && r.value.sidecarForExtension == Get(a, Attr(Photoshop, SidecarForExtension))
      && r.value.embeddedXmpDigest == Get(a, Attr(Photoshop, EmbeddedXMPDigest))
      && r.value.iccProfile == Get(a, Attr(Photoshop, ICCProfile))
  {
    var colorMode :- OptionalIntAttr(a, Attr(Photoshop, ColorMode));
    Ok(PhotoshopInfo(
      dateCreated := ParseDatetime(Get(a, Attr(Photoshop, DateCreated))),
      sidecarForExtension := Get(a, Attr(Photoshop, SidecarForExtension)),
      embeddedXmpDigest := Get(a, Attr(Photoshop, EmbeddedXMPDigest)),
      colorMode := colorMode,
      iccProfile := Get(a, Attr(Photoshop, ICCProfile))))
  }

  /** Without any crop attribute the settings describe the full, uncropped frame. */
  function CameraRawSettingsOf(a: Attributes): (r: Result<CameraRawSettings, ParseError>)
    ensures r.Ok? <==> CameraRawCoercible(a)
    ensures r.Err? ==> r.error.IsValueError()
    ensures (&& Attr(Crs, CropTop) !in a && Attr(Crs, CropLeft) !in a && Attr(Crs, CropBottom) !in a && Attr(Crs, CropRight) !in a
             && Attr(Crs, CropAngle) !in a && Attr(Crs, HasCrop) !in a && r.Ok?) ==> IsFullFrame(r.value)
    ensures r.Ok? ==> (r.value.hasCrop <==> Attr(Crs, HasCrop) in a && IsTrueText(a[Attr(Crs, HasCrop)]))
    ensures r.Ok? ==> r.value.rawFileName == Get(a, Attr(Crs, RawFileName))
    ensures r.Ok? && Attr(Crs, CropBottom) in a ==> ParseFloat(a[Attr(Crs, CropBottom)]) == Some(r.value.cropBottom)
  {
    var cropTop :- FloatAttr(a, Attr(Crs, CropTop), 0.0);
    var cropLeft :- FloatAttr(a, Attr(Crs, CropLeft), 0.0);
    var cropBottom :- FloatAttr(a, Attr(Crs, CropBottom), 1.0);
    var cropRight :- FloatAttr(a, Attr(Crs, CropRight), 1.0);
    var cropAngle :- FloatAttr(a, Attr(Crs, CropAngle), 0.0);
    var cropConstrainToWarp :- IntAttr(a, Attr(Crs, CropConstrainToWarp), 0);
    var cropConstrainToUnitSquare :- IntAttr(a, Attr(Crs, CropConstrainToUnitSquare), 1);
    var contrast :- OptionalIntAttr(a, Attr(Crs, Contrast2012));
    var highlights :- OptionalIntAttr(a, Attr(Crs, Highlights2012));
    var shadows :- OptionalIntAttr(a, Attr(Crs, Shadows2012));
    var whites :- OptionalIntAttr(a, Attr(Crs, Whites2012));
    var blacks :- OptionalIntAttr(a, Attr(Crs, Blacks2012));
    var clarity :- OptionalIntAttr(a, Attr(Crs, Clarity2012));
    var vibrance :- OptionalIntAttr(a, Attr(Crs, Vibrance));
    var saturation :- OptionalIntAttr(a, Attr(Crs, Saturation));
    Ok(CameraRawSettings(
      cropTop := cropTop,
      cropLeft := cropLeft,
      cropBottom := cropBottom,
      cropRight := cropRight,
      cropAngle := cropAngle,
      cropConstrainToWarp := cropConstrainToWarp,
      cropConstrainToUnitSquare := cropConstrainToUnitSquare,
      hasCrop := FlagAttr(a, Attr(Crs, HasCrop)),
      alreadyApplied := FlagAttr(a, Attr(Crs, AlreadyApplied)),
      rawFileName := Get(a, Attr(Crs, RawFileName)),
      cameraProfile := Get(a, Attr(Crd, CameraProfile)),
      lookName := Get(a, Attr(Crd, LookName)),
      version := Get(a, Attr(Crs, Version)),
      processVersion := Get(a, Attr(Crs, ProcessVersion)),
      exposure := ParseFraction(Get(a, Attr(Crs, Exposure2012))),
      contrast := contrast,
      highlights := highlights,
      shadows := shadows,
      whites := whites,
      blacks := blacks,
      clarity := clarity,
      vibrance := vibrance,
      saturation := saturation))
  }

  /**
   * Each crop number is its default (0 for top, left and angle, 1 for bottom
   * and right) when absent, else the number its text spells; so are the two
   * constraint integers (defaults 0 and 1).
   */
  lemma CameraRawCropFields(a: Attributes)
    requires CameraRawSettingsOf(a).Ok?
    ensures var r := CameraRawSettingsOf(a).value;
      && IsFloatOf(a, Attr(Crs, CropTop), 0.0, r.cropTop)
      && IsFloatOf(a, Attr(Crs, CropLeft), 0.0, r.cropLeft)
      && IsFloatOf(a, Attr(Crs, CropBottom), 1.0, r.cropBottom)
      && IsFloatOf(a, Attr(Crs, CropRight), 1.0, r.cropRight)
      && IsFloatOf(a, Attr(Crs, CropAngle), 0.0, r.cropAngle)
    ensures var r := CameraRawSettingsOf(a).value;
      && IsIntOf(a, Attr(Crs, CropConstrainToWarp), 0, r.cropConstrainToWarp)
      && IsIntOf(a, Attr(Crs, CropConstrainToUnitSquare), 1, r.cropConstrainToUnitSquare)
      && IsFlagOf(a, Attr(Crs, AlreadyApplied), r.alreadyApplied)
  {
  }

  /** Each develop setting is unset when its attribute is absent or empty, else the integer its text spells. */
  lemma CameraRawDevelopFields(a: Attributes)
    requires CameraRawSettingsOf(a).Ok?
    ensures var r := CameraRawSettingsOf(a).value;
      && IsOptionalIntOf(a, Attr(Crs, Contrast2012), r.contrast)
      && IsOptionalIntOf(a, Attr(Crs, Highlights2012), r.highlights)
      && IsOptionalIntOf(a, Attr(Crs, Shadows2012), r.shadows)
      && IsOptionalIntOf(a, Attr(Crs, Whites2012), r.whites)
      && IsOptionalIntOf(a, Attr(Crs, Blacks2012), r.blacks)
      && IsOptionalIntOf(a, Attr(Crs, Clarity2012), r.clarity)
      && IsOptionalIntOf(a, Attr(Crs, Vibrance), r.vibrance)
      && IsOptionalIntOf(a, Attr(Crs, Saturation), r.saturation)
  {
  }

  /** The profile, look and version texts are kept as written, and the exposure is read by `parse_fraction`. */
  lemma CameraRawOtherFields(a: Attributes)
    requires CameraRawSettingsOf(a).Ok?
    ensures var r := CameraRawSettingsOf(a).value;
      && r.cameraProfile == Get(a, Attr(Crd, CameraProfile))
      && r.lookName == Get(a, Attr(Crd, LookName))
      && r.version == Get(a, Attr(Crs, Version))
      && r.processVersion == Get(a, Attr(Crs, ProcessVersion))
      && r.exposure == ParseFraction(Get(a, Attr(Crs, Exposure2012)))
  {
  }

  function DublinCoreInfoOf(a: Attributes): (r: DublinCoreInfo)
    ensures r.creator.None? && r.subject.None?
    ensures r.format == Get(a, Attr(Dc, Format)) && r.title == Get(a, Attr(Dc, Title))
    ensures r.description == Get(a, Attr(Dc, Description)) && r.rights == Get(a, Attr(Dc, Rights))
  {
    DublinCoreInfo(
      format := Get(a, Attr(Dc, Format)),
      title := Get(a, Attr(Dc, Title)),
      description := Get(a, Attr(Dc, Description)),
      rights := Get(a, Attr(Dc, Rights)))
  }

  function DynamicMediaInfoOf(a: Attributes): (r: Result<DynamicMediaInfo, ParseError>)
    ensures r.Ok? <==> IntReadable(a, Attr(XmpDM, Pick))
    ensures r.Err? ==> r.error.IsValueError()
    ensures r.Ok? && Attr(XmpDM, Pick) !in a ==> r.value.pick == 0
    ensures r.Ok? && Attr(XmpDM, Pick) in a ==> ParseInt(a[Attr(XmpDM, Pick)]) == Some(r.value.pick)
    ensures r.Ok? ==> (r.value.good.None? <==> Attr(XmpDM, Good) !in a || a[Attr(XmpDM, Good)] == "")
    ensures r.Ok? && r.value.good.Some? ==> (r.value.good.value <==> IsTrueText(a[Attr(XmpDM, Good)]))
    ensures r.Ok? ==> r.value.scene == Get(a, Attr(XmpDM, Scene))
  {
    var pick :- IntAttr(a, Attr(XmpDM, Pick), 0);
    Ok(DynamicMediaInfo(
      pick := pick,
      good := OptionalFlagAttr(a, Attr(XmpDM, Good)),
      scene := Get(a, Attr(XmpDM, Scene))))
  }

  /** Every integer attribute of the tiff group is a numeral (or absent, or empty where that means unset). */
  predicate TiffCoercible(a: Attributes) {
    && IntReadable(a, Attr(Tiff, Orientation))
    && IntReadable(a, Attr(Tiff, ImageWidth))
    && IntReadable(a, Attr(Tiff, ImageLength))
    && OptionalIntReadable(a, Attr(Tiff, ResolutionUnit))
  }

  /** Every integer attribute of the exif group is a numeral or absent. */
  predicate ExifCoercible(a: Attributes) {
    && IntReadable(a, Attr(Exif, ExposureProgram))
    && IntReadable(a, Attr(Exif, ExposureMode))
    && IntReadable(a, Attr(Exif, RecommendedExposureIndex))
    && IntReadable(a, Attr(Exif, SensitivityType))
    && IntReadable(a, Attr(Exif, MeteringMode))
    && IntReadable(a, Attr(Exif, LightSource))
    && IntReadable(a, Attr(Exif, WhiteBalance))
    && IntReadable(a, Attr(Exif, FocalLengthIn35mmFilm))
    && IntReadable(a, Attr(Exif, PixelXDimension))
    && IntReadable(a, Attr(Exif, PixelYDimension))
    && IntReadable(a, Attr(Exif, FocalPlaneResolutionUnit))
    && IntReadable(a, Attr(Exif, CustomRendered))
    && IntReadable(a, Attr(Exif, SceneCaptureType))
    && IntReadable(a, Attr(Exif, Contrast))
    && IntReadable(a, Attr(Exif, Saturation))
    && IntReadable(a, Attr(Exif, Sharpness))
    && IntReadable(a, Attr(Exif, FileSource))
    && IntReadable(a, Attr(Exif, SceneType))
  }

  /** Both integer attributes of an `exif:Flash` element are numerals or absent. */
  predicate FlashCoercible(f: Attributes) {
    IntReadable(f, Attr(Exif, Return)) && IntReadable(f, Attr(Exif, Mode))
  }

  /** Every crop number and develop setting of the camera-raw group can be read. */
  predicate CameraRawCoercible(a: Attributes) {
    && FloatReadable(a, Attr(Crs, CropTop))
    && FloatReadable(a, Attr(Crs, CropLeft))
    && FloatReadable(a, Attr(Crs, CropBottom))
    && FloatReadable(a, Attr(Crs, CropRight))
    && FloatReadable(a, Attr(Crs, CropAngle))
    && IntReadable(a, Attr(Crs, CropConstrainToWarp))
    && IntReadable(a, Attr(Crs, CropConstrainToUnitSquare))
    && OptionalIntReadable(a, Attr(Crs, Contrast2012))
    && OptionalIntReadable(a, Attr(Crs, Highlights2012))
    && OptionalIntReadable(a, Attr(Crs, Shadows2012))
    && OptionalIntReadable(a, Attr(Crs, Whites2012))
    && OptionalIntReadable(a, Attr(Crs, Blacks2012))
    && OptionalIntReadable(a, Attr(Crs, Clarity2012))
    && OptionalIntReadable(a, Attr(Crs, Vibrance))
    && OptionalIntReadable(a, Attr(Crs, Saturation))
  }

  /**
   * The descriptor holds no text that `int` or `float` would reject where
   * the extractor converts one: the condition under which `parse` returns.
   */
  predicate Coercible(d: Descriptor) {
    var a := d.attributes;
    && OptionalIntReadable(a, Attr(Xmp, Rating))
    && TiffCoercible(a)
    && ExifCoercible(a)
    && (d.isoSpeedItems == [] || d.isoSpeedItems[0] == "" || ParseInt(d.isoSpeedItems[0]).Some?)
    && (d.flash.Some? ==> FlashCoercible(d.flash.value))
    && OptionalIntReadable(a, Attr(Photoshop, ColorMode))
    && CameraRawCoercible(a)
    && IntReadable(a, Attr(XmpDM, Pick))
  }

  // ---------------------------------------------------------------------------
  // parse

  /**
   * Fills a fresh `XmpMetadata()` from a descriptor node, group by group in
   * the source's order; the first malformed number aborts with its error.
   * The flash group is replaced only when an `exif:Flash` element exists;
   * the ISO and creator lists take the first `li` text only.
   */
  function ExtractDescriptor(d: Descriptor): (r: Result<XmpMetadata, ParseError>)
    ensures r.Ok? ==> BasicInfoOf(d.attributes).Ok? && r.value.xmpInfo == BasicInfoOf(d.attributes).value
    ensures r.Ok? ==>
      && CameraRawSettingsOf(d.attributes).Ok?
      && r.value.cameraRawSettings == CameraRawSettingsOf(d.attributes).value
    ensures r.Ok? <==> Coercible(d)
    ensures r.Err? ==> r.error.IsValueError()
    ensures r.Ok? && d.flash.None? ==> r.value.flashInfo == FlashInfo()
    ensures r.Ok? ==> r.value.documentInfo.history == []
    ensures r.Ok? ==> r.value.dublinCoreInfo.creator == FirstTextItem(d.creatorItems)
    ensures r.Ok? ==> (r.value.dublinCoreInfo.subject.None? <==> d.subjectItems == [])
    ensures r.Ok? && d.subjectItems != [] ==> r.value.dublinCoreInfo.subject == Some(NonEmptyTexts(d.subjectItems))
    ensures r.Ok? ==> (r.value.exifInfo.isoSpeedRatings.None? <==> d.isoSpeedItems == [] || d.isoSpeedItems[0] == "")
  {
    var a := d.attributes;
    var xmpInfo :- BasicInfoOf(a);
    var tiffInfo :- TiffInfoOf(a);
    var exifInfo :- ExifInfoOf(a);
    var iso :- FirstIntItem(d.isoSpeedItems);
    var flashInfo :- if d.flash.Some? then FlashInfoOf(d.flash.value) else Ok(FlashInfo());
    var photoshopInfo :- PhotoshopInfoOf(a);
    var cameraRawSettings :- CameraRawSettingsOf(a);
    var dynamicMediaInfo :- DynamicMediaInfoOf(a);
    var creator := FirstTextItem(d.creatorItems);
    var dublinCore := DublinCoreInfoOf(a);
    Ok(XmpMetadata(
      xmpInfo := xmpInfo,
      documentInfo := DocumentInfoOf(a),
      tiffInfo := tiffInfo,
      exifInfo := if iso.Some? then exifInfo.(isoSpeedRatings := iso) else exifInfo,
      flashInfo := flashInfo,
      lensInfo := LensInfoOf(a),
      photoshopInfo := photoshopInfo,
      cameraRawSettings := cameraRawSettings,
      dublinCoreInfo := dublinCore.(
        creator := if creator.Some? then creator else dublinCore.creator,
        subject := if d.subjectItems != [] then Some(NonEmptyTexts(d.subjectItems)) else dublinCore.subject),
      dynamicMediaInfo := dynamicMediaInfo))
  }

  /**
   * Every group of an extracted record is the one its builder reads from the
   * descriptor; the ISO list is the first `li`'s integer, and an
   * `exif:Flash` element replaces the default flash group.
   */
  lemma ExtractDescriptorGroups(d: Descriptor)
    requires ExtractDescriptor(d).Ok?
    ensures FirstIntItem(d.isoSpeedItems) == Ok(ExtractDescriptor(d).value.exifInfo.isoSpeedRatings)
    ensures ExtractDescriptor(d).value.documentInfo == DocumentInfoOf(d.attributes)
    ensures TiffInfoOf(d.attributes) == Ok(ExtractDescriptor(d).value.tiffInfo)
    ensures ExifInfoOf(d.attributes) == Ok(ExtractDescriptor(d).value.exifInfo.(isoSpeedRatings := None))
    ensures d.flash.Some? ==> FlashInfoOf(d.flash.value) == Ok(ExtractDescriptor(d).value.flashInfo)
    ensures ExtractDescriptor(d).value.lensInfo == LensInfoOf(d.attributes)
    ensures PhotoshopInfoOf(d.attributes) == Ok(ExtractDescriptor(d).value.photoshopInfo)
    ensures ExtractDescriptor(d).value.dublinCoreInfo.(creator := None, subject := None) == DublinCoreInfoOf(d.attributes)
    ensures DynamicMediaInfoOf(d.attributes) == Ok(ExtractDescriptor(d).value.dynamicMediaInfo)
  {
  }

  /**
   * The rating and raw file name of a sidecar that parses: a rating of "1"
   * reads as 1, a missing or empty rating as unrated, and the raw file name
   * is the attribute's text.
   */
  lemma RatingAndRawFileName(d: Descriptor)
    requires Coercible(d)
    ensures ExtractDescriptor(d).Ok?
    ensures var rating := ExtractDescriptor(d).value.xmpInfo.rating;
      rating.None? <==> Attr(Xmp, Rating) !in d.attributes || d.attributes[Attr(Xmp, Rating)] == ""
    ensures Attr(Xmp, Rating) in d.attributes && d.attributes[Attr(Xmp, Rating)] == "1"
            ==> ExtractDescriptor(d).value.xmpInfo.rating == Some(1)
    ensures ExtractDescriptor(d).value.cameraRawSettings.rawFileName == Get(d.attributes, Attr(Crs, RawFileName))
  {
    var a := d.attributes;
    if Attr(Xmp, Rating) in a && a[Attr(Xmp, Rating)] == "1" {
      ParseIntOne();
    }
  }

  /** `int("1") == 1`, the rating of the test sidecar. */
  lemma ParseIntOne()
    ensures ParseInt("1") == Some(1)
  {
    assert ParseInt("1") == Some(DigitsValue("1"));
  }

  /**
   * `XMPParser.parse`: FileNotFoundError for a missing path, an OSError for
   * one that cannot be read, the XML error for a document that is not well
   * formed, the default record when no
   * `rdf:Description` exists, and otherwise the extracted record.
   */
  function Parse(filePath: string, file: XmpFile): (r: Result<XmpMetadata, ParseError>)
    ensures file.Missing? <==> r.Err? && r.error.FileNotFound?
    ensures r.Err? && r.error.FileNotFound? ==> r.error.message == "XMP file not found: " + filePath
    ensures file.Unreadable? <==> r == Err(OsError)
    ensures file.NotWellFormed? <==> r == Err(XmlParseError)
    ensures file == Document(None) ==> r == Ok(XmpMetadata())
    ensures file.Document? && file.description.Some? ==> r == ExtractDescriptor(file.description.value)
    ensures r.Ok? ==> r.value.documentInfo.history == []
  {
    match file
    case Missing => Err(FileNotFound("XMP file not found: " + filePath))
    case Unreadable => Err(OsError)
    case NotWellFormed => Err(XmlParseError)
    case Document(None) => Ok(XmpMetadata())
    case Document(Some(d)) => ExtractDescriptor(d)
  }
}
