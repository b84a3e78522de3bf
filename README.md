# LrUtility XMP extractor and file chunker, in Dafny

This project models two parts of LrUtility, a set of helpers around Adobe
Lightroom sidecar files.

- **The XMP extractor** (`XMPParser`). It has a table of fourteen namespace
  prefixes. It has two scalar coercers:
  - `parse_datetime` reads an ISO 8601 timestamp, where "Z" means UTC.
  - `parse_fraction` reads "N/D" ratios and plain numbers.

  Its `parse` fills the ten metadata groups of an `XMPMetadata` record from
  the first `rdf:Description` node of a sidecar file.
- **The metadata records** (`XMPDataclass`). These are ten dataclasses and
  their aggregate, each field with its default value.
- **The greedy chunker** (`group_files`). It cuts an ordered list of files
  into consecutive groups whose total size stays within a maximum, closing a
  group as soon as the next file would overflow it.

The modules are:

| file | module | models |
|---|---|---|
| `wrappers.dfy` | `Wrappers` | `Option` (Python's `X \| None`) and `Result` (a value or the exception raised instead) |
| `py_numbers.dfy` | `PyNumbers` | the parts of `int(str)`, `float(str)` and `str.lower()` the extractor relies on |
| `py_datetime.dfy` | `PyDateTime` | the subset of `datetime.fromisoformat` XMP timestamps use, and `isoformat` |
| `xmp_dataclass.dfy` | `XmpDataclass` | the records, with dataclass defaults as constructor defaults |
| `xmp_parser.dfy` | `XmpParser` | the namespace table, the coercers, the field rules, the ten groups and `parse` |
| `zip_chunker.dfy` | `ZipChunker` | `group_files`, a method with a loop, proved against a greedy-grouping predicate |

### How the model represents the source

- **Dataclasses.** Each dataclass is a datatype whose constructor parameters
  carry the dataclass defaults. So `FlashInfo()` is the record built with no
  arguments. Python field names that are Dafny keywords are renamed:
  `label` becomes `colorLabel` and `function` becomes `flashFunction`.
- **Attribute keys.** ElementTree keys an attribute as `{uri}local`. The
  model keys it by a pair of enumerations, a `Prefix` of the namespace table
  and a `LocalName`. `PrefixName`, `NamespaceUri` and `Spelling` give the
  text of each, and `ClarkName` spells out the key the pair stands for.
- **Element text.** A missing element text is the empty string. Every use in
  the source is a truthiness test, where `None` and `""` behave alike.
- **Errors.** `parse` is a function that returns `Result`. An exception that
  escapes `parse` is an `Err`:
  - `FileNotFoundError` becomes `FileNotFound`;
  - an `OSError` from opening a path that exists but cannot be read (a
    directory, a file without read permission) becomes `OsError`;
  - `ET.ParseError` becomes `XmlParseError`;
  - a `ValueError` from `int` or `float` becomes `InvalidInt` or
    `InvalidFloat`.

  The source builds a fresh record and assigns its fields step by step.
  Only that fresh object is touched, so a function that returns the record
  is faithful.
- **Files.** `group_files` takes the sizes as a parameter,
  `stat: P -> Option<nat>`. `None` stands for a `stat` call that raises
  `OSError`.

### Behaviour worth noting

- **The flash group is never absent.** A descriptor without an `exif:Flash`
  element keeps the default `FlashInfo()`, with every flag off and no modes.
- **Malformed numbers raise.** An integer or crop attribute whose text is not
  a numeral is not absorbed: `int()` or `float()` raises, and `parse` fails
  with that error. `ExtractDescriptor` states exactly when this happens.
- **Only one ISO rating and one creator are kept.** The ISO list and the
  creator list take the text of the first matching `li` only. The subject
  list keeps every non-empty text.

## Model

| member | source | states |
|---|---|---|
| `PyNumbers.ParseInt` | src/lrutility/XMPParser.py:122-124 | `int(s)` succeeds exactly on a run of ASCII digits with at most one leading sign (a lone sign is rejected), and reads it as its decimal value, negated after "-" |
| `PyNumbers.ParseIntFormatInt` | src/lrutility/XMPParser.py:143-145 | every integer written by `str` is read back by `int` as the same integer |
| `PyNumbers.ParseFloat` | src/lrutility/XMPParser.py:79-80 | `float("")` raises; an accepted text holds only digits, signs and points; a run of digits reads as its decimal value |
| `PyNumbers.ParseFloatAccepts` | src/lrutility/XMPParser.py:79-80 | `float` accepts exactly an optional sign followed by digits and at most one point, with at least one digit |
| `PyNumbers.ParseFloatDecimal` | src/lrutility/XMPParser.py:79-80 | "±w.f" reads as the whole digits plus the fraction digits taken as tenths, hundredths and so on, negated after "-" |
| `PyNumbers.ParseFloatWhole` | src/lrutility/XMPParser.py:79-80 | "±w" without a point reads as the value of its digits, negated after "-" |
| `PyNumbers.ParseFloatPi` | src/lrutility/XMPParser.py:79 | `float("3.14") == 3.14` |
| `PyNumbers.ParseFloatFormatInt` | src/lrutility/XMPParser.py:79-80 | every integer numeral is read by `float` as that integer's value |
| `PyNumbers.Lower` | src/lrutility/XMPParser.py:277-280 | lower-casing keeps the length and lower-cases each ASCII letter in place |
| `PyNumbers.IsTrueTextIgnoresCase` | src/lrutility/XMPParser.py:277-280 | whether a flag text reads as true does not depend on its case |
| `PyDateTime.ParseIsoFormat` | src/lrutility/XMPParser.py:58 | every value `fromisoformat` accepts is a valid `datetime`: month, day of that month, hour, minute, second, microsecond and offset in range |
| `PyDateTime.ParseIsoFormatRoundTrip` | src/lrutility/XMPParser.py:58 | `fromisoformat(isoformat(dt)) == dt` for every valid `dt`, naive or aware, with or without microseconds |
| `PyDateTime.ParseDateFormatDate` | src/lrutility/XMPParser.py:58 | the date part `isoformat` writes reads back as the same year, month and day |
| `PyDateTime.ParseClockFormatClock` | src/lrutility/XMPParser.py:58 | the time part `isoformat` writes, with or without microseconds, reads back as the same clock |
| `PyDateTime.ParseZoneFormatZone` | src/lrutility/XMPParser.py:58 | the offset `isoformat` writes (none, or `±HH:MM`) reads back as the same offset |
| `XmpDataclass.DefaultMetadata` | src/lrutility/xmp/XMPDataclass.py:5-217 | the default record is unrated and unpicked; it has no history, a flash group with every flag off, and a full, uncropped frame; crop constraints are 0 and 1 |
| `XmpParser.PrefixNameInjective` | src/lrutility/XMPParser.py:26-41 | distinct prefixes of the namespace table have distinct names |
| `XmpParser.NamespaceUriInjective` | src/lrutility/XMPParser.py:26-41 | distinct prefixes are bound to distinct URIs, so a URI names exactly one prefix |
| `XmpParser.ClarkNameParts` | src/lrutility/XMPParser.py:111 | a key `{uri}local` holds "{", the prefix's URI, "}" and the local name's spelling, each at a fixed position |
| `XmpParser.ClarkNameDeterminesPrefix` | src/lrutility/XMPParser.py:111 | for one local name, the keys of two prefixes are equal only when the prefixes are |
| `XmpParser.ClarkNameDeterminesSpelling` | src/lrutility/XMPParser.py:111 | for one prefix, equal keys spell the same local name |
| `XmpParser.ReplaceZ` | src/lrutility/XMPParser.py:58 | after `replace("Z", "+00:00")` no "Z" is left, and a text without "Z" is unchanged |
| `XmpParser.ReplaceZChar` | src/lrutility/XMPParser.py:58 | a single "Z" becomes "+00:00" and any other character stays as it is |
| `XmpParser.ReplaceZAppend` | src/lrutility/XMPParser.py:58 | replacing in two texts laid end to end is replacing in each, so every character is replaced on its own |
| `XmpParser.ReplaceZSuffix` | src/lrutility/XMPParser.py:58 | a trailing "Z" on a text without other "Z"s becomes "+00:00" and nothing else changes |
| `XmpParser.ParseDatetime` | src/lrutility/XMPParser.py:53-60 | `None` and `""` give `None`; any result is a valid `datetime`; a text without "Z" is read exactly as `fromisoformat` reads it; a text it cannot read gives `None`, never an error |
| `XmpParser.ParseDatetimeUtcSuffix` | src/lrutility/XMPParser.py:56-58 | a timestamp ending in "Z" reads as the same date and time at UTC offset zero |
| `XmpParser.ParseDatetimeRoundTrip` | src/lrutility/XMPParser.py:53-60 | every timestamp `isoformat` writes is read back unchanged |
| `XmpParser.ParseDatetimeWord` | src/lrutility/XMPParser.py:56-60 | "invalid" gives `None` |
| `XmpParser.Split` | src/lrutility/XMPParser.py:77 | `split("/")` gives one more piece than there are slashes, and no piece holds a slash |
| `XmpParser.SplitPair` | src/lrutility/XMPParser.py:77 | two slash-free pieces joined by one slash split back into exactly those two pieces |
| `XmpParser.Divide` | src/lrutility/XMPParser.py:77-78 | the two-name unpack and the division succeed exactly when there are two pieces, both numbers, with a non-zero denominator; the result is their quotient |
| `XmpParser.ParseFraction` | src/lrutility/XMPParser.py:72-81 | `None` and `""` give `None`; a text without a slash is read by `float`; two or more slashes give `None` |
| `XmpParser.ParseFractionOneSlash` | src/lrutility/XMPParser.py:76-78 | any text with exactly one slash, "N/D", is `float(N) / float(D)`, and `None` when either side is not a number or D is zero |
| `XmpParser.ParseFractionOfIntegers` | src/lrutility/XMPParser.py:76-78 | "p/q" is p divided by q, or `None` when q is zero |
| `XmpParser.ParseFractionWord` | src/lrutility/XMPParser.py:79-81 | "invalid" gives `None` |
| `XmpParser.ParseFractionHalf` | src/lrutility/XMPParser.py:76-78 | "1/2" gives 0.5 |
| `XmpParser.ParseFractionPi` | src/lrutility/XMPParser.py:79 | "3.14", with no slash, gives 3.14 |
| `XmpParser.ParseFractionNotNumeric` | src/lrutility/XMPParser.py:79-81 | a non-empty text with no slash whose first character cannot start a number gives `None` |
| `XmpParser.Get` | src/lrutility/XMPParser.py:111 | `element.get(key)` is present exactly when the attribute is, with its text |
| `XmpParser.IntAttr` | src/lrutility/XMPParser.py:143-151 | the default only when the attribute is absent; otherwise `int` of its text, and it fails with that text exactly when the text is not a numeral (an empty text included) |
| `XmpParser.OptionalIntAttr` | src/lrutility/XMPParser.py:159-163 | unset exactly when the attribute is absent or empty; otherwise `int` of its text, or that text's error |
| `XmpParser.FloatAttr` | src/lrutility/XMPParser.py:330-344 | the default only when the attribute is absent; otherwise `float` of its text, or that text's error |
| `XmpParser.FlagAttr` | src/lrutility/XMPParser.py:277-280 | true exactly when the attribute is present and its text is "true" in any case |
| `XmpParser.OptionalFlagAttr` | src/lrutility/XMPParser.py:435-438 | unset exactly when the attribute is absent or empty, and otherwise whether it reads as true |
| `XmpParser.FirstIntItem` | src/lrutility/XMPParser.py:268-272 | the ISO list is left unset when there is no `li` or its text is empty; otherwise it is `[int(text)]`, or that text's error |
| `XmpParser.FirstTextItem` | src/lrutility/XMPParser.py:420-422 | the creator list is left unset when there is no `li` or its text is empty, and is otherwise the one-element list of that text |
| `XmpParser.NonEmptyTexts` | src/lrutility/XMPParser.py:424-430 | the kept subject texts are exactly the non-empty ones, each as often as it occurs |
| `XmpParser.NonEmptyTextsAppend` | src/lrutility/XMPParser.py:428-430 | the kept texts keep their document order |
| `XmpParser.BasicInfoOf` | src/lrutility/XMPParser.py:110-127 | the rating is unset exactly when the attribute is absent or empty, and otherwise `int` of its text; the group fails exactly when that text is not a numeral; the creator tool and label are the attribute texts, and the three dates are what `parse_datetime` makes of theirs |
| `XmpParser.DocumentInfoOf` | src/lrutility/XMPParser.py:129-138 | the four identifiers are the attribute texts, and the document group never carries a history |
| `XmpParser.TiffInfoOf` | src/lrutility/XMPParser.py:140-164 | orientation defaults to 1, width and length to 0, each otherwise `int` of its text; the resolution unit is unset when absent or empty and otherwise `int` of its text; make and model are the texts and the resolutions are `parse_fraction` of theirs; the group fails exactly when orientation, width or length, or a non-empty resolution unit, is not a numeral |
| `XmpParser.ExifInfoOf` | src/lrutility/XMPParser.py:166-266 | exposure program, white balance and scene type are always set; the ISO list is left for later; the group fails exactly when one of the eighteen integer attributes is not a numeral |
| `XmpParser.ExifIntFields` | src/lrutility/XMPParser.py:177-257 | each of the eighteen exif integers is 0 when its attribute is absent, and otherwise `int` of its text |
| `XmpParser.ExifOtherFields` | src/lrutility/XMPParser.py:167-266 | the ten ratios are `parse_fraction` of their texts, the two dates `parse_datetime` of theirs, and the exposure time and version are the texts themselves |
| `XmpParser.FlashInfoOf` | src/lrutility/XMPParser.py:274-293 | the three flags are true exactly when present and "true" in any case; return and mode default to 0 and are otherwise `int` of their texts; the group fails exactly when `Return` or `Mode` is not a numeral |
| `XmpParser.LensInfoOf` | src/lrutility/XMPParser.py:295-306 | the five lens fields are the attribute texts, the lens model from the `exifEX` namespace and the others from `aux` |
| `XmpParser.PhotoshopInfoOf` | src/lrutility/XMPParser.py:308-327 | the colour mode is unset exactly when the attribute is absent or empty, and otherwise `int` of its text; the group fails exactly when it is not a numeral; the creation date is `parse_datetime` of its text and the other three fields are the texts |
| `XmpParser.CameraRawSettingsOf` | src/lrutility/XMPParser.py:329-409 | without crop attributes the frame is full and uncropped; `hasCrop` reads the flag; the raw file name is the attribute text; the group fails exactly when a crop number or a develop setting cannot be read |
| `XmpParser.CameraRawCropFields` | src/lrutility/XMPParser.py:330-360 | each crop number is its default (0, 0, 1, 1 and 0) when absent and otherwise `float` of its text; the two constraints default to 0 and 1 and are otherwise `int` of their texts; `alreadyApplied` reads the flag |
| `XmpParser.CameraRawDevelopFields` | src/lrutility/XMPParser.py:375-408 | each of the eight develop settings is unset when absent or empty, and otherwise `int` of its text |
| `XmpParser.CameraRawOtherFields` | src/lrutility/XMPParser.py:362-374 | profile and look come from the `crd` namespace, the two versions are the texts, and the exposure is `parse_fraction` of its text |
| `XmpParser.DublinCoreInfoOf` | src/lrutility/XMPParser.py:412-417 | format, title, description and rights are the attribute texts; the creator and subject lists are left for later |
| `XmpParser.DynamicMediaInfoOf` | src/lrutility/XMPParser.py:432-440 | pick defaults to 0 and is otherwise `int` of its text; `good` is unset exactly when absent or empty, and otherwise whether it reads as true; the scene is the text; the group fails exactly when pick is not a numeral |
| `XmpParser.ExtractDescriptor` | src/lrutility/XMPParser.py:109-442 | succeeds exactly when every text converted by `int` or `float` is a numeral, and otherwise fails with a `ValueError`; the basic and camera-raw groups are those their rules compute; the full field list follows this table |
| `XmpParser.ExtractDescriptorGroups` | src/lrutility/XMPParser.py:129-440 | in a successful result, the ISO list, the tiff, exif, flash (when the element exists), lens, photoshop and dynamic-media groups, and the Dublin Core texts are exactly what their group rules compute |
| `XmpParser.RatingAndRawFileName` | src/lrutility/XMPParser.py:122-124 | a parsable sidecar with rating "1" has rating 1; one without a rating is unrated; the raw file name is the attribute text |
| `XmpParser.Parse` | src/lrutility/XMPParser.py:83-107 | a missing file, and only a missing file, raises `FileNotFoundError` with message "XMP file not found: <path>"; an unreadable path, and only that, raises `OSError`; a malformed document, and only that, raises the XML error; a document without `rdf:Description` gives the default record, and one with it gives what `ExtractDescriptor` makes of it; no result carries a history |
| `ZipChunker.Kept` | src/lrutility/cli/zip_chunker.py:20-25 | every kept file has a readable size |
| `ZipChunker.KeptMembers` | src/lrutility/cli/zip_chunker.py:20-25 | the kept files are exactly the listed files whose `stat` succeeds |
| `ZipChunker.KeptAppend` | src/lrutility/cli/zip_chunker.py:20-25 | the kept files of two lists laid end to end are the kept files of each, in order |
| `ZipChunker.GroupFiles` | src/lrutility/cli/zip_chunker.py:10-35 | the groups are non-empty and, laid end to end, are the files with a readable size in order; groups of two or more fit; each closed group overflows with the next group's first file |
| `ZipChunker.ProgressAppend` | src/lrutility/cli/zip_chunker.py:31-32 | adding a file that fits (or that starts the first group) keeps the loop state |
| `ZipChunker.ProgressClose` | src/lrutility/cli/zip_chunker.py:27-32 | closing the open group on overflow and starting a new one with the file keeps the loop state |
| `ZipChunker.StepSkip` | src/lrutility/cli/zip_chunker.py:21-25 | a file whose `stat` fails leaves the groups, the open group and its running size as they were |
| `ZipChunker.StepClose` | src/lrutility/cli/zip_chunker.py:27-32 | a file that would overflow a non-empty open group closes it and opens a new group holding only that file |
| `ZipChunker.StepAppend` | src/lrutility/cli/zip_chunker.py:27-32 | a file that fits, or the first file, joins the open group and adds its size |
| `ZipChunker.ProgressFinish` | src/lrutility/cli/zip_chunker.py:33-35 | appending the last open group, if non-empty, completes a greedy grouping of the kept files |
| `ZipChunker.GreedyShapeSnoc` | src/lrutility/cli/zip_chunker.py:27-34 | appending a non-empty group that fits and was closed by an overflow keeps the greedy shape |
| `ZipChunker.ClosedGroupOverflows` | src/lrutility/cli/zip_chunker.py:27 | a group that runs past a file which would have overflowed it is itself over the maximum |
| `ZipChunker.GreedyGroupingTail` | src/lrutility/cli/zip_chunker.py:27-34 | what follows the first group is itself a greedy grouping of the remaining files |
| `ZipChunker.NoItemsNoGroups` | src/lrutility/cli/zip_chunker.py:17-35 | no files give no groups |
| `ZipChunker.FirstGroupUnique` | src/lrutility/cli/zip_chunker.py:27-30 | two greedy groupings of the same files have first groups of the same length |
| `ZipChunker.GreedyGroupingUnique` | src/lrutility/cli/zip_chunker.py:10-35 | two greedy groupings of the same files are equal, so the greedy rule fixes the output |
| `ZipChunker.TotalAtLeastMember` | src/lrutility/cli/zip_chunker.py:32 | a file's size never exceeds the total of its group |
| `ZipChunker.OversizedFileIsAlone` | src/lrutility/cli/zip_chunker.py:27-32 | a file larger than the maximum is a group of its own and is never split |
| `ZipChunker.NoKeptFilesNoGroups` | src/lrutility/cli/zip_chunker.py:17-35 | an empty list, or a list where every `stat` fails, gives `[]` |
| `ZipChunker.ThreeFivesInTens` | src/lrutility/cli/zip_chunker.py:27-32 | sizes 5, 5 and 5 with a maximum of 10 give `[[f1, f2], [f3]]` |

`XmpParser.ExtractDescriptor` states that:

- it succeeds exactly when the descriptor is `Coercible`, that is, when every
  text it converts with `int` or `float` is a numeral;
- every failure is a `ValueError`;
- the basic and camera-raw groups are those the group rules compute, and
  `ExtractDescriptorGroups` adds the same for the other groups;
- without a flash element the flash group is the default;
- the history is empty;
- the creator list is the first `li` text;
- the subject list is unset exactly when there are no subject items, and is
  otherwise their non-empty texts;
- the ISO list is unset exactly when there is no `li` or its text is empty.

`ZipChunker.GroupFiles` returns the greedy grouping of the files whose size
can be read:

- the groups are non-empty and, laid end to end, give those files in order;
- a group of two or more files fits within the maximum;
- each group was closed because the next group's first file would have
  overflowed it.

`GreedyGroupingUnique` shows that exactly one grouping has this shape.

## Left out

- XML parsing and XPath (`ET.parse`, `getroot`, `find`, `findall`) are a foreign library. A descriptor node is given as its attribute map, the attribute map of its first `exif:Flash` element, and the texts of the `li` elements the three searches find. Whether the file exists, whether it can be read and whether it is well formed are likewise inputs.
- `XmpParser.ClarkNameDeterminesPrefix`, `XmpParser.ClarkNameDeterminesSpelling`: distinct keys are proved for a change of prefix and for a change of local name separately, not for both at once. That needs that no URI contains "}" and that the ninety-four spellings are pairwise distinct, and comparing that many literal strings is too costly for the solver. The model keys attributes by (prefix, local name) pairs and so takes them as distinct.
- `PyNumbers.ParseInt`: models `int` numerals as an optional sign and ASCII digits. Surrounding whitespace, `_` separators and non-ASCII digits, which `int` accepts, are not modelled, and neither is the limit on integer string length.
- `PyNumbers.ParseFloat`: models `float` numerals as an optional sign, ASCII digits and at most one decimal point. Surrounding whitespace, `_` separators, non-ASCII digits, exponents and `inf`/`nan`, which `float` accepts, are not modelled. Floats are exact reals, without IEEE 754 rounding.
- `PyNumbers.Lower` lower-cases ASCII letters only, unlike Python's full Unicode `str.lower()`.
- `PyDateTime.ParseIsoFormat` covers only the forms XMP uses: `YYYY-MM-DD`, optionally followed by a separator and `HH:MM[:SS[.f{1,6}]]` and an offset `±HH:MM` whose minutes are below 60. `fromisoformat` (Python 3.11 and later) accepts more, and these forms are not modelled: a fraction of more than six digits (the extra digits are dropped), a comma as the decimal mark, an hour-only time `HH`, offset minutes of 60 or more (only the whole offset must stay under 24 hours), week dates, ordinal dates, compact forms, offsets with seconds and time zone names. Such a text gives `None` in the model where Python gives a `datetime`.
- `XmpParser.ParseFraction`: of the literal cases "1/2", "100/10", "42" and "3.14", only "1/2" and "3.14" are evaluated one by one. "100/10" and "42" are covered for all integers by `ParseFractionOfIntegers` and `ParseFloatFormatInt`, and every one-slash text by `ParseFractionOneSlash`.
- `XmpParser.ParseDatetimeUtcSuffix` covers the test timestamp "2024-01-01T12:00:00Z" in general form; the literal itself is not evaluated.
- `XmpParser.DocumentInfoOf`: `history` is never filled by `parse`, so it is always the default empty list.
- `XmpParser.Parse`: the path in the not-found message is taken as given; the normalisation `Path(file_path)` applies to its text is not modelled.
- The `loguru` logging calls, `configure_loguru` and the `__main__` demonstration block of the extractor are I/O.
- The deletion scripts (`delete_rate_1` in its several copies) are filesystem I/O around a `rating == 1` test; the CLI wiring in `cli.py` is Typer plumbing.
- The archive side of the chunker (`zip_chunker`, `zip_chunker_cli`: directory listing, sorting, `stat`, zip writing, argparse) is I/O; only `group_files` is modelled.
- `XMPMetadata.__repr__` is string formatting only.
