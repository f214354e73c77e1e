/** The operations of MiscApi (stirling_pdf_client/misc.py) whose checks and
    forms are modelled. Each builds its `data` form, runs the single-file
    pattern of the Transfer module and returns the response text. */
module MiscOps {
  import opened Common
  import opened Http
  import opened Disk
  import opened Transfer

  const ONE_OF_MSG := "file_input and file_id must be provided one of"
  /** What `open(None, "rb")` raises. */
  const OPEN_NONE_MSG := "expected str, bytes or os.PathLike object, not NoneType"
  const SCANNER_DICT_MSG := "'dict' object has no attribute 'border'"
  const STAMP_NONE_MSG := "'NoneType' object has no attribute 'page_numbers'"

  const METADATA_URL := "/api/v1/misc/update-metadata"
  const UNLOCK_URL := "/api/v1/misc/unlock-pdf-forms"
  const SCANNER_URL := "/api/v1/misc/scanner-effect"
  const INVERT_URL := "/api/v1/misc/replace-invert-pdf"
  const REPAIR_URL := "/api/v1/misc/repair"
  const EXTRACT_URL := "/api/v1/misc/extract-image-scans"
  const COMPRESS_URL := "/api/v1/misc/compress-pdf"
  const STAMP_URL := "/api/v1/misc/add-stamp"
  const ATTACHMENTS_URL := "/api/v1/misc/add-attachments"

  // ---------------------------------------------------------------------------
  // update_metadata

  /** UpdateMetadataOptions; every field is passed through as given. */
  datatype MetadataOptions = MetadataOptions(
    author: Value, creationDate: Value, creator: Value, keywords: Value,
    modificationDate: Value, producer: Value, subject: Value, title: Value,
    trapped: Value, allRequestParams: Value)

  const METADATA_KEYS: set<string> := {"author", "creationDate", "creator", "keywords",
    "modificationDate", "producer", "subject", "title", "trapped", "allRequestParams"}

  /** The dictionary given to `data.update` when options are present. */
  function MetadataFields(o: MetadataOptions): (d: map<string, Value>)
    ensures d.Keys == METADATA_KEYS
  {
    map["author" := o.author, "creationDate" := o.creationDate, "creator" := o.creator,
        "keywords" := o.keywords, "modificationDate" := o.modificationDate,
        "producer" := o.producer, "subject" := o.subject, "title" := o.title,
        "trapped" := o.trapped, "allRequestParams" := o.allRequestParams]
  }

  /** The form `update_metadata` sends. */
  function MetadataData(fileId: Option<string>, deleteAll: Value, options: Option<MetadataOptions>)
    : map<string, Value>
  {
    var base := map["fileId" := OptStr(fileId), "deleteAll" := deleteAll];
    if options.Some? then base + MetadataFields(options.value) else base
  }

  /** Without options the form holds exactly `fileId` and `deleteAll`; with
      options exactly the ten metadata keys besides, and the two base fields
      keep their values either way. */
  lemma MetadataKeys(fileId: Option<string>, deleteAll: Value, options: Option<MetadataOptions>)
    ensures var d := MetadataData(fileId, deleteAll, options);
            d.Keys == (if options.None? then {"fileId", "deleteAll"} else {"fileId", "deleteAll"} + METADATA_KEYS)
            && d["fileId"] == OptStr(fileId) && d["deleteAll"] == deleteAll
  {
    assert "fileId" !in METADATA_KEYS && "deleteAll" !in METADATA_KEYS;
  }

  /** Each metadata field is sent under its own key. */
  lemma MetadataValues(fileId: Option<string>, deleteAll: Value, o: MetadataOptions)
    ensures var d := MetadataData(fileId, deleteAll, Some(o));
            d["author"] == o.author && d["creationDate"] == o.creationDate
            && d["creator"] == o.creator && d["keywords"] == o.keywords
            && d["modificationDate"] == o.modificationDate && d["producer"] == o.producer
            && d["subject"] == o.subject && d["title"] == o.title
            && d["trapped"] == o.trapped && d["allRequestParams"] == o.allRequestParams
  {
  }

  // ---------------------------------------------------------------------------
  // compress_pdf

  /** `f"{expected_output_size}kb"`; `None` formats as "None". */
  function SizeString(n: Option<int>): (s: string)
    ensures |s| >= 3 && s[|s| - 2..] == "kb"
  {
    match n
    case None => "Nonekb"
    case Some(k) => IntToString(k) + "kb"
  }

  /** The number can be read back from the size text, so distinct sizes give
      distinct texts. */
  lemma SizeStringRoundTrip(k: int)
    ensures var s := SizeString(Some(k)); ParseInt(s[..|s| - 2]) == Some(k)
  {
    var s := SizeString(Some(k));
    assert s[..|s| - 2] == IntToString(k);
    IntToStringRoundTrip(k);
  }

  /** The default size 25 is sent as "25kb". */
  lemma DefaultSize()
    ensures SizeString(Some(25)) == "25kb"
  {
    assert NatToString(2) == "2";
    assert NatToString(25) == NatToString(2) + [DigitChar(5)];
  }

  function CompressData(fileId: Option<string>, optimizeLevel: Value, expectedOutputSize: Option<int>,
                        linearize: Value, normalize: Value, grayscale: Value): (d: map<string, Value>)
    ensures d.Keys == {"fileId", "optimizeLevel", "expectedOutputSize", "linearize", "normalize", "grayscale"}
    ensures d["expectedOutputSize"] == VStr(SizeString(expectedOutputSize))
  {
    map["fileId" := OptStr(fileId), "optimizeLevel" := optimizeLevel,
        "expectedOutputSize" := VStr(SizeString(expectedOutputSize)),
        "linearize" := linearize, "normalize" := normalize, "grayscale" := grayscale]
  }

  // ---------------------------------------------------------------------------
  // scanner_effect

  /** ScannerEffectOption; every field is passed through as given. */
  datatype ScannerEffectOption = ScannerEffectOption(
    border: Value, rotate: Value, rotateVariance: Value, brightness: Value, contrast: Value,
    blur: Value, noise: Value, yellowish: Value, resolution: Value, advancedEnabled: Value,
    qualityValue: Value, rotationValue: Value)

  /** What a caller can pass as `options`: None, a plain dict (the declared
      default is one), or a ScannerEffectOption. */
  datatype ScannerArg = NoScannerOptions | ScannerDict(entries: map<string, Value>) | ScannerObject(o: ScannerEffectOption)

  /** The default `options` as declared: a dict literal. */
  const SCANNER_DEFAULT_AS_WRITTEN := ScannerDict(map[
    "border" := VInt(20), "rotate" := VInt(0), "rotate_variance" := VInt(0),
    "brightness" := VInt(1), "contrast" := VInt(1), "blur" := VInt(1), "noise" := VInt(8),
    "yellowish" := VBool(false), "resolution" := VInt(300), "advanced_enabled" := VBool(false),
    "quality_value" := VInt(0), "rotation_value" := VInt(0)])

  /** The same defaults as the ScannerEffectOption dataclass declares them. */
  const SCANNER_DEFAULT := ScannerObject(ScannerEffectOption(
    VInt(20), VInt(0), VInt(0), VInt(1), VInt(1), VInt(1), VInt(8),
    VBool(false), VInt(300), VBool(false), VInt(0), VInt(0)))

  const SCANNER_KEYS: set<string> := {"quality", "rotation", "border", "rotate", "rotate_variance",
    "brightness", "contrast", "blur", "noise", "yellowish", "resolution", "advanced_enabled",
    "quality_value", "rotation_value"}

  /** `if options:` is false for None and an empty dict; reading
      `options.border` of a non-empty dict raises AttributeError. */
  function ScannerData(quality: string, rotation: string, options: ScannerArg): (r: Result<map<string, Value>>)
    ensures r.Err? <==> options.ScannerDict? && options.entries != map[]
    ensures r.Err? ==> r.error == AttributeError(SCANNER_DICT_MSG)
    ensures r.Ok? ==> "quality" in r.value && r.value["quality"] == VStr(quality)
                      && "rotation" in r.value && r.value["rotation"] == VStr(rotation)
    ensures r.Ok? && options.ScannerObject? ==> r.value.Keys == SCANNER_KEYS
    ensures r.Ok? && !options.ScannerObject? ==> r.value.Keys == {"quality", "rotation"}
  {
    var base := map["quality" := VStr(quality), "rotation" := VStr(rotation)];
    match options
    case NoScannerOptions => Ok(base)
    case ScannerDict(entries) => if entries == map[] then Ok(base) else Err(AttributeError(SCANNER_DICT_MSG))
    case ScannerObject(o) =>
      Ok(base + map["border" := o.border, "rotate" := o.rotate, "rotate_variance" := o.rotateVariance,
                    "brightness" := o.brightness, "contrast" := o.contrast, "blur" := o.blur,
                    "noise" := o.noise, "yellowish" := o.yellowish, "resolution" := o.resolution,
                    "advanced_enabled" := o.advancedEnabled, "quality_value" := o.qualityValue,
                    "rotation_value" := o.rotationValue])
  }

  /** `scanner_effect`: the input is opened before the form is built, so a
      failure building the form leaves it open and sends nothing. */
  function ScannerExchange(st: FsState, sent: seq<Request>, server: Request -> Response, fileInput: Path,
                           quality: string, rotation: string, options: ScannerArg, outPath: Path)
    : (FsState, seq<Request>, Result<Response>)
  {
    var (st1, u) := OpenOptional(st, Some(fileInput));
    match u
    case Err(e) => (st1, sent, Err(e))
    case Ok(upload) =>
      match ScannerData(quality, rotation, options)
      case Err(e) => (st1, sent, Err(e))
      case Ok(data) => SendSaveClose(st1, sent, server, SCANNER_URL, upload, data, outPath)
  }

  /** With its declared default `options`, `scanner_effect` never sends: it
      raises AttributeError with the input file left open. */
  lemma ScannerDefaultRaises(st: FsState, sent: seq<Request>, server: Request -> Response, p: Path,
                             quality: string, rotation: string, outPath: Path)
    requires WellFormed(st) && p in st.files
    ensures var (st', sent', r) := ScannerExchange(st, sent, server, p, quality, rotation,
                                                   SCANNER_DEFAULT_AS_WRITTEN, outPath);
            sent' == sent && r == Err(AttributeError(SCANNER_DICT_MSG))
            && st'.openIds == st.openIds + {st.nextId} && st.nextId !in st.openIds
  {
    var (st1, u) := OpenOptional(st, Some(p));
    assert st1.openIds == st.openIds + {st.nextId} && u.Ok?;
    assert "border" in SCANNER_DEFAULT_AS_WRITTEN.entries;
    assert ScannerData(quality, rotation, SCANNER_DEFAULT_AS_WRITTEN) == Err(AttributeError(SCANNER_DICT_MSG));
  }

  /** The dataclass defaults build the full form, the values the dict meant. */
  lemma ScannerDefaultCorrected(quality: string, rotation: string)
    ensures var r := ScannerData(quality, rotation, SCANNER_DEFAULT);
            r.Ok? && r.value.Keys == SCANNER_KEYS
            && forall k :: k in SCANNER_DEFAULT_AS_WRITTEN.entries ==>
                 k in r.value && r.value[k] == SCANNER_DEFAULT_AS_WRITTEN.entries[k]
  {
  }

  // ---------------------------------------------------------------------------
  // replace_invert_pdf and extract_image_scans

  /** ReplaceInvertPdfOptions. */
  datatype InvertOptions = InvertOptions(backGroundColor: Value, textColor: Value)

  function InvertData(fileId: Option<string>, option: string, combination: string,
                      options: Option<InvertOptions>): (d: map<string, Value>)
    ensures options.None? ==> d.Keys == {"fileId", "replaceAndInvertOption", "highContrastColorCombination"}
    ensures options.Some? ==> d.Keys == {"fileId", "replaceAndInvertOption", "highContrastColorCombination",
                                         "backGroundColor", "textColor"}
    ensures "fileId" in d && d["fileId"] == OptStr(fileId)
  {
    var base := map["fileId" := OptStr(fileId), "replaceAndInvertOption" := VStr(option),
                     "highContrastColorCombination" := VStr(combination)];
    if options.Some? then
      base + map["backGroundColor" := options.value.backGroundColor, "textColor" := options.value.textColor]
    else base
  }

  function ExtractData(angleThreshold: Value, tolerance: Value, minArea: Value, minContourArea: Value,
                       borderSize: Value): (d: map<string, Value>)
    ensures d.Keys == {"angleThreshold", "tolerance", "minArea", "minContourArea", "borderSize"}
  {
    map["angleThreshold" := angleThreshold, "tolerance" := tolerance, "minArea" := minArea,
        "minContourArea" := minContourArea, "borderSize" := borderSize]
  }

  /** Without the one-of check, a call with neither input nor id still sends
      its request, whatever then happens to the response: no file is attached
      and the id is sent as None. */
  lemma InvertWithoutInputSends(st: FsState, sent: seq<Request>, server: Request -> Response,
                                option: string, combination: string, options: Option<InvertOptions>,
                                outPath: Path)
    ensures var d := InvertData(None, option, combination, options);
            var sent' := SingleExchange(st, sent, server, INVERT_URL, None, d, outPath).1;
            |sent'| == |sent| + 1 && sent'[|sent|].files == FileMap(map["fileInput" := NoFile])
            && sent'[|sent|].data == d && d["fileId"] == VNone
  {
    NoInputStillSends(st, sent, server, INVERT_URL, InvertData(None, option, combination, options), outPath);
  }

  // ---------------------------------------------------------------------------
  // add_stamp

  /** StampOptions; fields only passed through are kept as values. */
  datatype StampOptions = StampOptions(
    pageNumbers: Value, stampType: Value, stampText: Value, stampImage: Option<Path>,
    alphabet: Value, fontSize: Value, rotation: Value, opacity: Value, overrideX: Value,
    overrideY: Value, position: Option<string>, customMargin: Value, customColor: Value)

  /** `StampOptions()`. */
  const DEFAULT_STAMP_OPTIONS := StampOptions(
    VStr("all"), VStr("text"), VNone, None, VStr("roman"), VInt(30), VInt(0), VReal(0.5),
    VInt(-1), VInt(-1), Some("middleCenter"), VStr("medium"), VStr("#d3d3d3"))

  /** POSITION_MAPPING: the nine positions numbered as on a numeric keypad. */
  function PositionNumber(position: string): Option<int>
  {
    match position
    case "bottomLeft" => Some(1)
    case "bottomCenter" => Some(2)
    case "bottomRight" => Some(3)
    case "middleLeft" => Some(4)
    case "middleCenter" => Some(5)
    case "middleRight" => Some(6)
    case "topLeft" => Some(7)
    case "topCenter" => Some(8)
    case "topRight" => Some(9)
    case _ => None
  }

  const ROWS := ["bottom", "middle", "top"]
  const COLUMNS := ["Left", "Center", "Right"]

  /** Keypad layout: row `i` (bottom, middle, top) and column `j` (left,
      center, right) is numbered `3 * i + j + 1`. */
  lemma PositionKeypad(i: nat, j: nat)
    requires i < 3 && j < 3
    ensures PositionNumber(ROWS[i] + COLUMNS[j]) == Some(3 * i + j + 1)
  {
    if i == 0 {
      if j == 0 { assert ROWS[i] + COLUMNS[j] == "bottomLeft"; }
      else if j == 1 { assert ROWS[i] + COLUMNS[j] == "bottomCenter"; }
      else { assert ROWS[i] + COLUMNS[j] == "bottomRight"; }
    } else if i == 1 {
      if j == 0 { assert ROWS[i] + COLUMNS[j] == "middleLeft"; }
      else if j == 1 { assert ROWS[i] + COLUMNS[j] == "middleCenter"; }
      else { assert ROWS[i] + COLUMNS[j] == "middleRight"; }
    } else {
      if j == 0 { assert ROWS[i] + COLUMNS[j] == "topLeft"; }
      else if j == 1 { assert ROWS[i] + COLUMNS[j] == "topCenter"; }
      else { assert ROWS[i] + COLUMNS[j] == "topRight"; }
    }
  }

  /** The table is a bijection from the nine positions onto 1..9: every
      number it gives lies in 1..9, two names with the same number are the
      same name, and every number in 1..9 is given. */
  lemma PositionBijection(a: string, b: string, n: int)
    ensures PositionNumber(a).Some? ==> 1 <= PositionNumber(a).value <= 9
    ensures PositionNumber(a).Some? && PositionNumber(a) == PositionNumber(b) ==> a == b
    ensures 1 <= n <= 9 ==> PositionNumber(ROWS[(n - 1) / 3] + COLUMNS[(n - 1) % 3]) == Some(n)
  {
    if 1 <= n <= 9 {
      PositionKeypad((n - 1) / 3, (n - 1) % 3);
    }
  }

  /** The default position "middleCenter" is sent as 5. */
  lemma DefaultPosition()
    ensures DEFAULT_STAMP_OPTIONS.position == Some("middleCenter")
    ensures PositionNumber(DEFAULT_STAMP_OPTIONS.position.value) == Some(5)
  {
  }

  /** The fields `data.update` adds, once the stamp image is open and the
      position looked up. */
  function StampFields(o: StampOptions, image: Value, position: int): (d: map<string, Value>)
    ensures "fileId" !in d
    ensures "stampImage" in d && d["stampImage"] == image && "position" in d && d["position"] == VInt(position)
  {
    map["pageNumbers" := o.pageNumbers, "stampType" := o.stampType, "stampText" := o.stampText,
        "stampImage" := image, "alphabet" := o.alphabet, "position" := VInt(position),
        "customMargin" := o.customMargin, "customColor" := o.customColor, "rotation" := o.rotation,
        "fontSize" := o.fontSize, "override_x" := o.overrideX, "override_y" := o.overrideY,
        "opacity" := o.opacity]
  }

  /** `KeyError(options.position)`; a missing position is the key None. */
  function PositionKey(position: Option<string>): string
  {
    if position.Some? then position.value else "None"
  }

  /** Building the form of `add_stamp` on the filesystem, in evaluation order:
      reading the options, opening the stamp image, then the table lookup.
      The stamp image is never closed. */
  function StampForm(st: FsState, fileId: Option<string>, options: Option<StampOptions>)
    : (FsState, Result<map<string, Value>>)
  {
    match options
    case None => (st, Err(AttributeError(STAMP_NONE_MSG)))
    case Some(o) =>
      match o.stampImage
      case None => (st, Err(TypeError(OPEN_NONE_MSG)))
      case Some(p) =>
        var (st1, img) := OpenSpec(st, p);
        match img
        case Err(e) => (st1, Err(e))
        case Ok(h) =>
          var pos := if o.position.Some? then PositionNumber(o.position.value) else None;
          match pos
          case None => (st1, Err(KeyError(PositionKey(o.position))))
          case Some(n) => (st1, Ok(map["fileId" := OptStr(fileId)] + StampFields(o, VHandle(h), n)))
  }

  /** The same form where the stamp image is opened only when one is given,
      so that a text stamp needs no image. */
  function StampFormCorrected(st: FsState, fileId: Option<string>, options: Option<StampOptions>)
    : (FsState, Result<map<string, Value>>)
  {
    match options
    case None => (st, Err(AttributeError(STAMP_NONE_MSG)))
    case Some(o) =>
      var (st1, img) := match o.stampImage
                        case None => (st, Ok(VNone))
                        case Some(p) =>
                          var (st2, h) := OpenSpec(st, p);
                          (st2, if h.Ok? then Ok(VHandle(h.value)) else Err(h.error));
      match img
      case Err(e) => (st1, Err(e))
      case Ok(image) =>
        var pos := if o.position.Some? then PositionNumber(o.position.value) else None;
        match pos
        case None => (st1, Err(KeyError(PositionKey(o.position))))
        case Some(n) => (st1, Ok(map["fileId" := OptStr(fileId)] + StampFields(o, image, n)))
  }

  /** `add_stamp` once the input file is open: build the form, then the
      second half of the pattern. */
  function StampSend(st: FsState, sent: seq<Request>, server: Request -> Response, upload: Upload,
                     fileId: Option<string>, options: Option<StampOptions>, outPath: Path)
    : (FsState, seq<Request>, Result<Response>)
  {
    var (st1, form) := StampForm(st, fileId, options);
    match form
    case Err(e) => (st1, sent, Err(e))
    case Ok(data) => SendSaveClose(st1, sent, server, STAMP_URL, upload, data, outPath)
  }

  function StampExchange(st: FsState, sent: seq<Request>, server: Request -> Response,
                         fileInput: Option<Path>, fileId: Option<string>, options: Option<StampOptions>,
                         outPath: Path): (FsState, seq<Request>, Result<Response>)
  {
    match OneOf(fileInput, fileId, ONE_OF_MSG)
    case Fail(e) => (st, sent, Err(e))
    case Pass =>
      var (st1, u) := OpenOptional(st, fileInput);
      match u
      case Err(e) => (st1, sent, Err(e))
      case Ok(upload) => StampSend(st1, sent, server, upload, fileId, options, outPath)
  }

  /** With the default StampOptions `add_stamp` cannot send: the default has
      no stamp image, and `open(None)` raises TypeError after the input file
      was opened. */
  lemma StampDefaultRaises(st: FsState, sent: seq<Request>, server: Request -> Response, p: Path,
                           fileId: Option<string>, outPath: Path)
    requires WellFormed(st) && p in st.files
    ensures var (st', sent', r) := StampExchange(st, sent, server, Some(p), fileId,
                                                 Some(DEFAULT_STAMP_OPTIONS), outPath);
            sent' == sent && r == Err(TypeError(OPEN_NONE_MSG))
            && st'.openIds == st.openIds + {st.nextId} && st.nextId !in st.openIds
  {
    var (st1, u) := OpenOptional(st, Some(p));
    assert st1.openIds == st.openIds + {st.nextId} && u.Ok?;
    assert DEFAULT_STAMP_OPTIONS.stampImage.None?;
    assert StampForm(st1, fileId, Some(DEFAULT_STAMP_OPTIONS)) == (st1, Err(TypeError(OPEN_NONE_MSG)));
  }

  /** With the corrected form the default options build a complete form:
      no file is opened for it, no image is sent and the position is 5. */
  lemma StampDefaultCorrected(st: FsState, fileId: Option<string>)
    ensures var (st', form) := StampFormCorrected(st, fileId, Some(DEFAULT_STAMP_OPTIONS));
            st' == st && form.Ok? && form.value["stampImage"] == VNone
            && form.value["position"] == VInt(5) && form.value["fileId"] == OptStr(fileId)
  {
    DefaultPosition();
  }

  /** Where a stamp image is given the two forms agree. */
  lemma StampFormAgrees(st: FsState, fileId: Option<string>, o: StampOptions)
    requires o.stampImage.Some?
    ensures StampFormCorrected(st, fileId, Some(o)) == StampForm(st, fileId, Some(o))
  {
  }

  /** Building the stamp form opens one file, the stamp image. */
  lemma StampFormOpensImage(st: FsState, fileId: Option<string>, o: StampOptions)
    requires StampForm(st, fileId, Some(o)).1.Ok?
    ensures StampForm(st, fileId, Some(o)).0.openIds == st.openIds + {st.nextId}
    ensures StampForm(st, fileId, Some(o)).0.files == st.files
    ensures StampForm(st, fileId, Some(o)).0.nextId == st.nextId + 1
  {
  }

  /** Once the input is open, a completed `add_stamp` closes the input and
      leaves the stamp image open. */
  lemma StampSendOpenIds(st: FsState, sent: seq<Request>, server: Request -> Response, upload: Upload,
                         fileId: Option<string>, o: StampOptions, outPath: Path)
    requires upload.One? ==> upload.h.id < st.nextId
    requires StampSend(st, sent, server, upload, fileId, Some(o), outPath).2.Ok?
    ensures StampSend(st, sent, server, upload, fileId, Some(o), outPath).0.openIds
            == CloseOptional(st, upload).openIds + {st.nextId}
  {
    var (st1, form) := StampForm(st, fileId, Some(o));
    StampFormOpensImage(st, fileId, o);
    SendSaveCloseOpenIds(st1, sent, server, STAMP_URL, upload, form.value, outPath);
  }

  /** Whenever `add_stamp` gets past opening its input, the rest is
      `StampSend` from the state after the open. */
  lemma StampExchangeSends(st: FsState, sent: seq<Request>, server: Request -> Response,
                           fileInput: Option<Path>, fileId: Option<string>, options: Option<StampOptions>,
                           outPath: Path)
    requires StampExchange(st, sent, server, fileInput, fileId, options, outPath).2.Ok?
    ensures OpenOptional(st, fileInput).1.Ok?
    ensures var (st1, u) := OpenOptional(st, fileInput);
            StampExchange(st, sent, server, fileInput, fileId, options, outPath)
            == StampSend(st1, sent, server, u.value, fileId, options, outPath)
  {
  }

  /** A successful `add_stamp` leaves exactly one more file open: the stamp
      image, which the source never closes. */
  lemma StampLeaksImage(st: FsState, sent: seq<Request>, server: Request -> Response,
                        fileInput: Option<Path>, fileId: Option<string>, o: StampOptions, outPath: Path)
    requires WellFormed(st)
    requires StampExchange(st, sent, server, fileInput, fileId, Some(o), outPath).2.Ok?
    ensures var img := st.nextId + (if fileInput.Some? then 1 else 0);
            img !in st.openIds
            && StampExchange(st, sent, server, fileInput, fileId, Some(o), outPath).0.openIds
               == st.openIds + {img}
  {
    StampExchangeSends(st, sent, server, fileInput, fileId, Some(o), outPath);
    var (st1, u) := OpenOptional(st, fileInput);
    OpenOptionalShape(st, fileInput);
    CloseOptionalAfterOpen(st, fileInput);
    StampSendOpenIds(st1, sent, server, u.value, fileId, o, outPath);
  }

  // ---------------------------------------------------------------------------
  // add_attachments

  function AttachRequest(fileId: Option<string>, upload: Upload, hs: seq<Handle>): Request
  {
    Request("POST", ATTACHMENTS_URL, map[], map["fileId" := OptStr(fileId)],
            FileMap(map["fileInput" := upload, "attachments" := Many(hs)]))
  }

  /** `add_attachments`: open the input, open every attachment, send, close
      the attachments, save, close the input. */
  function AttachExchange(st: FsState, sent: seq<Request>, server: Request -> Response,
                          fileInput: Option<Path>, attachments: seq<Path>, fileId: Option<string>,
                          outPath: Path): (FsState, seq<Request>, Result<Response>)
  {
    match OneOf(fileInput, fileId, ONE_OF_MSG)
    case Fail(e) => (st, sent, Err(e))
    case Pass =>
      var (st1, u) := OpenOptional(st, fileInput);
      match u
      case Err(e) => (st1, sent, Err(e))
      case Ok(upload) => AttachSend(st1, sent, server, upload, attachments, fileId, outPath)
  }

  /** The rest of `add_attachments` once the input is open. */
  function AttachSend(st: FsState, sent: seq<Request>, server: Request -> Response, upload: Upload,
                      attachments: seq<Path>, fileId: Option<string>, outPath: Path)
    : (FsState, seq<Request>, Result<Response>)
  {
    var (st2, r) := OpenAll(st, attachments);
    match r
    case Err(e) => (st2, sent, Err(e))
    case Ok(hs) =>
      var req := AttachRequest(fileId, upload, hs);
      var resp := server(req);
      var (st3, o) := SaveSpec(CloseAll(st2, hs), resp, outPath);
      match o
      case Fail(e) => (st3, sent + [req], Err(e))
      case Pass => (CloseOptional(st3, upload), sent + [req], Ok(resp))
  }

  /** Whenever `add_attachments` sends its request, the argument check passed,
      the input opened, and the rest is `AttachSend` from there. */
  lemma AttachExchangeSends(st: FsState, sent: seq<Request>, server: Request -> Response,
                            fileInput: Option<Path>, attachments: seq<Path>, fileId: Option<string>,
                            outPath: Path)
    requires |AttachExchange(st, sent, server, fileInput, attachments, fileId, outPath).1| > |sent|
    ensures OpenOptional(st, fileInput).1.Ok?
    ensures var (st1, u) := OpenOptional(st, fileInput);
            AttachExchange(st, sent, server, fileInput, attachments, fileId, outPath)
            == AttachSend(st1, sent, server, u.value, attachments, fileId, outPath)
  {
  }

  /** Once the input is open, a sent request carries it and the handles the
      attachment loop opened; the attachments are closed whatever happens,
      the input only when saving succeeds. */
  lemma AttachSendHandles(st: FsState, sent: seq<Request>, server: Request -> Response, upload: Upload,
                          attachments: seq<Path>, fileId: Option<string>, outPath: Path)
    requires WellFormed(st)
    requires |AttachSend(st, sent, server, upload, attachments, fileId, outPath).1| > |sent|
    ensures OpenAll(st, attachments).1.Ok?
    ensures var (st', sent', r) := AttachSend(st, sent, server, upload, attachments, fileId, outPath);
            sent' == sent + [AttachRequest(fileId, upload, OpenAll(st, attachments).1.value)]
            && (r.Ok? ==> st'.openIds == CloseOptional(st, upload).openIds)
            && (r.Err? ==> st'.openIds == st.openIds)
  {
    var (st2, r) := OpenAll(st, attachments);
    CloseAllAfterOpenAll(st, attachments);
    var hs := r.value;
    var resp := server(AttachRequest(fileId, upload, hs));
    var (st3, o) := SaveSpec(CloseAll(st2, hs), resp, outPath);
    assert st3.openIds == CloseAll(st2, hs).openIds;
  }

  /** A request sent by `add_attachments` carries the input's handle, if any,
      and one handle per attachment, in order, with tokens following the
      input's. */
  lemma AttachOneHandleEach(st: FsState, sent: seq<Request>, server: Request -> Response,
                            fileInput: Option<Path>, attachments: seq<Path>, fileId: Option<string>,
                            outPath: Path)
    requires WellFormed(st)
    requires |AttachExchange(st, sent, server, fileInput, attachments, fileId, outPath).1| > |sent|
    ensures var sent' := AttachExchange(st, sent, server, fileInput, attachments, fileId, outPath).1;
            var b := st.nextId + (if fileInput.Some? then 1 else 0);
            |sent'| == |sent| + 1 && sent'[|sent|].files.FileMap?
            && "fileInput" in sent'[|sent|].files.entries
            && sent'[|sent|].files.entries["fileInput"]
               == (if fileInput.Some? then One(Handle(st.nextId, fileInput.value)) else NoFile)
            && "attachments" in sent'[|sent|].files.entries
            && var hs := sent'[|sent|].files.entries["attachments"];
            hs.Many? && |hs.hs| == |attachments|
            && (forall i :: 0 <= i < |attachments| ==> hs.hs[i] == Handle(b + i, attachments[i]))
  {
    AttachExchangeSends(st, sent, server, fileInput, attachments, fileId, outPath);
    var (st1, u) := OpenOptional(st, fileInput);
    OpenOptionalShape(st, fileInput);
    CloseOptionalAfterOpen(st, fileInput);
    AttachSendHandles(st1, sent, server, u.value, attachments, fileId, outPath);
    OpenAllHandles(st1, attachments);
  }

  /** Once its request is sent, `add_attachments` closes every attachment,
      even when saving the response fails; the input is closed only when
      saving succeeds, so a failed save leaves exactly the input open. */
  lemma AttachClosesAttachments(st: FsState, sent: seq<Request>, server: Request -> Response,
                                fileInput: Option<Path>, attachments: seq<Path>, fileId: Option<string>,
                                outPath: Path)
    requires WellFormed(st)
    requires |AttachExchange(st, sent, server, fileInput, attachments, fileId, outPath).1| > |sent|
    ensures var (st', _, r) := AttachExchange(st, sent, server, fileInput, attachments, fileId, outPath);
            (r.Ok? ==> st'.openIds == st.openIds)
            && (r.Err? ==> st'.openIds == st.openIds + (if fileInput.Some? then {st.nextId} else {}))
  {
    AttachExchangeSends(st, sent, server, fileInput, attachments, fileId, outPath);
    var (st1, u) := OpenOptional(st, fileInput);
    OpenOptionalShape(st, fileInput);
    CloseOptionalAfterOpen(st, fileInput);
    AttachSendHandles(st1, sent, server, u.value, attachments, fileId, outPath);
  }

  // ---------------------------------------------------------------------------
  // The API object

  class MiscApi {
    const client: HttpClient

    constructor (client: HttpClient)
      ensures this.client == client
    {
      this.client := client;
    }

    method UpdateMetadata(fs: FileSystem, outPath: Path, fileInput: Option<Path>, fileId: Option<string>,
                          deleteAll: Value, options: Option<MetadataOptions>) returns (r: Result<string>)
      modifies client`sent, fs
      ensures var (st, sent, x) := GuardedExchange(
                OneOf(fileInput, fileId, ONE_OF_MSG), old(fs.State()), old(client.sent), client.server,
                METADATA_URL, fileInput, MetadataData(fileId, deleteAll, options), outPath);
              fs.State() == st && client.sent == sent && r == TextOf(x)
    {
      if fileInput.None? && fileId.None? {
        return Err(ValueError(ONE_OF_MSG));
      }
      var data := map["fileId" := OptStr(fileId), "deleteAll" := deleteAll];
      if options.Some? {
        data := data + MetadataFields(options.value);
      }
      var x := SendSingle(client, fs, METADATA_URL, fileInput, data, outPath);
      r := TextOf(x);
    }

    method UnlockPdfForms(fs: FileSystem, outPath: Path, fileInput: Option<Path>, fileId: Option<string>)
      returns (r: Result<string>)
      modifies client`sent, fs
      ensures var (st, sent, x) := GuardedExchange(
                OneOf(fileInput, fileId, ONE_OF_MSG), old(fs.State()), old(client.sent), client.server,
                UNLOCK_URL, fileInput, map["fileId" := OptStr(fileId)], outPath);
              fs.State() == st && client.sent == sent && r == TextOf(x)
    {
      if fileInput.None? && fileId.None? {
        return Err(ValueError(ONE_OF_MSG));
      }
      var x := SendSingle(client, fs, UNLOCK_URL, fileInput, map["fileId" := OptStr(fileId)], outPath);
      r := TextOf(x);
    }

    method Repair(fs: FileSystem, outPath: Path, fileInput: Option<Path>, fileId: Option<string>)
      returns (r: Result<string>)
      modifies client`sent, fs
      ensures var (st, sent, x) := GuardedExchange(
                OneOf(fileInput, fileId, ONE_OF_MSG), old(fs.State()), old(client.sent), client.server,
                REPAIR_URL, fileInput, map["fileId" := OptStr(fileId)], outPath);
              fs.State() == st && client.sent == sent && r == TextOf(x)
    {
      if fileInput.None? && fileId.None? {
        return Err(ValueError(ONE_OF_MSG));
      }
      var x := SendSingle(client, fs, REPAIR_URL, fileInput, map["fileId" := OptStr(fileId)], outPath);
      r := TextOf(x);
    }

    method CompressPdf(fs: FileSystem, outPath: Path, fileInput: Option<Path>, fileId: Option<string>,
                       optimizeLevel: Value, expectedOutputSize: Option<int>, linearize: Value,
                       normalize: Value, grayscale: Value) returns (r: Result<string>)
      modifies client`sent, fs
      ensures var (st, sent, x) := GuardedExchange(
                OneOf(fileInput, fileId, ONE_OF_MSG), old(fs.State()), old(client.sent), client.server,
                COMPRESS_URL, fileInput,
                CompressData(fileId, optimizeLevel, expectedOutputSize, linearize, normalize, grayscale), outPath);
              fs.State() == st && client.sent == sent && r == TextOf(x)
    {
      if fileInput.None? && fileId.None? {
        return Err(ValueError(ONE_OF_MSG));
      }
      var data := CompressData(fileId, optimizeLevel, expectedOutputSize, linearize, normalize, grayscale);
      var x := SendSingle(client, fs, COMPRESS_URL, fileInput, data, outPath);
      r := TextOf(x);
    }

    /** No one-of check; the input path is required. */
    method ScannerEffect(fs: FileSystem, outPath: Path, fileInput: Path, quality: string, rotation: string,
                         options: ScannerArg) returns (r: Result<string>)
      modifies client`sent, fs
      ensures var (st, sent, x) := ScannerExchange(old(fs.State()), old(client.sent), client.server,
                                                   fileInput, quality, rotation, options, outPath);
              fs.State() == st && client.sent == sent && r == TextOf(x)
    {
      var u := OpenInput(fs, Some(fileInput));
      if u.Err? {
        return Err(u.error);
      }
      var data := ScannerData(quality, rotation, options);
      if data.Err? {
        return Err(data.error);
      }
      var x := Finish(client, fs, SCANNER_URL, u.value, data.value, outPath);
      r := TextOf(x);
    }

    /** No one-of check: with neither input nor id the request still goes out. */
    method ReplaceInvertPdf(fs: FileSystem, outPath: Path, fileInput: Option<Path>, fileId: Option<string>,
                            option: string, combination: string, options: Option<InvertOptions>)
      returns (r: Result<string>)
      modifies client`sent, fs
      ensures var (st, sent, x) := SingleExchange(old(fs.State()), old(client.sent), client.server,
                INVERT_URL, fileInput, InvertData(fileId, option, combination, options), outPath);
              fs.State() == st && client.sent == sent && r == TextOf(x)
    {
      var data := map["fileId" := OptStr(fileId), "replaceAndInvertOption" := VStr(option),
                       "highContrastColorCombination" := VStr(combination)];
      if options.Some? {
        data := data + map["backGroundColor" := options.value.backGroundColor,
                           "textColor" := options.value.textColor];
      }
      var x := SendSingle(client, fs, INVERT_URL, fileInput, data, outPath);
      r := TextOf(x);
    }

    /** No one-of check; the input path is required. */
    method ExtractImageScans(fs: FileSystem, outPath: Path, fileInput: Path, angleThreshold: Value,
                             tolerance: Value, minArea: Value, minContourArea: Value, borderSize: Value)
      returns (r: Result<string>)
      modifies client`sent, fs
      ensures var (st, sent, x) := SingleExchange(old(fs.State()), old(client.sent), client.server,
                EXTRACT_URL, Some(fileInput),
                ExtractData(angleThreshold, tolerance, minArea, minContourArea, borderSize), outPath);
              fs.State() == st && client.sent == sent && r == TextOf(x)
    {
      var data := ExtractData(angleThreshold, tolerance, minArea, minContourArea, borderSize);
      var x := SendSingle(client, fs, EXTRACT_URL, Some(fileInput), data, outPath);
      r := TextOf(x);
    }

    method AddStamp(fs: FileSystem, outPath: Path, fileInput: Option<Path>, fileId: Option<string>,
                    options: Option<StampOptions>) returns (r: Result<string>)
      modifies client`sent, fs
      ensures var (st, sent, x) := StampExchange(old(fs.State()), old(client.sent), client.server,
                                                 fileInput, fileId, options, outPath);
              fs.State() == st && client.sent == sent && r == TextOf(x)
    {
      if fileInput.None? && fileId.None? {
        return Err(ValueError(ONE_OF_MSG));
      }
      var u := OpenInput(fs, fileInput);
      if u.Err? {
        return Err(u.error);
      }
      var data := map["fileId" := OptStr(fileId)];
      if options.None? {
        return Err(AttributeError(STAMP_NONE_MSG));
      }
      var o := options.value;
      if o.stampImage.None? {
        return Err(TypeError(OPEN_NONE_MSG));
      }
      var image := fs.Open(o.stampImage.value);
      if image.Err? {
        return Err(image.error);
      }
      var pos := if o.position.Some? then PositionNumber(o.position.value) else None;
      if pos.None? {
        return Err(KeyError(PositionKey(o.position)));
      }
      data := data + StampFields(o, VHandle(image.value), pos.value);
      var x := Finish(client, fs, STAMP_URL, u.value, data, outPath);
      r := TextOf(x);
    }

    method AddAttachments(fs: FileSystem, outPath: Path, fileInput: Option<Path>, attachments: seq<Path>,
                          fileId: Option<string>) returns (r: Result<string>)
      modifies client`sent, fs
      ensures var (st, sent, x) := AttachExchange(old(fs.State()), old(client.sent), client.server,
                                                  fileInput, attachments, fileId, outPath);
              fs.State() == st && client.sent == sent && r == TextOf(x)
    {
      if fileInput.None? && fileId.None? {
        return Err(ValueError(ONE_OF_MSG));
      }
      var u := OpenInput(fs, fileInput);
      if u.Err? {
        return Err(u.error);
      }
      var attachmentsFiles := OpenEach(fs, attachments);
      if attachmentsFiles.Err? {
        return Err(attachmentsFiles.error);
      }
      var resp := client.Send(AttachRequest(fileId, u.value, attachmentsFiles.value));
      CloseEach(fs, attachmentsFiles.value);
      var saved := SaveFile(fs, resp, outPath);
      if saved.Fail? {
        return Err(saved.error);
      }
      if u.value.One? {
        fs.Close(u.value.h);
      }
      r := Ok(resp.text);
    }
  }
}
