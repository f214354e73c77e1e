/** The conversion operations of ConvertApi (stirling_pdf_client/convert.py)
    whose argument checks and form fields are modelled: each validates its
    arguments, then runs the single-file pattern of the Transfer module and
    returns the status code; `img_to_pdf` uploads a list of images. */
module ConvertOps {
  import opened Common
  import opened Http
  import opened Disk
  import opened Transfer

  const ONE_OF_MSG := "file_input and fileId must be provided one of"
  const WORD_FORMAT_MSG := "output_format must be either 'doc' or 'docx'"
  const PRESENTATION_FORMAT_MSG := "output_format must be either 'ppt' or 'pptx'"
  const PDFA_FORMAT_MSG := "output_format must be either 'pdfa' or 'pdfa-1'"
  /** What `open(None, "rb")` raises. */
  const OPEN_NONE_MSG := "expected str, bytes or os.PathLike object, not NoneType"

  const WORD_FORMATS := ["doc", "docx"]
  const PRESENTATION_FORMATS := ["ppt", "pptx"]
  const PDFA_FORMATS := ["pdfa", "pdfa-1"]

  /** The declared default `output_format` of pdf_to_word, pdf_to_presentation
      and pdf_to_pdfa. */
  const WORD_DEFAULT_FORMAT := "doc"
  const PRESENTATION_DEFAULT_FORMAT := "ppt"
  const PDFA_DEFAULT_FORMAT := "pdfa"

  const WORD_URL := "/api/v1/convert/pdf/word"
  const TEXT_URL := "/api/v1/convert/pdf/text"
  const PRESENTATION_URL := "/api/v1/convert/pdf/presentation"
  const PDFA_URL := "/api/v1/convert/pdf/pdfa"
  const MARKDOWN_URL := "/api/v1/convert/pdf/markdown"
  const PDF_IMG_URL := "/api/v1/convert/pdf/img"
  const IMG_URL := "/api/v1/convert/img/pdf"
  /** `html_to_pdf` and `eml_to_pdf` both post to this path. */
  const HTML_URL := "/api/v1/convert/pdf/html"

  /** `output_format not in [...]` first, then the one-of check. */
  function FormatThenOneOf(format: Option<string>, allowed: seq<string>, formatMsg: string,
                           fileInput: Option<Path>, fileId: Option<string>): (o: Outcome)
    ensures o.Pass? <==> format.Some? && format.value in allowed && (fileInput.Some? || fileId.Some?)
    ensures !(format.Some? && format.value in allowed) ==> o == Fail(ValueError(formatMsg))
    ensures format.Some? && format.value in allowed && fileInput.None? && fileId.None? ==>
              o == Fail(ValueError(ONE_OF_MSG))
  {
    if !(format.Some? && format.value in allowed) then Fail(ValueError(formatMsg))
    else OneOf(fileInput, fileId, ONE_OF_MSG)
  }

  /** `html_to_pdf`: the one-of check, then `open(file_input)` on a missing path. */
  function HtmlCheck(fileInput: Option<Path>, fileId: Option<string>): (o: Outcome)
    ensures o.Pass? <==> fileInput.Some?
    ensures fileInput.None? && fileId.None? ==> o == Fail(ValueError(ONE_OF_MSG))
    ensures fileInput.None? && fileId.Some? ==> o == Fail(TypeError(OPEN_NONE_MSG))
  {
    match OneOf(fileInput, fileId, ONE_OF_MSG)
    case Fail(e) => Fail(e)
    case Pass => if fileInput.None? then Fail(TypeError(OPEN_NONE_MSG)) else Pass
  }

  /** `{"fileId": fileId, "outputFormat": output_format}`. */
  function FormatData(fileId: Option<string>, format: Option<string>): (d: map<string, Value>)
    ensures d.Keys == {"fileId", "outputFormat"}
    ensures d["fileId"] == OptStr(fileId) && d["outputFormat"] == OptStr(format)
  {
    map["fileId" := OptStr(fileId), "outputFormat" := OptStr(format)]
  }

  /** The form of `pdf_to_img`: the id and the six rendering options. */
  function PdfImgData(fileId: Option<string>, pageNumbers: string, imageFormat: string,
                      singleOrMultiple: string, colorType: string, dpi: int, includeAnnotations: Value)
    : (d: map<string, Value>)
    ensures d.Keys == {"fileId", "pageNumbers", "imageFormat", "singleOrMultiple", "colorType", "dpi",
                       "includeAnnotations"}
    ensures d["fileId"] == OptStr(fileId)
  {
    map["fileId" := OptStr(fileId), "pageNumbers" := VStr(pageNumbers), "imageFormat" := VStr(imageFormat),
        "singleOrMultiple" := VStr(singleOrMultiple), "colorType" := VStr(colorType), "dpi" := VInt(dpi),
        "includeAnnotations" := includeAnnotations]
  }

  function HtmlData(zoom: Value, fileId: Option<string>): (d: map<string, Value>)
    ensures d.Keys == {"zoom", "fileId"}
  {
    map["zoom" := zoom, "fileId" := OptStr(fileId)]
  }

  /** The form of `eml_to_pdf`: the four eml options and nothing else. */
  function EmlData(includeAttachments: Value, maxAttachmentSizeMb: Value, downloadHtml: Value,
                   includeAllRecipients: Value): (d: map<string, Value>)
    ensures d.Keys == {"includeAttachments", "maxAttachmentSizeMB", "downloadHtml", "includeAllRecipients"}
  {
    map["includeAttachments" := includeAttachments,
        "maxAttachmentSizeMB" := maxAttachmentSizeMb,
        "downloadHtml" := downloadHtml,
        "includeAllRecipients" := includeAllRecipients]
  }

  function ImgData(fitOption: Value, colorType: Value, autoRotate: Value): (d: map<string, Value>)
    ensures d.Keys == {"fitOption", "colorType", "autoRotate"}
  {
    map["fitOption" := fitOption, "colorType" := colorType, "autoRotate" := autoRotate]
  }

  /** One `("fileInput", handle)` pair per handle, in order. */
  function Pairs(hs: seq<Handle>): (ps: seq<(string, Handle)>)
    ensures |ps| == |hs| && forall i :: 0 <= i < |hs| ==> ps[i] == ("fileInput", hs[i])
  {
    if hs == [] then [] else Pairs(hs[..|hs| - 1]) + [("fileInput", hs[|hs| - 1])]
  }

  function ImgRequest(hs: seq<Handle>, data: map<string, Value>): Request
  {
    Request("POST", IMG_URL, map[], data, FileList(Pairs(hs)))
  }

  /** `img_to_pdf` on the filesystem and the request log: open every image,
      send, save, then close every image. */
  function ImgExchange(st: FsState, sent: seq<Request>, server: Request -> Response, paths: seq<Path>,
                       data: map<string, Value>, outPath: Path): (FsState, seq<Request>, Result<Response>)
  {
    var (st1, got) := OpenAll(st, paths);
    match got
    case Err(e) => (st1, sent, Err(e))
    case Ok(hs) =>
      var req := ImgRequest(hs, data);
      var resp := server(req);
      var (st2, o) := SaveSpec(st1, resp, outPath);
      match o
      case Fail(e) => (st2, sent + [req], Err(e))
      case Pass => (CloseAll(st2, hs), sent + [req], Ok(resp))
  }

  class ConvertApi {
    const client: HttpClient

    constructor (client: HttpClient)
      ensures this.client == client
    {
      this.client := client;
    }

    method PdfToWord(fs: FileSystem, outPath: Path, fileInput: Option<Path>, fileId: Option<string>,
                     outputFormat: Option<string>) returns (r: Result<int>)
      modifies client`sent, fs
      ensures var (st, sent, x) := GuardedExchange(
                FormatThenOneOf(outputFormat, WORD_FORMATS, WORD_FORMAT_MSG, fileInput, fileId),
                old(fs.State()), old(client.sent), client.server, WORD_URL, fileInput,
                FormatData(fileId, outputFormat), outPath);
              fs.State() == st && client.sent == sent && r == StatusOf(x)
    {
      var check := FormatThenOneOf(outputFormat, WORD_FORMATS, WORD_FORMAT_MSG, fileInput, fileId);
      if check.Fail? {
        return Err(check.error);
      }
      var x := SendSingle(client, fs, WORD_URL, fileInput, FormatData(fileId, outputFormat), outPath);
      r := StatusOf(x);
    }

    /** No format check: any `output_format` is forwarded. */
    method PdfToText(fs: FileSystem, outPath: Path, fileInput: Option<Path>, fileId: Option<string>,
                     outputFormat: Option<string>) returns (r: Result<int>)
      modifies client`sent, fs
      ensures var (st, sent, x) := GuardedExchange(
                OneOf(fileInput, fileId, ONE_OF_MSG),
                old(fs.State()), old(client.sent), client.server, TEXT_URL, fileInput,
                FormatData(fileId, outputFormat), outPath);
              fs.State() == st && client.sent == sent && r == StatusOf(x)
    {
      var check := OneOf(fileInput, fileId, ONE_OF_MSG);
      if check.Fail? {
        return Err(check.error);
      }
      var x := SendSingle(client, fs, TEXT_URL, fileInput, FormatData(fileId, outputFormat), outPath);
      r := StatusOf(x);
    }

    method PdfToPresentation(fs: FileSystem, outPath: Path, fileInput: Option<Path>, fileId: Option<string>,
                             outputFormat: Option<string>) returns (r: Result<int>)
      modifies client`sent, fs
      ensures var (st, sent, x) := GuardedExchange(
                FormatThenOneOf(outputFormat, PRESENTATION_FORMATS, PRESENTATION_FORMAT_MSG, fileInput, fileId),
                old(fs.State()), old(client.sent), client.server, PRESENTATION_URL, fileInput,
                FormatData(fileId, outputFormat), outPath);
              fs.State() == st && client.sent == sent && r == StatusOf(x)
    {
      var check := FormatThenOneOf(outputFormat, PRESENTATION_FORMATS, PRESENTATION_FORMAT_MSG, fileInput, fileId);
      if check.Fail? {
        return Err(check.error);
      }
      var x := SendSingle(client, fs, PRESENTATION_URL, fileInput, FormatData(fileId, outputFormat), outPath);
      r := StatusOf(x);
    }

    method PdfToPdfa(fs: FileSystem, outPath: Path, fileInput: Option<Path>, fileId: Option<string>,
                     outputFormat: Option<string>) returns (r: Result<int>)
      modifies client`sent, fs
      ensures var (st, sent, x) := GuardedExchange(
                FormatThenOneOf(outputFormat, PDFA_FORMATS, PDFA_FORMAT_MSG, fileInput, fileId),
                old(fs.State()), old(client.sent), client.server, PDFA_URL, fileInput,
                FormatData(fileId, outputFormat), outPath);
              fs.State() == st && client.sent == sent && r == StatusOf(x)
    {
      var check := FormatThenOneOf(outputFormat, PDFA_FORMATS, PDFA_FORMAT_MSG, fileInput, fileId);
      if check.Fail? {
        return Err(check.error);
      }
      var x := SendSingle(client, fs, PDFA_URL, fileInput, FormatData(fileId, outputFormat), outPath);
      r := StatusOf(x);
    }

    method PdfToMarkdown(fs: FileSystem, outPath: Path, fileInput: Option<Path>, fileId: Option<string>)
      returns (r: Result<int>)
      modifies client`sent, fs
      ensures var (st, sent, x) := GuardedExchange(
                OneOf(fileInput, fileId, ONE_OF_MSG),
                old(fs.State()), old(client.sent), client.server, MARKDOWN_URL, fileInput,
                map["fileId" := OptStr(fileId)], outPath);
              fs.State() == st && client.sent == sent && r == StatusOf(x)
    {
      var check := OneOf(fileInput, fileId, ONE_OF_MSG);
      if check.Fail? {
        return Err(check.error);
      }
      var x := SendSingle(client, fs, MARKDOWN_URL, fileInput, map["fileId" := OptStr(fileId)], outPath);
      r := StatusOf(x);
    }

    method PdfToImg(fs: FileSystem, outPath: Path, fileInput: Option<Path>, fileId: Option<string>,
                    pageNumbers: string, imageFormat: string, singleOrMultiple: string, colorType: string,
                    dpi: int, includeAnnotations: Value) returns (r: Result<int>)
      modifies client`sent, fs
      ensures var (st, sent, x) := GuardedExchange(
                OneOf(fileInput, fileId, ONE_OF_MSG),
                old(fs.State()), old(client.sent), client.server, PDF_IMG_URL, fileInput,
                PdfImgData(fileId, pageNumbers, imageFormat, singleOrMultiple, colorType, dpi, includeAnnotations),
                outPath);
              fs.State() == st && client.sent == sent && r == StatusOf(x)
    {
      var check := OneOf(fileInput, fileId, ONE_OF_MSG);
      if check.Fail? {
        return Err(check.error);
      }
      var data := PdfImgData(fileId, pageNumbers, imageFormat, singleOrMultiple, colorType, dpi, includeAnnotations);
      var x := SendSingle(client, fs, PDF_IMG_URL, fileInput, data, outPath);
      r := StatusOf(x);
    }

    /** The input is opened unconditionally after the one-of check. */
    method HtmlToPdf(fs: FileSystem, outPath: Path, fileInput: Option<Path>, fileId: Option<string>,
                     zoom: Value) returns (r: Result<int>)
      modifies client`sent, fs
      ensures var (st, sent, x) := GuardedExchange(
                HtmlCheck(fileInput, fileId),
                old(fs.State()), old(client.sent), client.server, HTML_URL, fileInput,
                HtmlData(zoom, fileId), outPath);
              fs.State() == st && client.sent == sent && r == StatusOf(x)
    {
      var check := OneOf(fileInput, fileId, ONE_OF_MSG);
      if check.Fail? {
        return Err(check.error);
      }
      if fileInput.None? {
        return Err(TypeError(OPEN_NONE_MSG));
      }
      var x := SendSingle(client, fs, HTML_URL, fileInput, HtmlData(zoom, fileId), outPath);
      r := StatusOf(x);
    }

    /** `fileId` takes part in the one-of check but is not sent. */
    method EmlToPdf(fs: FileSystem, outPath: Path, fileInput: Option<Path>, fileId: Option<string>,
                    includeAttachments: Value, maxAttachmentSizeMb: Value, downloadHtml: Value,
                    includeAllRecipients: Value) returns (r: Result<int>)
      modifies client`sent, fs
      ensures var (st, sent, x) := GuardedExchange(
                OneOf(fileInput, fileId, ONE_OF_MSG),
                old(fs.State()), old(client.sent), client.server, HTML_URL, fileInput,
                EmlData(includeAttachments, maxAttachmentSizeMb, downloadHtml, includeAllRecipients), outPath);
              fs.State() == st && client.sent == sent && r == StatusOf(x)
    {
      var check := OneOf(fileInput, fileId, ONE_OF_MSG);
      if check.Fail? {
        return Err(check.error);
      }
      var data := EmlData(includeAttachments, maxAttachmentSizeMb, downloadHtml, includeAllRecipients);
      var x := SendSingle(client, fs, HTML_URL, fileInput, data, outPath);
      r := StatusOf(x);
    }

    /** `img_to_pdf`: one loop opens every image and builds the `files` list
        and the `opened_files` list side by side; after the request and the
        save a second loop closes what is still open. */
    method ImgToPdf(fs: FileSystem, outPath: Path, fileInput: seq<Path>, fitOption: Value,
                    colorType: Value, autoRotate: Value) returns (r: Result<int>)
      modifies client`sent, fs
      ensures var (st, sent, x) := ImgExchange(old(fs.State()), old(client.sent), client.server, fileInput,
                                                ImgData(fitOption, colorType, autoRotate), outPath);
              fs.State() == st && client.sent == sent && r == StatusOf(x)
    {
      var files: seq<(string, Handle)> := [];
      var openedFiles: seq<Handle> := [];
      for i := 0 to |fileInput|
        invariant OpenAll(old(fs.State()), fileInput[..i]) == (fs.State(), Ok(openedFiles))
        invariant files == Pairs(openedFiles)
        invariant client.sent == old(client.sent)
      {
        assert fileInput[..i + 1][..i] == fileInput[..i];
        var got := fs.Open(fileInput[i]);
        if got.Err? {
          OpenAllStopsAtFailure(old(fs.State()), fileInput, i + 1);
          return Err(got.error);
        }
        files := files + [("fileInput", got.value)];
        openedFiles := openedFiles + [got.value];
      }
      assert fileInput[..|fileInput|] == fileInput;
      var req := Request("POST", IMG_URL, map[], ImgData(fitOption, colorType, autoRotate), FileList(files));
      var resp := client.Send(req);
      var saved := SaveFile(fs, resp, outPath);
      if saved.Fail? {
        return Err(saved.error);
      }
      CloseEach(fs, openedFiles);
      r := Ok(resp.status);
    }
  }

  // ---------------------------------------------------------------------------
  // Properties

  /** A bad output format is reported even when no input is given at all. */
  lemma FormatCheckedFirst(format: Option<string>, allowed: seq<string>, formatMsg: string)
    requires !(format.Some? && format.value in allowed)
    ensures FormatThenOneOf(format, allowed, formatMsg, None, None) == Fail(ValueError(formatMsg))
  {
  }

  /** Each declared default format passes its own format check, so a call
      that keeps the default fails only for want of a file and an id. */
  lemma DefaultFormatsAccepted(fileInput: Option<Path>, fileId: Option<string>)
    ensures var given := fileInput.Some? || fileId.Some?;
            (FormatThenOneOf(Some(WORD_DEFAULT_FORMAT), WORD_FORMATS, WORD_FORMAT_MSG, fileInput, fileId).Pass? <==> given)
            && (var presentation := FormatThenOneOf(Some(PRESENTATION_DEFAULT_FORMAT), PRESENTATION_FORMATS,
                                                    PRESENTATION_FORMAT_MSG, fileInput, fileId);
                presentation.Pass? <==> given)
            && (var pdfa := FormatThenOneOf(Some(PDFA_DEFAULT_FORMAT), PDFA_FORMATS, PDFA_FORMAT_MSG, fileInput, fileId);
                pdfa.Pass? <==> given)
  {
    assert WORD_FORMATS[0] == WORD_DEFAULT_FORMAT;
    assert PRESENTATION_FORMATS[0] == PRESENTATION_DEFAULT_FORMAT;
    assert PDFA_FORMATS[0] == PDFA_DEFAULT_FORMAT;
  }

  /** `html_to_pdf` with only a file id never gets to send its request. */
  lemma HtmlNeedsFile(st: FsState, sent: seq<Request>, server: Request -> Response, fileId: string,
                      zoom: Value, outPath: Path)
    ensures GuardedExchange(HtmlCheck(None, Some(fileId)), st, sent, server, HTML_URL, None,
                            HtmlData(zoom, Some(fileId)), outPath)
            == (st, sent, Err(TypeError(OPEN_NONE_MSG)))
  {
  }

  /** The form of `eml_to_pdf` never carries the file id. */
  lemma EmlDropsFileId(a: Value, b: Value, c: Value, d: Value)
    ensures "fileId" !in EmlData(a, b, c, d)
  {
  }

  /** A successful `img_to_pdf` sends one `fileInput` entry per path, in the
      order of the paths, and leaves none of the images open. */
  lemma ImgOneEntryPerPath(st: FsState, sent: seq<Request>, server: Request -> Response, paths: seq<Path>,
                           data: map<string, Value>, outPath: Path)
    requires WellFormed(st)
    requires ImgExchange(st, sent, server, paths, data, outPath).2.Ok?
    ensures var (st', sent', _) := ImgExchange(st, sent, server, paths, data, outPath);
            |sent'| == |sent| + 1 && sent'[|sent|].files.FileList?
            && |sent'[|sent|].files.pairs| == |paths|
            && (forall i :: 0 <= i < |paths| ==>
                  sent'[|sent|].files.pairs[i] == ("fileInput", Handle(st.nextId + i, paths[i])))
            && st'.openIds == st.openIds
  {
    var (st1, got) := OpenAll(st, paths);
    OpenAllHandles(st, paths);
    CloseAllAfterOpenAll(st, paths);
    var hs := got.value;
    var resp := server(ImgRequest(hs, data));
    var (st2, o) := SaveSpec(st1, resp, outPath);
    assert st2.openIds == st1.openIds;
    ClosesRemoveIds(st2, hs);
    ClosesRemoveIds(st1, hs);
  }
}
