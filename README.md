# stirling-pdf-client in Dafny

A model of the Python client library for the Stirling PDF server. The
library wraps the server's REST endpoints in one object per area
(`InfoApi`, `ConvertApi`, `MiscApi`). The operations share a few pieces of
real logic, and those are what this model covers:

- **Version comparison and the capability gate.** `compare_versions`
  compares the digit runs of two version strings as integers and pads the
  shorter list with zeros. The `requires_server_version` decorator refuses
  a method when the server's version is too old. `MixApi.get_client` finds
  the HTTP client by searching the object's attribute names.
- **Saving a response.** `get_filename` reads the file name from the
  `Content-Disposition` header. This is a simplified reading of RFC 6266,
  section 4, with the `ext-value` of RFC 5987, section 3.2. `save_file`
  writes the response body either over an existing file or into a
  directory under that name. An older copy of both lives in
  `src/convert.py`.
- **Status validation.** `validate_response` passes 2xx responses through.
  Any other status fails with a reason phrase from a fixed table, or with a
  generic message.
- **The request pattern of every file operation.** An operation checks its
  arguments (one of file or file id, closed sets of output formats), opens
  the input file, sends one multipart POST, saves the response and closes
  the file. It then returns the status code (convert) or the response text
  (misc). The misc module adds the stamp position table, the
  `"<n>kb"` size string, and the file lists of `img_to_pdf` and
  `add_attachments`.
- **The info endpoints.** These turn JSON answers into `Status` and
  `LoadCount` records, filling in defaults for missing keys. `get_load` is
  gated at version "1.3.2".

The server is a function from request to response, held by an
`HttpClient` object. The client keeps the log `sent` of every request
issued, so "no request was sent" is `client.sent == old(client.sent)`.
The filesystem is a `FileSystem` object: a map from path to bytes, a set
of directories, and the set of open file-object tokens.

Modules, one file each:

| file | module | models |
|---|---|---|
| common.dfy | Common | options, results, the exceptions raised, decimal text |
| versions.dfy | Versions | `compare_versions` |
| filename.dfy | Filename | `get_filename`: header lookup, the `filename\*?=` search, strip, `UTF-8''` decoding, sanitising |
| http.dfy | Http | JSON values, requests, responses, the client object, `validate_response` |
| disk.dfy | Disk | the filesystem object, `open`/`close`/`write`, `save_file` |
| legacy.dfy | Legacy | `_get_filename` and `_save_file` of `src/convert.py` |
| gate.dfy | Gate | `get_client` and `requires_server_version` |
| info.dfy | Info | `InfoApi` |
| transfer.dfy | Transfer | the open / send / save / close pattern, and opening and closing lists of files |
| convert.dfy | ConvertOps | `ConvertApi` |
| misc.dfy | MiscOps | `MiscApi` |

## Model

| member | source | states |
|---|---|---|
| Common.NatToStringRoundTrip | src/stirling_pdf_client/misc.py:469 | reading back the decimal text of a natural number gives that number |
| Common.IntToStringRoundTrip | src/stirling_pdf_client/utils.py:57 | `f"{n}"` for any integer, including the minus sign, parses back to `n` |
| Common.Lower | src/stirling_pdf_client/mix.py:24 | ASCII `str.lower`: same length, each character lower-cased on its own |
| Versions.DigitRunLength | src/stirling_pdf_client/utils.py:76-77 | the leading digit run ends at the first non-digit character or at the end of the string |
| Versions.CompareVersions | src/stirling_pdf_client/utils.py:61-87 | the index loop over `max(len)` positions with zero padding returns `Compare` of the two strings, always -1, 0 or 1 |
| Versions.CompareRange | src/stirling_pdf_client/utils.py:83-87 | the comparison of digit-run lists is -1, 0 or 1 |
| Versions.CompareZeroIffEqual | src/stirling_pdf_client/utils.py:80-87 | the result is 0 exactly when the lists agree at every position once missing positions count as 0 |
| Versions.CompareIsFirstDifference | src/stirling_pdf_client/utils.py:80-86 | the result is the sign of the first position where the padded lists differ |
| Versions.CompareAntisymmetric | src/stirling_pdf_client/utils.py:80-87 | swapping the arguments negates the result |
| Versions.CompareReflexive | src/stirling_pdf_client/utils.py:80-87 | every version compares equal to itself |
| Versions.CompareTransitive | src/stirling_pdf_client/utils.py:80-87 | "not greater than" is transitive |
| Versions.CompareIgnoresPadding | src/stirling_pdf_client/utils.py:81-82 | lists that differ only in trailing zeros compare the same against anything |
| Versions.NoDigitsEqualsZero | src/stirling_pdf_client/utils.py:76-82 | a string without digits equals every all-zero version |
| Versions.NoDigitsNoParts | src/stirling_pdf_client/utils.py:76 | a string without digits has no digit runs |
| Versions.CompareExamples | src/stirling_pdf_client/utils.py:76-87 | "1.3.10" > "1.3.2", "2.0" > "1.9.9", "1.3" equals "1.3.0" |
| Versions.GateExamples | src/stirling_pdf_client/info.py:32 | against the minimum "1.3.2": "1.2.0" and "0.0.0" are lower, "1.4.0" is higher |
| Filename.HeaderGet | src/stirling_pdf_client/utils.py:21 | a missing header gives the default and a single header gives its value |
| Filename.SearchParam | src/stirling_pdf_client/utils.py:25 | the search returns the first position where `filename=` or `filename*=` (any case) is followed by a non-`;` character, or none when there is no such position |
| Filename.RunEnd | src/stirling_pdf_client/utils.py:25 | the `[^;]+` group ends at the first `;` or at the end |
| Filename.Capture | src/stirling_pdf_client/utils.py:25 | the captured group is non-empty and has no `;` |
| Filename.TrimLeft | src/stirling_pdf_client/utils.py:27 | strips exactly the leading spaces and quotes: what is removed is all trim characters, and what is left does not start with one |
| Filename.TrimRight | src/stirling_pdf_client/utils.py:27 | the same at the end |
| Filename.Strip | src/stirling_pdf_client/utils.py:27 | `strip(" \"'")` leaves neither end a space or quote |
| Filename.StripIsMiddleSlice | src/stirling_pdf_client/utils.py:27 | the stripped text is a contiguous slice of the original |
| Filename.PercentDecode | src/stirling_pdf_client/utils.py:30 | decoding never lengthens the text |
| Filename.PercentRoundTrip | src/stirling_pdf_client/utils.py:30 | decoding undoes percent-encoding (RFC 3986, section 2.1) for ASCII text |
| Filename.NoEscapeDecodesToItself | src/stirling_pdf_client/utils.py:30 | text without `%` is unchanged by `unquote` |
| Filename.Sanitise | src/stirling_pdf_client/utils.py:31 | every one of `<>:"/\|?*` becomes `_` and every other character is kept |
| Filename.SanitiseIsSafe | src/stirling_pdf_client/utils.py:31 | the sanitised name contains none of the nine characters |
| Filename.SanitiseIdempotent | src/stirling_pdf_client/utils.py:31 | sanitising twice equals sanitising once, and a name is unchanged exactly when it has none of the nine characters |
| Filename.FilenameFromDisposition | src/stirling_pdf_client/utils.py:24-31 | a name found in the header never contains a character the sanitiser removes |
| Filename.DispositionSearch | src/stirling_pdf_client/utils.py:25-26 | no name exactly when no position matches; otherwise the name comes from the first match |
| Filename.GetFilename | src/stirling_pdf_client/utils.py:18-32 | the result is the default or a name without any of the nine characters |
| Filename.GetFilenameCases | src/stirling_pdf_client/utils.py:24-32 | no match gives the default and a match gives the sanitised, decoded, stripped group |
| Filename.NoDispositionGivesDefault | src/stirling_pdf_client/utils.py:21-32 | without a content-disposition header the default is returned |
| Filename.DefaultNameIsPlain | src/stirling_pdf_client/utils.py:18 | the default "unkown_filename" (as spelled) is a plain file name |
| Filename.GetFilenameIsSafe | src/stirling_pdf_client/utils.py:18-32 | with the default name, the result never holds one of the nine characters |
| Filename.LeadingParameter | src/stirling_pdf_client/utils.py:25-31 | a header starting with `filename=v` or `filename*=v` followed by `;` or the end yields `v` stripped, decoded and sanitised |
| Filename.StripQuoted | src/stirling_pdf_client/utils.py:27 | surrounding double quotes are removed |
| Filename.QuotedNameKept | src/stirling_pdf_client/utils.py:25-31 | `filename="v"` yields exactly `v` for a clean name |
| Filename.ExtValueRoundTrip | src/stirling_pdf_client/utils.py:29-31 | `filename*=UTF-8''` followed by the percent-encoding of an ASCII name yields that name, sanitised |
| Filename.ExtValueDecoded | src/stirling_pdf_client/utils.py:29-30 | after the exact `UTF-8''` prefix the 7 characters are dropped and the rest is percent-decoded |
| Filename.Utf8Decoded | src/stirling_pdf_client/utils.py:29-30 | the `UTF-8''` prefix is removed before decoding |
| Filename.NoParameterExample | src/stirling_pdf_client/utils.py:24-32 | "inline" holds no file name |
| Http.OptStr | src/stirling_pdf_client/convert.py:54 | an optional string is sent as None exactly when absent |
| Http.HttpClient.Send | src/stirling_pdf_client/info.py:18 | a request is appended to the log and answered by the server |
| Http.ReasonPhrase | src/stirling_pdf_client/utils.py:42-54 | a phrase exists exactly for the 11 table codes |
| Http.FailureReason | src/stirling_pdf_client/utils.py:57 | table codes give their phrase, others "Request failed with status code N" |
| Http.ValidateResponse | src/stirling_pdf_client/utils.py:35-58 | returns the response unchanged exactly when 200 <= status < 300, otherwise fails |
| Http.FailureMessageShape | src/stirling_pdf_client/utils.py:58 | the failure message is the reason, ": " and the body text |
| Http.FallbackIdentifiesStatus | src/stirling_pdf_client/utils.py:57-58 | two statuses outside the table with the same body fail with the same message only if they are equal |
| Http.TableAndFallbackDiffer | src/stirling_pdf_client/utils.py:42-57 | a table status and a non-table status never fail with the same message |
| Disk.Join | src/stirling_pdf_client/utils.py:13 | `joinpath` with "" or "." is the directory itself, otherwise one more component |
| Disk.FileSystem.Open | src/stirling_pdf_client/misc.py:113 | `open(p, "rb")` follows its specification: a fresh token for an existing file, FileError otherwise |
| Disk.FileSystem.Close | src/stirling_pdf_client/misc.py:139 | `close` removes the token from the open set |
| Disk.FileSystem.Write | src/stirling_pdf_client/utils.py:14-15 | `open(p, "wb").write` replaces the content of a writable path |
| Disk.SaveFile | src/stirling_pdf_client/utils.py:9-15 | saving writes the body to the target its specification chooses |
| Disk.OpenKeepsWellFormed | src/stirling_pdf_client/misc.py:113 | opening keeps the filesystem well formed |
| Disk.WriteKeepsWellFormed | src/stirling_pdf_client/utils.py:14-15 | writing keeps the filesystem well formed |
| Disk.OpenGivesFreshHandle | src/stirling_pdf_client/misc.py:113 | opening succeeds exactly for existing files, with a token not open before; a failure changes nothing |
| Disk.CloseUndoesOpen | src/stirling_pdf_client/misc.py:138-139 | closing what was just opened restores the open set |
| Disk.SaveTouchesOnlyTarget | src/stirling_pdf_client/utils.py:9-15 | on success the target holds exactly the response bytes, and no other path, directory or open file changes |
| Disk.SaveTargetPlacement | src/stirling_pdf_client/utils.py:10-13 | the target is `out_path` when that is a file, else `out_path` or one child of it with a safe name |
| Disk.ExistingFileOverwritten | src/stirling_pdf_client/utils.py:10-15 | an existing file is overwritten with the body |
| Disk.SaveIntoDirectory | src/stirling_pdf_client/utils.py:11-15 | without a content-disposition header the body lands in `dir/unkown_filename` |
| Disk.SaveIgnoresStatus | src/stirling_pdf_client/utils.py:9-15 | the status code plays no part in saving |
| Legacy.GetFilename | src/convert.py:285-299 | without the header the default comes back, and any other result is free of the nine characters |
| Legacy.SameAsUtils | src/convert.py:285-299 | the legacy function equals the utils one on every header map and default, with the same default name |
| Legacy.SameOnDisposition | src/convert.py:291-298 | on a found header both copies pick, strip, decode and sanitise the same way |
| Legacy.SaveFile | src/convert.py:277-283 | `_save_file` has the same effect as `save_file` |
| Gate.FirstClientIndex | src/stirling_pdf_client/mix.py:22-25 | the index found is the first whose name contains "client", case-insensitively; none means no name does |
| Gate.GetClient | src/stirling_pdf_client/mix.py:5-28 | AttributeError exactly when no name matches; otherwise the value of a matching attribute |
| Gate.LowerAppend | src/stirling_pdf_client/mix.py:24 | lower-casing distributes over concatenation |
| Gate.NameWithClientMatches | src/stirling_pdf_client/mix.py:24 | any name containing "client" in any letter case matches |
| Gate.MangledNameMatches | src/stirling_pdf_client/mix.py:24 | the mangled name `_<Class>__client` matches |
| Gate.CachedVersion | src/stirling_pdf_client/utils.py:116-117 | a present version is kept; otherwise the `server_status` version is cached when there is a status |
| Gate.GateCheck | src/stirling_pdf_client/utils.py:123-128 | passes exactly when the server version compares >= the minimum, otherwise fails with the gate message |
| Gate.RequireServerVersion | src/stirling_pdf_client/utils.py:110-128 | the wrapper caches the version and returns the gate's verdict on `version`, the status version or "0.0.0" |
| Gate.GateMonotone | src/stirling_pdf_client/utils.py:123-126 | a newer server or a lower minimum never turns a pass into a refusal |
| Gate.GateAtOwnVersion | src/stirling_pdf_client/utils.py:126 | a server at exactly the minimum passes |
| Gate.PlainClientIsZero | src/stirling_pdf_client/utils.py:116-120 | a client with neither attribute is read as "0.0.0" |
| Info.DecodeJson | src/stirling_pdf_client/info.py:27 | `resp.json()` fails exactly on a body that is not JSON |
| Info.GetOr | src/stirling_pdf_client/info.py:29 | `.get(key, default)` works only on objects and gives the value or the default |
| Info.LoadCounts | src/stirling_pdf_client/info.py:58-65 | the mapping succeeds exactly when every element is an object, and keeps the length |
| Info.ToLoadCounts | src/stirling_pdf_client/info.py:57-65 | an array is mapped element by element, and a scalar is "not iterable" |
| Info.InfoApi.FindClient | src/stirling_pdf_client/mix.py:22-25 | `get_client` on an InfoApi finds its own client |
| Info.InfoApi.GetUptime | src/stirling_pdf_client/info.py:16-20 | one GET to the uptime URL, whose body text is returned |
| Info.InfoApi.GetStatus | src/stirling_pdf_client/info.py:23-30 | one GET; the JSON is turned into a Status |
| Info.InfoApi.GetLoad | src/stirling_pdf_client/info.py:32-40 | below "1.3.2" it fails with the gate message and sends nothing; otherwise one GET with the endpoint parameter, whose JSON is returned |
| Info.InfoApi.GetLoadUnique | src/stirling_pdf_client/info.py:42-49 | one GET with the endpoint parameter, whose JSON is returned |
| Info.InfoApi.GetLoadAll | src/stirling_pdf_client/info.py:51-65 | one GET; the JSON list is mapped to LoadCounts |
| Info.InfoApi.GetLoadAllUnique | src/stirling_pdf_client/info.py:67-79 | one GET without parameters; the same mapping |
| Info.InfoApiClientFound | src/stirling_pdf_client/info.py:11-14 | the attribute `_InfoApi__client` is what `get_client` returns |
| Info.StatusDefaults | src/stirling_pdf_client/info.py:27-30 | a Status comes from any object, taking `version` and `status` or "" for each missing key |
| Info.EmptyObjectDefaults | src/stirling_pdf_client/info.py:29-62 | an empty object gives Status("", "") and LoadCount("", 0) |
| Info.LoadCountsPointwise | src/stirling_pdf_client/info.py:57-65 | one LoadCount per element, same length and order, with "" and 0 for missing keys |
| Info.LoadCountsAppend | src/stirling_pdf_client/info.py:58-65 | the mapping of a concatenation is the concatenation of the mappings |
| Info.PlainClientRefused | src/stirling_pdf_client/info.py:32 | a client with no version information is always refused `get_load` |
| Transfer.OpenInput | src/stirling_pdf_client/misc.py:111-113 | opens the input only when one is given |
| Transfer.Finish | src/stirling_pdf_client/misc.py:134-139 | sends one request, saves, then closes the input; a failed save leaves the input open |
| Transfer.SendSingle | src/stirling_pdf_client/convert.py:50-61 | the whole open / send / save / close pattern as specified |
| Transfer.OneOf | src/stirling_pdf_client/misc.py:108-109 | ValueError exactly when both file and id are absent |
| Transfer.RefusedSendsNothing | src/stirling_pdf_client/convert.py:45-46 | a failed argument check leaves the files and the request log unchanged |
| Transfer.NoInputStillSends | src/stirling_pdf_client/misc.py:230-248 | without an input the request still goes out, with the file entry None |
| Transfer.SendSaveCloseOpenIds | src/stirling_pdf_client/misc.py:134-139 | a completed send, save and close closes the input and opens nothing |
| Transfer.IdRange | src/stirling_pdf_client/convert.py:266-267 | the tokens of files opened one after another form a contiguous range |
| Transfer.OpenEach | src/stirling_pdf_client/misc.py:629-631 | the open loop matches its specification: stop at the first failure, otherwise one handle per path |
| Transfer.CloseEach | src/stirling_pdf_client/convert.py:282-284 | the close loop closes every handle still open |
| Transfer.OpenAllStopsAtFailure | src/stirling_pdf_client/convert.py:266-267 | once one open fails, the rest of the list is not tried |
| Transfer.OpenAllHandles | src/stirling_pdf_client/convert.py:266-269 | path `i` gets handle `nextId + i`, and exactly those tokens become open |
| Transfer.CloseAllAfterOpenAll | src/stirling_pdf_client/convert.py:266-284 | closing all the handles opened restores the open set |
| Transfer.ClosesRemoveIds | src/stirling_pdf_client/convert.py:282-284 | closing a list removes exactly its tokens |
| Transfer.SingleSendsOne | src/stirling_pdf_client/convert.py:53-57 | a successful call sends exactly one request, with the form given and only a `fileInput` entry, None exactly when no input |
| Transfer.SingleLeavesNoFileOpen | src/stirling_pdf_client/convert.py:50-60 | a successful call leaves the open set as it was and writes only the save target |
| Transfer.MissingInputSendsNothing | src/stirling_pdf_client/convert.py:51-52 | a missing input file fails before anything is sent |
| Transfer.SaveFailureLeaksHandle | src/stirling_pdf_client/convert.py:58-60 | when saving fails the input stays open |
| ConvertOps.FormatThenOneOf | src/stirling_pdf_client/convert.py:42-46 | passes exactly for an allowed format with a file or id; a bad format is reported first |
| ConvertOps.HtmlCheck | src/stirling_pdf_client/convert.py:296-299 | proceeds exactly when a file is given: nothing at all is ValueError, an id alone is TypeError |
| ConvertOps.FormatData | src/stirling_pdf_client/convert.py:54 | the form is exactly `fileId` and `outputFormat` |
| ConvertOps.PdfImgData | src/stirling_pdf_client/convert.py:179-187 | the form of `pdf_to_img` has exactly its seven keys |
| ConvertOps.HtmlData | src/stirling_pdf_client/convert.py:301 | the form is exactly `zoom` and `fileId` |
| ConvertOps.EmlData | src/stirling_pdf_client/convert.py:338-343 | the form is exactly the four eml keys |
| ConvertOps.ImgData | src/stirling_pdf_client/convert.py:271-275 | the form is exactly `fitOption`, `colorType` and `autoRotate` |
| ConvertOps.Pairs | src/stirling_pdf_client/convert.py:268 | one `("fileInput", handle)` pair per handle, in order |
| ConvertOps.ConvertApi.PdfToWord | src/stirling_pdf_client/convert.py:33-61 | format check, one-of check, then the pattern with its form; the status is returned |
| ConvertOps.ConvertApi.PdfToText | src/stirling_pdf_client/convert.py:63-85 | only the one-of check; any format is forwarded |
| ConvertOps.ConvertApi.PdfToPresentation | src/stirling_pdf_client/convert.py:87-111 | only "ppt" and "pptx" pass |
| ConvertOps.ConvertApi.PdfToPdfa | src/stirling_pdf_client/convert.py:113-137 | only "pdfa" and "pdfa-1" pass |
| ConvertOps.ConvertApi.PdfToMarkdown | src/stirling_pdf_client/convert.py:139-157 | the one-of check, then the pattern with the id |
| ConvertOps.ConvertApi.PdfToImg | src/stirling_pdf_client/convert.py:159-194 | the one-of check, then the pattern with the rendering form |
| ConvertOps.ConvertApi.HtmlToPdf | src/stirling_pdf_client/convert.py:288-308 | the one-of check, then an unconditional open |
| ConvertOps.ConvertApi.EmlToPdf | src/stirling_pdf_client/convert.py:321-351 | the one-of check, then the pattern with the eml form |
| ConvertOps.ConvertApi.ImgToPdf | src/stirling_pdf_client/convert.py:251-286 | the open loop, one request, the save, then the close loop, as its specification |
| ConvertOps.FormatCheckedFirst | src/stirling_pdf_client/convert.py:42-46 | a bad format is reported even with no input at all |
| ConvertOps.DefaultFormatsAccepted | src/stirling_pdf_client/convert.py:38-43 | the declared defaults "doc", "ppt" and "pdfa" each pass their own format check, so such a call fails only when neither a file nor an id is given |
| ConvertOps.HtmlNeedsFile | src/stirling_pdf_client/convert.py:296-299 | an id alone fails with TypeError and sends nothing |
| ConvertOps.EmlDropsFileId | src/stirling_pdf_client/convert.py:338-343 | the eml form never carries `fileId` |
| ConvertOps.ImgOneEntryPerPath | src/stirling_pdf_client/convert.py:264-284 | a successful call sends one `fileInput` pair per path, in order, and leaves no image open |
| MiscOps.MetadataFields | src/stirling_pdf_client/misc.py:120-133 | the update holds exactly the ten metadata keys |
| MiscOps.MetadataKeys | src/stirling_pdf_client/misc.py:115-133 | without options exactly {fileId, deleteAll}; with options exactly those plus the ten keys |
| MiscOps.MetadataValues | src/stirling_pdf_client/misc.py:122-131 | each of the ten metadata fields is sent under its own key, with its own value |
| MiscOps.SizeString | src/stirling_pdf_client/misc.py:469 | the size text ends in "kb" |
| MiscOps.SizeStringRoundTrip | src/stirling_pdf_client/misc.py:469 | the number reads back from the size text, so different sizes give different texts |
| MiscOps.DefaultSize | src/stirling_pdf_client/misc.py:454-469 | the default 25 is sent as "25kb" |
| MiscOps.CompressData | src/stirling_pdf_client/misc.py:466-473 | the form has exactly its six keys, with the size text |
| MiscOps.ScannerData | src/stirling_pdf_client/misc.py:189-206 | the form fails exactly for a non-empty dict; otherwise it holds quality and rotation, plus the twelve option keys when an option object is given |
| MiscOps.ScannerDefaultRaises | src/stirling_pdf_client/misc.py:168-193 | with the declared default the call raises AttributeError, sends nothing and leaves the input open |
| MiscOps.ScannerDefaultCorrected | src/stirling_pdf_client/misc.py:23-35 | the dataclass defaults build the full form, with the values the dict default meant |
| MiscOps.InvertData | src/stirling_pdf_client/misc.py:234-245 | three keys without options, five with them |
| MiscOps.ExtractData | src/stirling_pdf_client/misc.py:414-420 | the form has exactly its five keys |
| MiscOps.InvertWithoutInputSends | src/stirling_pdf_client/misc.py:228-248 | with neither file nor id the request still goes out, without a file and with the id None |
| MiscOps.PositionKeypad | src/stirling_pdf_client/misc.py:544-554 | row i (bottom, middle, top) and column j (left, center, right) is numbered 3i + j + 1 |
| MiscOps.PositionBijection | src/stirling_pdf_client/misc.py:544-554 | the table is one-to-one onto 1..9 |
| MiscOps.DefaultPosition | src/stirling_pdf_client/misc.py:553-562 | the default "middleCenter" is sent as 5 |
| MiscOps.StampFields | src/stirling_pdf_client/misc.py:555-571 | the update carries the opened image and the looked-up number, and not `fileId` |
| MiscOps.StampFormOpensImage | src/stirling_pdf_client/misc.py:560 | building the form opens exactly one file |
| MiscOps.StampSendOpenIds | src/stirling_pdf_client/misc.py:560-578 | once the input is open, a completed call closes it and leaves the image open |
| MiscOps.StampLeaksImage | src/stirling_pdf_client/misc.py:560-578 | a successful `add_stamp` leaves exactly one new file open, the stamp image |
| MiscOps.StampDefaultRaises | src/stirling_pdf_client/misc.py:532-560 | with default options the call raises TypeError, sends nothing and leaves the input open |
| MiscOps.StampDefaultCorrected | src/stirling_pdf_client/misc.py:54-81 | the corrected form builds the default options without an image, at position 5 |
| MiscOps.StampFormAgrees | src/stirling_pdf_client/misc.py:555-571 | when an image is given the corrected and the written form agree |
| MiscOps.AttachOneHandleEach | src/stirling_pdf_client/misc.py:626-636 | with or without an input file, a sent request carries the input's handle (or None) and one handle per attachment, in order, numbered after the input's |
| MiscOps.AttachClosesAttachments | src/stirling_pdf_client/misc.py:637-641 | the attachments are closed even when saving fails; a successful call restores the open set, a failed save leaves exactly the input open |
| MiscOps.MiscApi.UpdateMetadata | src/stirling_pdf_client/misc.py:99-140 | the one-of check, then the pattern with the metadata form; the text is returned |
| MiscOps.MiscApi.UnlockPdfForms | src/stirling_pdf_client/misc.py:142-160 | the one-of check, then the pattern with the id |
| MiscOps.MiscApi.Repair | src/stirling_pdf_client/misc.py:254-271 | the one-of check, then the pattern with the id |
| MiscOps.MiscApi.CompressPdf | src/stirling_pdf_client/misc.py:448-480 | the one-of check, then the pattern with the compress form |
| MiscOps.MiscApi.ScannerEffect | src/stirling_pdf_client/misc.py:162-213 | no one-of check; open, build the form (which may raise), then send, save and close |
| MiscOps.MiscApi.ReplaceInvertPdf | src/stirling_pdf_client/misc.py:215-252 | no one-of check; the pattern with the invert form |
| MiscOps.MiscApi.ExtractImageScans | src/stirling_pdf_client/misc.py:399-427 | no one-of check; the pattern with the scan form |
| MiscOps.MiscApi.AddStamp | src/stirling_pdf_client/misc.py:527-579 | the one-of check, the open, the form in evaluation order, then send, save and close |
| MiscOps.MiscApi.AddAttachments | src/stirling_pdf_client/misc.py:616-642 | the one-of check, open the input and each attachment, send, close the attachments, save, close the input |

## Findings

| source | as written | input that shows it | evidently intended | confidence | as-written member | corrected member |
|---|---|---|---|---|---|---|
| src/stirling_pdf_client/misc.py:168-193 | the default `options` of `scanner_effect` is a dict, and the body reads `options.border` | `scanner_effect(out, existing_pdf)` with all defaults | the ScannerEffectOption defaults, sent as twelve form fields | high (not executed) | MiscOps.ScannerDefaultRaises | MiscOps.ScannerDefaultCorrected |
| src/stirling_pdf_client/misc.py:532-560 | `add_stamp` always calls `open(options.stamp_image)`, and the default StampOptions has no image | `add_stamp(out, existing_pdf)` with all defaults | open the image only when one is given, so that a text stamp works | medium (not executed) | MiscOps.StampDefaultRaises | MiscOps.StampDefaultCorrected |

`MiscOps.SCANNER_DEFAULT` and `MiscOps.StampFormCorrected` hold the
corrected behaviour. `MiscApi.ScannerEffect` and `MiscApi.AddStamp` model
the code as written, so that its failure paths (nothing sent, the input
left open) are part of the model.

## Left out

- HTTP transport: headers, timeouts, connection errors and the construction of the httpx client. The server is a total function from request to response.
- Real file I/O: `open` fails only for a path that is not an existing file, and every such failure is one FileError. Permissions and other OSError kinds are not distinguished. `Path.is_file` is membership in the file map. A name that contains `/` is treated as one path component.
- `unquote` decodes `%XX` escapes only to ASCII characters. A multi-byte UTF-8 escape is kept verbatim. The regex `\d`, the IGNORECASE flag and `str.lower` are ASCII only.
- Floating-point options (zoom, opacity, brightness) and every other pass-through option are opaque `Value`s. The model does not interpret them.
- Absent and empty `params`/`data`/`files` arguments are not distinguished. `get_uptime` and `get_status` are modelled with an empty parameter map.
- The exception fallback and `print` in `compare_versions` (src/stirling_pdf_client/utils.py:88-91) are not modelled. They cannot be reached once integers are parsed from digit runs.
- The `hasattr(self, 'get_client')` check (src/stirling_pdf_client/utils.py:110-111) is not modelled. It always holds for InfoApi, which inherits `get_client`.
- The decorator is modelled as an explicit call to `RequireServerVersion` at the start of `GetLoad`, not as a higher-order wrapper.
- The other endpoints are not part of this model. They follow the same pattern without extra logic:
  - in ConvertApi: `url_to_pdf`, `pdf_to_xml`, `pdf_to_html`, `pdf_to_csv`, `markdown_to_pdf`, `file_to_pdf`;
  - in MiscApi: `remove_blanks`, `orc_pdf`, `flatten`, `extract_images`, `decompress_pdf`, `auto_split_pdf`, `auto_rename`, `add_image`.
- `src/convert.py` is modelled only for `_get_filename` and `_save_file`, as module-level functions. Its other methods are not part of this model.
- `security.py`, `general.py`, `filter.py`, `client.py`, `main.py` and the tests are not part of this model.
- `scanner_effect` forwards its declared default `quality` "hight" as given. The server's reaction to it is outside the model.
- Http.ReasonPhrase: the table is the library's own. Two of its phrases, for 413 and 422, differ from the names in section 15 of RFC 9110 ("Content Too Large" and "Unprocessable Content"). The model follows the library.
- Filename.HeaderGet: for repeated headers it states only the empty and single-value cases. The ", " join is in the body but not in the contract.
- Arguments are always supplied by the caller. Declared defaults are modelled only where a property depends on them: the `output_format` defaults of `pdf_to_word`, `pdf_to_presentation` and `pdf_to_pdfa`, the `scanner_effect` and `add_stamp` option defaults, the `compress_pdf` size 25 and the stamp position. The other declared defaults are not modelled. These include `pdf_to_text`'s "rtf", the `pdf_to_img` and `img_to_pdf` settings, the `html_to_pdf` zoom 1.0 and the four `eml_to_pdf` flags.
- `add_stamp` puts the opened stamp image into the `data` form, not into `files`. The model keeps this. How httpx would encode a file object there is outside the model.
