/** The older copies of the filename and saving helpers, `_get_filename` and
    `_save_file` of the ConvertApi in src/convert.py, written out again step by
    step and shown to behave exactly as the utils versions. */
module Legacy {
  import opened Common
  import opened Http
  import F = Filename
  import D = Disk

  /** The default of `_get_filename`, spelled (and misspelled) as in the utils copy. */
  const LEGACY_DEFAULT := "unkown_filename"

  /** `_get_filename(resp, default_filename)`: header lookup, first match of the
      expression, stripping, the two `UTF-8''` spellings with seven characters
      dropped before decoding, and sanitising. */
  function GetFilename(headers: F.Headers, defaultFilename: string := LEGACY_DEFAULT): (r: string)
    ensures F.HeaderValues(headers, "content-disposition") == [] ==> r == defaultFilename
    ensures r != defaultFilename ==> F.NoIllegal(r)
  {
    var cd := F.HeaderGet(headers, "content-disposition", "");
    if cd == "" then defaultFilename
    else
      match F.SearchParam(cd, 0)
      case None => defaultFilename
      case Some(i) =>
        var name := F.Strip(F.Capture(cd, i));
        F.SanitiseIsSafe(Unquoted(name));
        F.Sanitise(Unquoted(name))
  }

  /** The value with either `UTF-8''` spelling removed and percent-decoded. */
  function Unquoted(name: string): string
  {
    if |name| >= 7 && (name[..7] == "UTF-8''" || name[..7] == "utf-8''") then F.PercentDecode(name[7..])
    else name
  }

  /** Both copies give the same name for every header list and every default,
      and they share the default. */
  lemma SameAsUtils(headers: F.Headers, defaultFilename: string)
    ensures GetFilename(headers, defaultFilename) == F.GetFilename(headers, defaultFilename)
    ensures LEGACY_DEFAULT == F.DEFAULT_FILENAME
  {
    var cd := F.HeaderGet(headers, "content-disposition", "");
    if cd != "" {
      SameOnDisposition(cd);
    }
  }

  /** On a non-empty Content-Disposition value both copies find the same name. */
  lemma SameOnDisposition(cd: string)
    ensures match F.SearchParam(cd, 0)
            case None => F.FilenameFromDisposition(cd) == None
            case Some(i) => F.FilenameFromDisposition(cd) == Some(F.Sanitise(Unquoted(F.Strip(F.Capture(cd, i)))))
  {
    match F.SearchParam(cd, 0)
    case None =>
    case Some(i) =>
      var name := F.Strip(F.Capture(cd, i));
      assert Unquoted(name) == F.DecodeExtValue(name);
  }

  /** `_save_file(resp, out_path)`. */
  method SaveFile(fs: D.FileSystem, resp: Response, outPath: Common.Path) returns (o: Outcome)
    modifies fs`files
    ensures (fs.State(), o) == D.SaveSpec(old(fs.State()), resp, outPath)
  {
    var target := outPath;
    if !fs.IsFile(outPath) {
      var filename := GetFilename(resp.headers);
      SameAsUtils(resp.headers, LEGACY_DEFAULT);
      target := D.Join(outPath, filename);
    }
    o := fs.Write(target, resp.content);
  }
}
