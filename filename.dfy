/** Filename extraction from a Content-Disposition header, as `get_filename`
    in stirling_pdf_client/utils.py does it: the first `filename=` or
    `filename*=` parameter (found by `re.search(r"filename\*?=([^;]+)", ...,
    re.IGNORECASE)`), trimmed of spaces and quotes, with an RFC 5987 section 3.2
    `UTF-8''` prefix stripped and the rest percent-decoded (RFC 3986 section 2.1),
    and then every character of `<>:"/\|?*` replaced by `_`. */
module Filename {
  import opened Common

  /** The default name, spelled as the source spells it. */
  const DEFAULT_FILENAME := "unkown_filename"

  const KEYWORD := "filename"

  /** A response's header list: (name, value) pairs in the order received. */
  type Headers = seq<(string, string)>

  /** The values of every header whose name equals `name` ignoring ASCII case. */
  function HeaderValues(headers: Headers, name: string): (vs: seq<string>)
    ensures |vs| <= |headers|
  {
    if headers == [] then []
    else (if Lower(headers[0].0) == Lower(name) then [headers[0].1] else [])
         + HeaderValues(headers[1..], name)
  }

  function JoinComma(vs: seq<string>): string
  {
    if vs == [] then "" else if |vs| == 1 then vs[0] else vs[0] + ", " + JoinComma(vs[1..])
  }

  /** `headers.get(name, default)` on a case-insensitive multi-valued header map:
      repeated headers are joined with ", ". */
  function HeaderGet(headers: Headers, name: string, default: string): (v: string)
    ensures HeaderValues(headers, name) == [] ==> v == default
    ensures |HeaderValues(headers, name)| == 1 ==> v == HeaderValues(headers, name)[0]
  {
    var vs := HeaderValues(headers, name);
    if vs == [] then default else JoinComma(vs)
  }

  // ---------------------------------------------------------------------------
  // The regular expression `filename\*?=([^;]+)`, case-insensitive

  /** `filename` (ignoring ASCII case) starts at `i`. */
  predicate KeywordAt(s: string, i: nat)
  {
    i + |KEYWORD| <= |s| && Lower(s[i..i + |KEYWORD|]) == KEYWORD
  }

  /** Where `=` must stand: after the keyword and the optional `*`. */
  function EqualsIndex(s: string, i: nat): (e: nat)
    requires KeywordAt(s, i)
    ensures i + |KEYWORD| <= e <= |s|
  {
    if i + |KEYWORD| < |s| && s[i + |KEYWORD|] == '*' then i + |KEYWORD| + 1 else i + |KEYWORD|
  }

  /** The regular expression matches at `i`: keyword, optional `*`, `=`, and at
      least one character that is not `;`. */
  predicate ParamAt(s: string, i: nat)
  {
    KeywordAt(s, i) &&
    var e := EqualsIndex(s, i);
    e + 1 < |s| && s[e] == '=' && s[e + 1] != ';'
  }

  /** The end of the run of non-`;` characters that starts at `k`. */
  function RunEnd(s: string, k: nat): (e: nat)
    requires k <= |s|
    ensures k <= e <= |s|
    ensures forall j :: k <= j < e ==> s[j] != ';'
    ensures e < |s| ==> s[e] == ';'
    decreases |s| - k
  {
    if k == |s| || s[k] == ';' then k else RunEnd(s, k + 1)
  }

  /** The text of group 1 for a match at `i`: everything after `=` up to the next `;`. */
  function Capture(s: string, i: nat): (v: string)
    requires ParamAt(s, i)
    ensures |v| >= 1
    ensures forall j :: 0 <= j < |v| ==> v[j] != ';'
  {
    var e := EqualsIndex(s, i);
    s[e + 1..RunEnd(s, e + 1)]
  }

  /** `i` is the leftmost match at or after `from`. */
  predicate FirstParamFrom(s: string, from: nat, i: nat)
  {
    from <= i < |s| && ParamAt(s, i) && forall j :: from <= j < i ==> !ParamAt(s, j)
  }

  /** `re.search`: the leftmost position at or after `from` where the expression matches. */
  function SearchParam(s: string, from: nat): (r: Option<nat>)
    ensures r.Some? ==> FirstParamFrom(s, from, r.value)
    ensures r.None? ==> forall j :: from <= j < |s| ==> !ParamAt(s, j)
    decreases |s| - from
  {
    if from >= |s| then None
    else if ParamAt(s, from) then Some(from)
    else SearchParam(s, from + 1)
  }

  // ---------------------------------------------------------------------------
  // `.strip(" \"'")`

  predicate IsTrimmed(c: char) { c == ' ' || c == '"' || c == '\'' }

  function TrimLeft(s: string): (r: string)
    ensures |r| <= |s| && r == s[|s| - |r|..]
    ensures forall j :: 0 <= j < |s| - |r| ==> IsTrimmed(s[j])
    ensures r != [] ==> !IsTrimmed(r[0])
  {
    if s != [] && IsTrimmed(s[0]) then TrimLeft(s[1..]) else s
  }

  function TrimRight(s: string): (r: string)
    ensures |r| <= |s| && r == s[..|r|]
    ensures forall j :: |r| <= j < |s| ==> IsTrimmed(s[j])
    ensures r != [] ==> !IsTrimmed(r[|r| - 1])
  {
    if s != [] && IsTrimmed(s[|s| - 1]) then TrimRight(s[..|s| - 1]) else s
  }

  /** Strips spaces and both kinds of quote from both ends: the result is the
      middle slice of `s` whose ends are not such characters, and everything
      cut away is such a character. */
  function Strip(s: string): (r: string)
    ensures r != [] ==> !IsTrimmed(r[0]) && !IsTrimmed(r[|r| - 1])
  {
    TrimRight(TrimLeft(s))
  }

  /** What strip removes: the result is a middle slice of `s` and everything
      cut away on either side is a space or a quote. */
  lemma StripIsMiddleSlice(s: string)
    ensures exists a, b :: 0 <= a <= b <= |s| && Strip(s) == s[a..b]
                           && (forall j :: 0 <= j < a ==> IsTrimmed(s[j]))
                           && (forall j :: b <= j < |s| ==> IsTrimmed(s[j]))
  {
    var l := TrimLeft(s);
    var r := TrimRight(l);
    assert r == s[|s| - |l|..|s| - |l| + |r|];
  }

  // ---------------------------------------------------------------------------
  // Percent-decoding (`urllib.parse.unquote`), ASCII escapes only

  predicate IsHex(c: char)
  {
    '0' <= c <= '9' || 'a' <= c <= 'f' || 'A' <= c <= 'F'
  }

  function HexValue(c: char): (v: nat)
    requires IsHex(c)
    ensures v < 16
  {
    if '0' <= c <= '9' then (c - '0') as nat
    else if 'a' <= c <= 'f' then (c - 'a') as nat + 10
    else (c - 'A') as nat + 10
  }

  /** `%XX` at the start of `s` names an ASCII character. */
  predicate AsciiEscapeAt(s: string, i: nat)
  {
    i + 3 <= |s| && s[i] == '%' && IsHex(s[i + 1]) && IsHex(s[i + 2])
    && 16 * HexValue(s[i + 1]) + HexValue(s[i + 2]) < 128
  }

  function EscapedChar(s: string, i: nat): char
    requires AsciiEscapeAt(s, i)
  {
    (16 * HexValue(s[i + 1]) + HexValue(s[i + 2])) as char
  }

  /** Replaces every `%XX` escape of an ASCII character by that character and
      keeps everything else as it is. */
  function PercentDecode(s: string): (r: string)
    ensures |r| <= |s|
    decreases |s|
  {
    if s == [] then []
    else if AsciiEscapeAt(s, 0) then [EscapedChar(s, 0)] + PercentDecode(s[3..])
    else [s[0]] + PercentDecode(s[1..])
  }

  /** The unreserved characters of RFC 3986 section 2.3. */
  predicate IsUnreserved(c: char)
  {
    'a' <= c <= 'z' || 'A' <= c <= 'Z' || '0' <= c <= '9' || c == '-' || c == '.' || c == '_' || c == '~'
  }

  function HexDigit(v: nat): (c: char)
    requires v < 16
    ensures IsHex(c) && HexValue(c) == v
  {
    if v < 10 then '0' + v as char else 'A' + (v - 10) as char
  }

  /** Percent-encoding of an ASCII string, RFC 3986 section 2.1: every character
      but the unreserved ones becomes `%` and two upper-case hex digits. */
  function PercentEncode(s: string): (r: string)
    requires forall i :: 0 <= i < |s| ==> s[i] < 128 as char
  {
    if s == [] then []
    else if IsUnreserved(s[0]) then [s[0]] + PercentEncode(s[1..])
    else ['%', HexDigit(s[0] as nat / 16), HexDigit(s[0] as nat % 16)] + PercentEncode(s[1..])
  }

  /** Decoding undoes encoding for every ASCII string. */
  lemma {:induction false} PercentRoundTrip(s: string)
    requires forall i :: 0 <= i < |s| ==> s[i] < 128 as char
    ensures PercentDecode(PercentEncode(s)) == s
  {
    if s != [] {
      var rest := PercentEncode(s[1..]);
      PercentRoundTrip(s[1..]);
      if IsUnreserved(s[0]) {
        var t := [s[0]] + rest;
        assert t[1..] == rest;
      } else {
        var v := s[0] as nat;
        var t := ['%', HexDigit(v / 16), HexDigit(v % 16)] + rest;
        assert AsciiEscapeAt(t, 0) && EscapedChar(t, 0) == s[0];
        assert t[3..] == rest;
      }
    }
  }

  // ---------------------------------------------------------------------------
  // The RFC 5987 `UTF-8''` prefix and the sanitisation

  /** Only the two exact spellings are recognised. */
  predicate HasUtf8Prefix(v: string)
  {
    |v| >= 7 && (v[..7] == "UTF-8''" || v[..7] == "utf-8''")
  }

  function DecodeExtValue(v: string): string
  {
    if HasUtf8Prefix(v) then PercentDecode(v[7..]) else v
  }

  /** The characters `re.sub(r'[<>:"/\\|?*]', "_", ...)` replaces. */
  predicate IsIllegal(c: char)
  {
    c in {'<', '>', ':', '"', '/', '\\', '|', '?', '*'}
  }

  predicate NoIllegal(s: string)
  {
    forall i :: 0 <= i < |s| ==> !IsIllegal(s[i])
  }

  /** Every illegal character becomes `_`, every other character stays. */
  function Sanitise(s: string): (r: string)
    ensures |r| == |s|
    ensures forall i :: 0 <= i < |s| ==> r[i] == if IsIllegal(s[i]) then '_' else s[i]
  {
    if s == [] then [] else [if IsIllegal(s[0]) then '_' else s[0]] + Sanitise(s[1..])
  }

  lemma SanitiseIsSafe(s: string)
    ensures NoIllegal(Sanitise(s))
  {
  }

  /** Sanitising twice changes nothing more, and a name that is already safe is kept. */
  lemma SanitiseIdempotent(s: string)
    ensures Sanitise(Sanitise(s)) == Sanitise(s)
    ensures NoIllegal(s) <==> Sanitise(s) == s
  {
    if !NoIllegal(s) {
      var i :| 0 <= i < |s| && IsIllegal(s[i]);
      assert Sanitise(s)[i] != s[i];
    }
  }

  // ---------------------------------------------------------------------------
  // get_filename

  /** The file name carried by a Content-Disposition value, if it has a
      `filename`/`filename*` parameter. */
  function FilenameFromDisposition(cd: string): (r: Option<string>)
    ensures r.Some? ==> NoIllegal(r.value)
  {
    match SearchParam(cd, 0)
    case None => None
    case Some(i) => Some(Sanitise(DecodeExtValue(Strip(Capture(cd, i)))))
  }

  /** There is a name exactly when the expression matches somewhere, and the
      name is the cleaned-up capture of the leftmost match. */
  lemma DispositionSearch(cd: string)
    ensures FilenameFromDisposition(cd).None? <==> forall i :: 0 <= i < |cd| ==> !ParamAt(cd, i)
    ensures FilenameFromDisposition(cd).Some? ==>
              exists i :: FirstParamFrom(cd, 0, i)
                          && FilenameFromDisposition(cd).value == Sanitise(DecodeExtValue(Strip(Capture(cd, i))))
  {
  }

  /** `get_filename(resp, default_filename)`. */
  function GetFilename(headers: Headers, defaultFilename: string): (r: string)
    ensures r == defaultFilename || NoIllegal(r)
  {
    var cd := HeaderGet(headers, "content-disposition", "");
    if cd != "" then
      match FilenameFromDisposition(cd)
      case Some(name) => name
      case None => defaultFilename
    else defaultFilename
  }

  /** The name comes from the Content-Disposition value when that has a
      parameter, otherwise it is the default. */
  lemma GetFilenameCases(headers: Headers, defaultFilename: string)
    ensures match FilenameFromDisposition(HeaderGet(headers, "content-disposition", ""))
            case None => GetFilename(headers, defaultFilename) == defaultFilename
            case Some(name) => GetFilename(headers, defaultFilename) == name
  {
  }

  /** Without a Content-Disposition header the default is returned. */
  lemma NoDispositionGivesDefault(headers: Headers, defaultFilename: string)
    requires HeaderValues(headers, "content-disposition") == []
    ensures GetFilename(headers, defaultFilename) == defaultFilename
  {
  }

  /** The default name is an ordinary single path component. */
  lemma DefaultNameIsPlain()
    ensures NoIllegal(DEFAULT_FILENAME)
    ensures DEFAULT_FILENAME != "" && DEFAULT_FILENAME != "." && DEFAULT_FILENAME != ".."
  {
    assert |DEFAULT_FILENAME| == 15;
    forall i | 0 <= i < 15 ensures !IsIllegal(DEFAULT_FILENAME[i]) {
    }
  }

  /** With the default name, the result never holds a character of `<>:"/\|?*`. */
  lemma GetFilenameIsSafe(headers: Headers)
    ensures NoIllegal(GetFilename(headers, DEFAULT_FILENAME))
  {
    DefaultNameIsPlain();
  }

  /** Text without an upper-case ASCII letter is its own lower-case form. */
  lemma LowerKeeps(s: string)
    requires forall i :: 0 <= i < |s| ==> !('A' <= s[i] <= 'Z')
    ensures Lower(s) == s
  {
  }

  /** Text that starts with `filename` has the keyword at 0. */
  lemma KeywordLeads(cd: string, rest: string)
    requires cd == KEYWORD + rest
    ensures KeywordAt(cd, 0) && cd[|KEYWORD|..] == rest
  {
    assert cd[..|KEYWORD|] == KEYWORD;
    LowerKeeps(KEYWORD);
  }

  /** A disposition that starts with the parameter matches at 0, with `=` as
      the last character of the parameter name. */
  lemma LeadingMatch(cd: string, head: string, v: string, tail: string)
    requires head == "filename=" || head == "filename*="
    requires cd == head + v + tail
    requires |v| >= 1 && forall j :: 0 <= j < |v| ==> v[j] != ';'
    ensures ParamAt(cd, 0) && EqualsIndex(cd, 0) == |head| - 1
  {
    var rest := head[|KEYWORD|..] + v + tail;
    assert cd == KEYWORD + rest;
    KeywordLeads(cd, rest);
    var k := |KEYWORD|;
    assert cd[k] == rest[0] && cd[k + 1] == rest[1];
    if head == "filename=" {
      assert rest[0] == '=' && rest[1] == v[0];
    } else {
      assert cd[k + 2] == rest[2];
      assert rest[0] == '*' && rest[1] == '=' && rest[2] == v[0];
    }
  }

  /** The captured group of such a disposition is the text up to the `;`. */
  lemma LeadingCapture(cd: string, head: string, v: string, tail: string)
    requires head == "filename=" || head == "filename*="
    requires cd == head + v + tail
    requires |v| >= 1 && forall j :: 0 <= j < |v| ==> v[j] != ';'
    requires tail == [] || tail[0] == ';'
    ensures ParamAt(cd, 0) && Capture(cd, 0) == v
  {
    LeadingMatch(cd, head, v, tail);
    var k := |head|;
    assert cd[k..k + |v|] == v;
    assert forall j :: k <= j < k + |v| ==> cd[j] == v[j - k];
    assert k + |v| < |cd| ==> cd[k + |v|] == tail[0];
    assert RunEnd(cd, k) == k + |v|;
  }

  /** A disposition that starts with the parameter: its value is the text after
      `=` up to the first `;`. */
  lemma LeadingParameter(cd: string, head: string, v: string, tail: string)
    requires head == "filename=" || head == "filename*="
    requires cd == head + v + tail
    requires |v| >= 1 && forall j :: 0 <= j < |v| ==> v[j] != ';'
    requires tail == [] || tail[0] == ';'
    ensures FilenameFromDisposition(cd) == Some(Sanitise(DecodeExtValue(Strip(v))))
  {
    LeadingCapture(cd, head, v, tail);
    assert SearchParam(cd, 0) == Some(0);
  }

  /** Quotes around a name are stripped. */
  lemma {:induction false} StripQuoted(v: string)
    requires |v| >= 1 && !IsTrimmed(v[0]) && !IsTrimmed(v[|v| - 1])
    ensures Strip("\"" + v + "\"") == v
  {
    var q := "\"" + v + "\"";
    assert q[1..] == v + "\"";
    assert TrimLeft(q) == TrimLeft(v + "\"") == v + "\"";
    assert (v + "\"")[..|v|] == v;
    assert TrimRight(v + "\"") == TrimRight(v) == v;
  }

  /** A quoted plain name comes back unchanged, whatever parameters follow it:
      the first match wins even when a `filename*` comes later, which is the
      reverse of the preference in section 4.3 of RFC 6266. */
  lemma QuotedNameKept(v: string, tail: string)
    requires |v| >= 1 && !IsTrimmed(v[0]) && !IsTrimmed(v[|v| - 1])
    requires (forall j :: 0 <= j < |v| ==> v[j] != ';') && NoIllegal(v) && !HasUtf8Prefix(v)
    requires tail == [] || tail[0] == ';'
    ensures FilenameFromDisposition("filename=\"" + v + "\"" + tail) == Some(v)
  {
    var q := "\"" + v + "\"";
    assert "filename=\"" + v + "\"" + tail == "filename=" + q + tail;
    assert forall j :: 0 <= j < |q| ==> q[j] != ';' by {
      forall j | 0 <= j < |q| ensures q[j] != ';' {
        if 0 < j < |q| - 1 { assert q[j] == v[j - 1]; }
      }
    }
    LeadingParameter("filename=" + q + tail, "filename=", q, tail);
    StripQuoted(v);
    SanitiseIdempotent(v);
  }

  /** Every character percent-encoding produces is unreserved, `%` or a hex digit. */
  lemma {:induction false} EncodedAlphabet(s: string)
    requires forall i :: 0 <= i < |s| ==> s[i] < 128 as char
    ensures forall i :: 0 <= i < |PercentEncode(s)| ==> IsUnreserved(PercentEncode(s)[i]) || PercentEncode(s)[i] == '%'
    ensures |s| >= 1 ==> |PercentEncode(s)| >= 1 && IsUnreserved(PercentEncode(s)[|PercentEncode(s)| - 1])
  {
    if s != [] {
      EncodedAlphabet(s[1..]);
    }
  }

  /** A name sent as an RFC 5987 ext-value (`filename*=UTF-8''` and the
      percent-encoded name) is recovered, sanitised, for every ASCII name. */
  lemma ExtValueRoundTrip(cd: string, v: string, tail: string)
    requires |v| >= 1 && forall i :: 0 <= i < |v| ==> v[i] < 128 as char
    requires tail == [] || tail[0] == ';'
    requires cd == "filename*=UTF-8''" + PercentEncode(v) + tail
    ensures FilenameFromDisposition(cd) == Some(Sanitise(v))
  {
    EncodedAlphabet(v);
    ExtValueDecoded(cd, PercentEncode(v), tail);
    PercentRoundTrip(v);
  }

  /** An ext-value whose encoded part is unreserved characters and escapes is
      percent-decoded and sanitised. */
  lemma ExtValueDecoded(cd: string, enc: string, tail: string)
    requires cd == "filename*=UTF-8''" + enc + tail
    requires |enc| >= 1 && IsUnreserved(enc[|enc| - 1])
    requires forall i :: 0 <= i < |enc| ==> IsUnreserved(enc[i]) || enc[i] == '%'
    requires tail == [] || tail[0] == ';'
    ensures FilenameFromDisposition(cd) == Some(Sanitise(PercentDecode(enc)))
  {
    var w := "UTF-8''" + enc;
    ExtValueShape(enc, tail);
    assert cd == "filename*=" + w + tail;
    StripKeeps(w);
    Utf8Decoded(enc);
    LeadingParameter(cd, "filename*=", w, tail);
  }

  /** The ext-value parameter splits into `filename*=`, a value without `;`
      whose ends are not stripped, and the tail. */
  lemma ExtValueShape(enc: string, tail: string)
    requires |enc| >= 1 && IsUnreserved(enc[|enc| - 1])
    requires forall i :: 0 <= i < |enc| ==> IsUnreserved(enc[i]) || enc[i] == '%'
    ensures var w := "UTF-8''" + enc;
            "filename*=UTF-8''" + enc + tail == "filename*=" + w + tail
            && (forall j :: 0 <= j < |w| ==> w[j] != ';')
            && !IsTrimmed(w[0]) && !IsTrimmed(w[|w| - 1])
  {
    var w := "UTF-8''" + enc;
    var cd := "filename*=UTF-8''" + enc + tail;
    assert |cd| == |"filename*=" + w + tail|;
    forall j | 0 <= j < |cd| ensures cd[j] == ("filename*=" + w + tail)[j] {
      if j < 17 {
      } else if j < 17 + |enc| {
        assert cd[j] == enc[j - 17];
      } else {
        assert cd[j] == tail[j - 17 - |enc|];
      }
    }
    forall j | 0 <= j < |w| ensures w[j] != ';' {
      if j >= 7 { assert w[j] == enc[j - 7]; }
    }
    assert w[|w| - 1] == enc[|enc| - 1];
  }

  lemma StripKeeps(w: string)
    requires |w| >= 1 && !IsTrimmed(w[0]) && !IsTrimmed(w[|w| - 1])
    ensures Strip(w) == w
  {
  }

  lemma Utf8Decoded(enc: string)
    ensures DecodeExtValue("UTF-8''" + enc) == PercentDecode(enc)
  {
    var w := "UTF-8''" + enc;
    assert w[..7] == "UTF-8''" && w[7..] == enc;
  }

  lemma {:induction false} NoEscapeDecodesToItself(s: string)
    requires forall i :: 0 <= i < |s| ==> s[i] != '%'
    ensures PercentDecode(s) == s
  {
    if s != [] {
      NoEscapeDecodesToItself(s[1..]);
    }
  }

  /** A disposition without a file name parameter yields none. */
  lemma NoParameterExample()
    ensures FilenameFromDisposition("inline") == None
  {
  }
}
