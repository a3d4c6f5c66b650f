/** The file-name helpers of the media service (modules/media/service/utils.go),
    with the parts of Go's path/filepath, net/url and path packages they rely
    on. Strings are sequences of characters; the random prefix is a
    parameter. */
module MediaUtils {
  import opened Common

  // ---- filepath.Ext ----

  /** Go's filepath.Ext on a '/'-separated path: the suffix from the last '.'
      of the last path element, or "" when that element has no '.'. */
  function Ext(path: string): (r: string)
    ensures |r| <= |path| && r == path[|path| - |r|..]
    ensures r != "" ==> r[0] == '.'
    ensures forall i :: 0 <= i < |r| ==> r[i] != '/'
    ensures forall i :: 1 <= i < |r| ==> r[i] != '.'
    decreases |path|
  {
    if |path| == 0 then ""
    else
      var c := path[|path| - 1];
      if c == '/' then ""
      else if c == '.' then "."
      else
        var e := Ext(path[..|path| - 1]);
        if e == "" then "" else e + [c]
  }

  /** A name without '.' has no extension. */
  lemma {:induction false} ExtWithoutDot(name: string)
    requires forall i :: 0 <= i < |name| ==> name[i] != '.'
    ensures Ext(name) == ""
  {
    if |name| > 0 {
      ExtWithoutDot(name[..|name| - 1]);
    }
  }

  // ---- GenerateUniqueFileName ----

  /** The length of the random CookieFriendlyString prefix. */
  const PrefixLength: nat := 7

  /** GenerateUniqueFileName: `prefix_stem.ext`, where `.ext` is the name's
      extension and the stem is what precedes it. */
  function GenerateUniqueFileName(prefix: string, originalName: string): (r: string)
    ensures var ext := Ext(originalName);
      |r| >= |ext| && r[|r| - |ext|..] == ext
  {
    var ext := Ext(originalName);
    var name := originalName[..|originalName| - |ext|];
    prefix + "_" + name + ext
  }

  /** Cutting off the extension and putting it back changes nothing, so the
      generated name is the prefix, '_' and the whole original name; dropping
      the 7-character prefix and the '_' gives the original name back. */
  lemma GeneratedNameRoundTrip(prefix: string, originalName: string)
    requires |prefix| == PrefixLength
    ensures GenerateUniqueFileName(prefix, originalName) == prefix + "_" + originalName
    ensures GenerateUniqueFileName(prefix, originalName)[PrefixLength + 1..] == originalName
  {
    var ext := Ext(originalName);
    assert originalName[..|originalName| - |ext|] + ext == originalName;
  }

  /** A name without '.' yields exactly `prefix_name`. */
  lemma GeneratedNameWithoutDot(prefix: string, name: string)
    requires forall i :: 0 <= i < |name| ==> name[i] != '.'
    ensures GenerateUniqueFileName(prefix, name) == prefix + "_" + name
  {
    ExtWithoutDot(name);
    assert name[..|name|] == name;
  }

  // ---- the parts of url.Parse that decide Path ----

  /** The index of the first `c` in `s`, or |s| when there is none. */
  function IndexOf(s: string, c: char): (r: nat)
    ensures r <= |s|
    ensures forall i :: 0 <= i < r ==> s[i] != c
    ensures r < |s| ==> s[r] == c
  {
    if |s| == 0 then 0 else if s[0] == c then 0 else 1 + IndexOf(s[1..], c)
  }

  /** strings.Cut(s, c): the text before the first `c` and the text after it. */
  function Before(s: string, c: char): string
  {
    s[..IndexOf(s, c)]
  }

  function After(s: string, c: char): string
  {
    var i := IndexOf(s, c);
    if i < |s| then s[i + 1..] else ""
  }

  lemma CutWithout(s: string, c: char)
    requires forall i :: 0 <= i < |s| ==> s[i] != c
    ensures Before(s, c) == s && After(s, c) == ""
  {
    assert IndexOf(s, c) == |s|;
  }

  predicate IsCtl(c: char)
  {
    c < ' ' || c == 0x7f as char
  }

  predicate IsAlpha(c: char)
  {
    'a' <= c <= 'z' || 'A' <= c <= 'Z'
  }

  predicate IsHex(c: char)
  {
    '0' <= c <= '9' || 'a' <= c <= 'f' || 'A' <= c <= 'F'
  }

  function HexValue(c: char): nat
    requires IsHex(c)
  {
    if '0' <= c <= '9' then c as nat - '0' as nat
    else if 'a' <= c <= 'f' then c as nat - 'a' as nat + 10
    else c as nat - 'A' as nat + 10
  }

  /** Percent-decoding of a path or fragment: every '%' must start a two-digit
      hex escape, which becomes the character with that code. */
  function Unescape(s: string): (r: Option<string>)
    decreases |s|
  {
    if |s| == 0 then Some("")
    else if s[0] == '%' then
      if |s| < 3 || !IsHex(s[1]) || !IsHex(s[2]) then None
      else
        match Unescape(s[3..])
        case None => None
        case Some(t) => Some([(HexValue(s[1]) * 16 + HexValue(s[2])) as char] + t)
    else
      match Unescape(s[1..])
      case None => None
      case Some(t) => Some([s[0]] + t)
  }

  /** Text without '%' decodes to itself. */
  lemma {:induction false} UnescapePlain(s: string)
    requires forall i :: 0 <= i < |s| ==> s[i] != '%'
    ensures Unescape(s) == Some(s)
  {
    if |s| > 0 {
      UnescapePlain(s[1..]);
      assert [s[0]] + s[1..] == s;
    }
  }

  /** The outcome of getScheme. */
  datatype SchemeSplit = NoScheme | SchemeRest(scheme: string, rest: string) | MissingScheme

  /** getScheme from index `i` on, all earlier characters being scheme
      characters. */
  function ScanScheme(s: string, i: nat): SchemeSplit
    requires i <= |s|
    decreases |s| - i
  {
    if i == |s| then NoScheme
    else
      var c := s[i];
      if IsAlpha(c) then ScanScheme(s, i + 1)
      else if '0' <= c <= '9' || c == '+' || c == '-' || c == '.' then
        if i == 0 then NoScheme else ScanScheme(s, i + 1)
      else if c == ':' then
        if i == 0 then MissingScheme else SchemeRest(s[..i], s[i + 1..])
      else NoScheme
  }

  /** A run of letters followed by ':' is a scheme. */
  lemma {:induction false} LettersThenColon(s: string, i: nat, n: nat)
    requires i <= n < |s| && 0 < n
    requires forall k :: 0 <= k < n ==> IsAlpha(s[k])
    requires s[n] == ':'
    ensures ScanScheme(s, i) == SchemeRest(s[..n], s[n + 1..])
    decreases n - i
  {
    if i < n {
      LettersThenColon(s, i + 1, n);
    }
  }

  /** The fields of a parsed URL that decide the file name. */
  datatype Url = Url(scheme: string, opaquePart: string, path: string)

  /** url.Parse: None when the URL does not parse. The checks of the
      authority (user info, host, port) are not part of this model. */
  function ParseUrl(raw: string): Option<Url>
  {
    var u := Before(raw, '#');
    var fragment := After(raw, '#');
    if fragment != "" && Unescape(fragment).None? then None
    else ParseReference(u)
  }

  /** url.parse(u, false) for the fragment-free part. */
  function ParseReference(raw: string): Option<Url>
  {
    if exists i :: 0 <= i < |raw| && IsCtl(raw[i]) then None
    else if raw == "*" then Some(Url("", "", "*"))
    else
      var split := ScanScheme(raw, 0);
      if split.MissingScheme? then None
      else
        var scheme := if split.SchemeRest? then Lower(split.scheme) else "";
        var rest0 := if split.SchemeRest? then split.rest else raw;
        var rest := Before(rest0, '?');
        var rooted := |rest| > 0 && rest[0] == '/';
        if !rooted && scheme != "" then Some(Url(scheme, rest, ""))
        else if !rooted && exists i :: 0 <= i < |Before(rest, '/')| && Before(rest, '/')[i] == ':' then None
        else
          match Unescape(PathPart(scheme, rest))
          case None => None
          case Some(p) => Some(Url(scheme, "", p))
  }

  /** The still-escaped path: after a `//authority` when there is one. */
  function PathPart(scheme: string, rest: string): string
  {
    if (scheme != "" || !(|rest| >= 3 && rest[..3] == "///")) && |rest| >= 2 && rest[..2] == "//"
    then var authority := rest[2..]; authority[IndexOf(authority, '/')..]
    else rest
  }

  // ---- path.Base ----

  /** The text after the last '/' of `s` (all of `s` when it has none). */
  function AfterLastSlash(s: string): (r: string)
    ensures |r| <= |s| && r == s[|s| - |r|..]
    ensures forall i :: 0 <= i < |r| ==> r[i] != '/'
  {
    if |s| == 0 then ""
    else if s[|s| - 1] == '/' then ""
    else AfterLastSlash(s[..|s| - 1]) + [s[|s| - 1]]
  }

  function TrimTrailingSlashes(s: string): (r: string)
    ensures |r| <= |s| && r == s[..|r|]
    ensures |r| > 0 ==> r[|r| - 1] != '/'
  {
    if |s| > 0 && s[|s| - 1] == '/' then TrimTrailingSlashes(s[..|s| - 1]) else s
  }

  /** path.Base: "." for the empty path, "/" for a path of slashes, else the
      last element with trailing slashes removed. */
  function Base(p: string): (r: string)
    ensures r != ""
  {
    if p == "" then "."
    else
      var trimmed := TrimTrailingSlashes(p);
      var last := AfterLastSlash(trimmed);
      if last == "" then "/" else last
  }

  lemma {:induction false} AfterLastSlashOfSegment(dir: string, name: string)
    requires forall i :: 0 <= i < |name| ==> name[i] != '/'
    ensures AfterLastSlash(dir + "/" + name) == name
    decreases |name|
  {
    var s := dir + "/" + name;
    if |name| == 0 {
      assert s[|s| - 1] == '/';
    } else {
      assert s[..|s| - 1] == dir + "/" + name[..|name| - 1];
      AfterLastSlashOfSegment(dir, name[..|name| - 1]);
      assert name[..|name| - 1] + [name[|name| - 1]] == name;
    }
  }

  // ---- ExtractFileNameFromURL ----

  /** ExtractFileNameFromURL: "" for a URL that does not parse; otherwise the
      last element of the path, cut at its first '?'. */
  function ExtractFileNameFromURL(fileUrl: string): (r: string)
    ensures forall i :: 0 <= i < |r| ==> r[i] != '?'
    ensures ParseUrl(fileUrl).None? ==> r == ""
  {
    match ParseUrl(fileUrl)
    case None => ""
    case Some(u) => Before(Base(u.path), '?')
  }

  /** The host and the bucket folder of the public URLs built by the
      uploader. */
  const PublicHost: string := "f003.backblazeb2.com"
  const PublicUrlBase: string := "https://" + PublicHost + "/file/"

  /** The public URL of an uploaded object. */
  function PublicUrl(bucket: string, fileName: string): string
  {
    PublicUrlBase + bucket + "/" + fileName
  }

  /** Text that url.Parse leaves as it is: no query, fragment, escape or
      control character. */
  predicate NoUrlSpecials(s: string)
  {
    forall i :: 0 <= i < |s| ==> s[i] != '?' && s[i] != '#' && s[i] != '%' && !IsCtl(s[i])
  }

  /** A single path segment of such text. */
  predicate PlainSegment(s: string)
  {
    NoUrlSpecials(s) && forall i :: 0 <= i < |s| ==> s[i] != '/'
  }

  lemma NoUrlSpecialsConcat(a: string, b: string)
    requires NoUrlSpecials(a) && NoUrlSpecials(b)
    ensures NoUrlSpecials(a + b)
  {
    forall i | 0 <= i < |a + b| ensures (a + b)[i] != '?' && (a + b)[i] != '#' && (a + b)[i] != '%' && !IsCtl((a + b)[i]) {
      if i < |a| { assert (a + b)[i] == a[i]; } else { assert (a + b)[i] == b[i - |a|]; }
    }
  }

  /** A URL with a scheme, no query and a rooted rest parses to the
      percent-decoded path part. */
  lemma RootedUrlWithScheme(raw: string, scheme: string, rest: string)
    requires NoUrlSpecials(raw) && NoUrlSpecials(rest)
    requires raw != "*" && scheme != ""
    requires ScanScheme(raw, 0) == SchemeRest(scheme, rest)
    requires |rest| > 0 && rest[0] == '/'
    requires Unescape(PathPart(Lower(scheme), rest)).Some?
    ensures ParseUrl(raw) == Some(Url(Lower(scheme), "", Unescape(PathPart(Lower(scheme), rest)).value))
  {
    CutWithout(raw, '#');
    CutWithout(rest, '?');
    assert Lower(scheme) != "";
  }

  /** The path part after `//host` is what follows the host. */
  lemma PathAfterHost(scheme: string, host: string, tail: string)
    requires scheme != ""
    requires forall i :: 0 <= i < |host| ==> host[i] != '/'
    requires |tail| > 0 && tail[0] == '/'
    ensures PathPart(scheme, "//" + host + tail) == tail
  {
    var rest := "//" + host + tail;
    assert rest[..2] == "//";
    var authority := rest[2..];
    assert authority == host + tail;
    assert authority[|host|] == '/';
    assert forall i :: 0 <= i < |host| ==> authority[i] == host[i];
    assert IndexOf(authority, '/') == |host|;
    assert authority[|host|..] == tail;
  }

  /** The constant host and folder text holds no URL special character. */
  lemma PublicUrlBasePlain()
    ensures NoUrlSpecials("https:") && NoUrlSpecials("//" + PublicHost)
    ensures NoUrlSpecials("/file/")
    ensures forall i :: 0 <= i < |PublicHost| ==> PublicHost[i] != '/'
  {
  }

  /** The pieces of the public URL: scheme, `//host` and a rooted, plain tail. */
  lemma PublicUrlPieces(bucket: string, fileName: string)
    requires PlainSegment(bucket) && PlainSegment(fileName)
    ensures var tail := "/file/" + bucket + "/" + fileName;
      && PublicUrl(bucket, fileName) == "https:" + ("//" + PublicHost + tail)
      && NoUrlSpecials(tail) && NoUrlSpecials("//" + PublicHost + tail)
      && NoUrlSpecials(PublicUrl(bucket, fileName))
  {
    PublicUrlBasePlain();
    var tail := "/file/" + bucket + "/" + fileName;
    NoUrlSpecialsConcat("/file/", bucket);
    NoUrlSpecialsConcat("/file/" + bucket, "/");
    NoUrlSpecialsConcat("/file/" + bucket + "/", fileName);
    NoUrlSpecialsConcat("//" + PublicHost, tail);
    NoUrlSpecialsConcat("https:", "//" + PublicHost + tail);
    assert PublicUrl(bucket, fileName) == "https:" + ("//" + PublicHost + tail);
  }

  /** The public URL scans as scheme "https" and the text after the colon. */
  lemma PublicUrlScheme(raw: string, rest: string)
    requires raw == "https:" + rest
    ensures ScanScheme(raw, 0) == SchemeRest("https", rest)
  {
    LettersThenColon(raw, 0, 5);
    assert raw[..5] == "https";
    assert raw[6..] == rest;
  }

  /** The URL the uploader builds parses, and its path is the object's path
      under the host. */
  lemma PublicUrlPath(bucket: string, fileName: string)
    requires PlainSegment(bucket) && PlainSegment(fileName)
    ensures ParseUrl(PublicUrl(bucket, fileName)) == Some(Url(Lower("https"), "", "/file/" + bucket + "/" + fileName))
  {
    var raw := PublicUrl(bucket, fileName);
    var tail := "/file/" + bucket + "/" + fileName;
    var rest := "//" + PublicHost + tail;
    PublicUrlPieces(bucket, fileName);
    PublicUrlScheme(raw, rest);
    PathAfterHost(Lower("https"), PublicHost, tail);
    UnescapePlain(tail);
    assert raw != "*";
    RootedUrlWithScheme(raw, "https", rest);
  }

  /** Extracting the file name from the URL the uploader builds gives back
      the stored file name. */
  lemma ExtractInvertsPublicUrl(bucket: string, fileName: string)
    requires PlainSegment(bucket) && PlainSegment(fileName) && fileName != ""
    ensures ExtractFileNameFromURL(PublicUrl(bucket, fileName)) == fileName
  {
    var tail := "/file/" + bucket + "/" + fileName;
    PublicUrlPath(bucket, fileName);
    AfterLastSlashOfSegment("/file/" + bucket, fileName);
    assert TrimTrailingSlashes(tail) == tail;
    CutWithout(fileName, '?');
  }

  /** So a generated name survives upload and extraction. */
  lemma GeneratedNameSurvivesUpload(bucket: string, prefix: string, originalName: string)
    requires |prefix| == PrefixLength
    requires PlainSegment(bucket) && PlainSegment(prefix) && PlainSegment(originalName)
    ensures ExtractFileNameFromURL(PublicUrl(bucket, GenerateUniqueFileName(prefix, originalName)))
            == GenerateUniqueFileName(prefix, originalName)
  {
    GeneratedNameRoundTrip(prefix, originalName);
    var g := prefix + "_" + originalName;
    assert PlainSegment(g) by {
      forall i | 0 <= i < |g| ensures g[i] != '/' && g[i] != '?' && g[i] != '#' && g[i] != '%' && !IsCtl(g[i]) {
        if i < |prefix| { assert g[i] == prefix[i]; }
        else if i > |prefix| { assert g[i] == originalName[i - |prefix| - 1]; }
      }
    }
    ExtractInvertsPublicUrl(bucket, g);
  }
}
