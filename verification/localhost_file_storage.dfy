/**
 * The local file-system storage backend (src/services/file/localhostFileStorage.ts):
 * the upload directory, the containment check that guards every read and
 * write, and the download URL. Paths follow POSIX: the separator is `/`.
 */
module LocalhostFileStorage {
  import opened Wrappers

  /** `path.sep` on POSIX. */
  const Sep := '/'

  /**
   * The process's surroundings: `os.tmpdir()`, `appRootPath.path`, and the
   * `BACKEND_URL` and `FILE_STORAGE_PATH` settings (absent or empty when unset).
   */
  datatype Host = Host(tmpdir: string, appRoot: string, backendUrl: string, fileStoragePath: Option<string>)

  // ---------------------------------------------------------------------
  // getRealPath
  // ---------------------------------------------------------------------

  const AppRootPattern := "{APP_ROOT}"

  /** `pattern` occurs in `s` at index `i`. */
  predicate OccursAt(s: string, pattern: string, i: int) {
    0 <= i && i + |pattern| <= |s| && forall k :: 0 <= k < |pattern| ==> s[i + k] == pattern[k]
  }

  /** `s.replace(/pattern/g, replacement)`: every occurrence, left to right, without overlap. */
  function ReplaceAll(s: string, pattern: string, replacement: string): (r: string)
    requires pattern != ""
    ensures (forall i :: !OccursAt(s, pattern, i)) ==> r == s
    decreases |s|
  {
    if |s| < |pattern| then s
    else if OccursAt(s, pattern, 0) then
      replacement + ReplaceAll(s[|pattern|..], pattern, replacement)
    else
      assert forall i :: OccursAt(s[1..], pattern, i) ==> OccursAt(s, pattern, i + 1);
      [s[0]] + ReplaceAll(s[1..], pattern, replacement)
  }

  /** `.replace(/\//g, path.sep).replace(/\\/g, path.sep)`. */
  function ToSeparators(s: string): (r: string)
    ensures |r| == |s|
    ensures forall i :: 0 <= i < |s| ==> r[i] == (if s[i] == '/' || s[i] == '\\' then Sep else s[i])
  {
    seq(|s|, i requires 0 <= i < |s| => if s[i] == '/' || s[i] == '\\' then Sep else s[i])
  }

  /** The replacements of `getRealPath`, applied in order. */
  function ApplyAll(s: string, patterns: seq<(string, string)>): string
    requires forall i :: 0 <= i < |patterns| ==> patterns[i].0 != ""
    decreases |patterns|
  {
    if patterns == [] then s
    else ApplyAll(ReplaceAll(s, patterns[0].0, patterns[0].1), patterns[1..])
  }

  function Patterns(appRoot: string): seq<(string, string)> {
    [(AppRootPattern, appRoot)]
  }

  /**
   * What `getRealPath` computes: a missing or empty url as it is; otherwise
   * a path without backslashes, which is the url with its separators
   * unified when it holds no `{APP_ROOT}`.
   */
  function RealPath(url: Option<string>, appRoot: string): (r: Option<string>)
    ensures (url.None? || url.value == "") ==> r == url
    ensures url.Some? && url.value != "" ==> r.Some? && '\\' !in r.value
    ensures url.Some? && url.value != "" && (forall i :: !OccursAt(url.value, AppRootPattern, i)) ==>
      r == Some(ToSeparators(url.value))
  {
    if url.None? || url.value == "" then url
    else Some(ToSeparators(ReplaceAll(url.value, AppRootPattern, appRoot)))
  }

  /**
   * `getRealPath(url)`: a missing or empty url is answered as it is;
   * otherwise every `{APP_ROOT}` becomes the application root and every
   * slash and backslash the platform separator.
   */
  method GetRealPath(url: Option<string>, appRoot: string) returns (r: Option<string>)
    ensures r == RealPath(url, appRoot)
    ensures (url.None? || url.value == "") ==> r == url
    ensures r.Some? && url.value != "" ==> '\\' !in r.value
  {
    if url.None? || url.value == "" {
      return url;
    }
    var patterns := Patterns(appRoot);
    var result := url.value;
    for i := 0 to |patterns|
      invariant ApplyAll(url.value, patterns) == ApplyAll(result, patterns[i..])
    {
      assert patterns[i..][1..] == patterns[i + 1..];
      result := ReplaceAll(result, patterns[i].0, patterns[i].1);
    }
    assert patterns[|patterns|..] == [];
    r := Some(ToSeparators(result));
    assert forall i :: 0 <= i < |r.value| ==> r.value[i] != '\\';
  }

  /** `getRealPath(FILE_STORAGE_PATH) || os.tmpdir()`. */
  function UploadDir(host: Host): (dir: string)
    ensures (host.fileStoragePath.None? || host.fileStoragePath.value == "") ==> dir == host.tmpdir
    ensures dir != host.tmpdir ==> Some(dir) == RealPath(host.fileStoragePath, host.appRoot)
  {
    var resolved := RealPath(host.fileStoragePath, host.appRoot);
    if resolved.None? || resolved.value == "" then host.tmpdir else resolved.value
  }

  // ---------------------------------------------------------------------
  // path.join, as Node implements it on POSIX
  // ---------------------------------------------------------------------

  /** `s.split('/')`. */
  function Split(s: string): (parts: seq<string>)
    ensures |parts| >= 1
  {
    if s == [] then [""]
    else
      var init := Split(s[..|s| - 1]);
      var c := s[|s| - 1];
      if c == '/' then init + [""]
      else init[..|init| - 1] + [init[|init| - 1] + [c]]
  }

  /** `parts.join('/')`. */
  function JoinSegments(parts: seq<string>): string {
    if parts == [] then ""
    else if |parts| == 1 then parts[0]
    else JoinSegments(parts[..|parts| - 1]) + "/" + parts[|parts| - 1]
  }

  /** One segment of `normalizeString`: empty and `.` segments vanish, `..` climbs. */
  function Step(stack: seq<string>, segment: string, allowAboveRoot: bool): seq<string> {
    if segment == "" || segment == "." then stack
    else if segment == ".." then
      if stack != [] && stack[|stack| - 1] != ".." then stack[..|stack| - 1]
      else if allowAboveRoot then stack + [".."]
      else stack
    else stack + [segment]
  }

  /** `normalizeString` on the segments, left to right. */
  function Resolve(segments: seq<string>, allowAboveRoot: bool): seq<string> {
    if segments == [] then []
    else Step(Resolve(segments[..|segments| - 1], allowAboveRoot), segments[|segments| - 1], allowAboveRoot)
  }

  /** `path.normalize(p)`. */
  function Normalize(p: string): string {
    if p == "" then "."
    else
      var isAbsolute := p[0] == '/';
      var trailingSeparator := p[|p| - 1] == '/';
      var body := JoinSegments(Resolve(Split(p), !isAbsolute));
      if body == "" then (if isAbsolute then "/" else if trailingSeparator then "./" else ".")
      else
        var withTrailing := if trailingSeparator then body + "/" else body;
        if isAbsolute then "/" + withTrailing else withTrailing
  }

  /** A normalized path is never empty, and a rooted path stays rooted. */
  lemma NormalizeKeepsRoot(p: string)
    requires p != ""
    ensures Normalize(p) != ""
    ensures p[0] == Sep ==> Normalize(p)[0] == Sep
  {
  }

  /** `path.join(a, b)`: the non-empty arguments joined by `/`, normalized. */
  function Join(a: string, b: string): (p: string)
    ensures p != ""
    ensures a != "" && a[0] == Sep ==> p[0] == Sep
  {
    var joined := if a == "" then b else if b == "" then a else a + "/" + b;
    if joined == "" then "." else
      NormalizeKeepsRoot(joined);
      Normalize(joined)
  }

  // ---------------------------------------------------------------------
  // The storage operations
  // ---------------------------------------------------------------------

  /**
   * `internalUrl(privateUrl)`: `path.join(UPLOAD_DIR, privateUrl)`, a path
   * that is never empty and is absolute whenever the upload directory is.
   */
  function InternalUrl(host: Host, privateUrl: string): (p: string)
    ensures p != ""
    ensures UploadDir(host) != "" && UploadDir(host)[0] == Sep ==> p[0] == Sep
  {
    Join(UploadDir(host), privateUrl)
  }

  /**
   * `filePath` starts with `dir`, given a trailing separator when it has
   * none: the path begins with the directory, and continues past a
   * separator when the directory does not end with one.
   */
  predicate IsBelow(dir: string, filePath: string): (below: bool)
    ensures below ==> |dir| <= |filePath| && filePath[..|dir|] == dir
    ensures below && (dir == [] || dir[|dir| - 1] != Sep) ==> |dir| < |filePath| && filePath[|dir|] == Sep
  {
    var withSlash := if |dir| > 0 && dir[|dir| - 1] == Sep then dir else dir + [Sep];
    |withSlash| <= |filePath| && filePath[..|withSlash|] == withSlash
  }

  /**
   * `isPathInsideUploadDir(filePath)`: the path begins with the upload
   * directory and, when that has no trailing separator, goes on past one.
   */
  predicate IsPathInsideUploadDir(host: Host, filePath: string): (inside: bool)
    ensures inside ==> |UploadDir(host)| <= |filePath| && filePath[..|UploadDir(host)|] == UploadDir(host)
    ensures inside && (UploadDir(host) == [] || UploadDir(host)[|UploadDir(host)| - 1] != Sep) ==>
      |UploadDir(host)| < |filePath| && filePath[|UploadDir(host)|] == Sep
  {
    IsBelow(UploadDir(host), filePath)
  }

  /** `downloadUrl(filename, privateUrl)`, with the `slug` it applies to the file name. */
  function DownloadUrl(host: Host, slug: string -> string, filename: Option<string>, privateUrl: string): (url: string)
    ensures |host.backendUrl| <= |url| && url[..|host.backendUrl|] == host.backendUrl
    ensures var name := slug(filename.GetOr("")); |name| <= |url| && url[|url| - |name|..] == name
  {
    host.backendUrl + "/file/download?privateUrl=" + privateUrl + "&filename=" + slug(filename.GetOr(""))
  }

  /**
   * `upload(file, privateUrl, filename, publicRead, maxSizeInBytes)`:
   * Forbidden before anything is written when the destination leaves the
   * upload directory; otherwise the file is written there and its download
   * URL answered. The read flag and the size limit are not consulted.
   */
  function UploadFile(host: Host, slug: string -> string, privateUrl: string, filename: Option<string>,
                      publicRead: bool, maxSizeInBytes: Option<int>): (r: Result<string>)
    ensures r.Err? <==> !IsPathInsideUploadDir(host, InternalUrl(host, privateUrl))
    ensures r.Err? ==> r.error == Forbidden
    ensures r.Ok? ==> r.value == DownloadUrl(host, slug, filename, privateUrl)
  {
    if !IsPathInsideUploadDir(host, InternalUrl(host, privateUrl)) then Err(Forbidden)
    else Ok(DownloadUrl(host, slug, filename, privateUrl))
  }

  /** The read flag and the size limit do not change what `upload` answers. */
  lemma UploadIgnoresReadFlagAndSize(host: Host, slug: string -> string, privateUrl: string, filename: Option<string>,
                                     publicRead: bool, maxSizeInBytes: Option<int>)
    ensures UploadFile(host, slug, privateUrl, filename, publicRead, maxSizeInBytes) ==
            UploadFile(host, slug, privateUrl, filename, false, None)
  {
  }

  /** `download(privateUrl)`: the file's path, when inside the upload directory; else Forbidden. */
  function Download(host: Host, privateUrl: string): (r: Result<string>)
    ensures r.Err? <==> !IsPathInsideUploadDir(host, InternalUrl(host, privateUrl))
    ensures r.Err? ==> r.error == Forbidden
    ensures r.Ok? ==> r.value == InternalUrl(host, privateUrl)
  {
    var finalPath := InternalUrl(host, privateUrl);
    if !IsPathInsideUploadDir(host, finalPath) then Err(Forbidden) else Ok(finalPath)
  }

  // ---------------------------------------------------------------------
  // Properties
  // ---------------------------------------------------------------------

  /** The upload directory itself, written without a trailing separator, is not inside it. */
  lemma UploadDirIsNotInside(host: Host)
    requires UploadDir(host) == [] || UploadDir(host)[|UploadDir(host)| - 1] != Sep
    ensures !IsPathInsideUploadDir(host, UploadDir(host))
  {
  }

  /** An absolute path never climbs above the root: its resolved segments hold no `..`. */
  lemma {:induction false} AbsolutePathsNeverClimb(segments: seq<string>)
    ensures ".." !in Resolve(segments, false)
    ensures forall s :: s in Resolve(segments, false) ==> s != "" && s != "."
    decreases |segments|
  {
    if segments != [] {
      var init := Resolve(segments[..|segments| - 1], false);
      AbsolutePathsNeverClimb(segments[..|segments| - 1]);
      var last := segments[|segments| - 1];
      forall s | s in Resolve(segments, false) ensures s != "" && s != "." {
        assert s in init || s == last;
      }
    }
  }

  /** A segment that is neither empty, `.` nor `..`, and holds no separator. */
  predicate IsPlain(segment: string) {
    segment != "" && segment != "." && segment != ".." && Sep !in segment
  }

  predicate ArePlain(segments: seq<string>) {
    forall i :: 0 <= i < |segments| ==> IsPlain(segments[i])
  }

  predicate NoSeparators(segments: seq<string>) {
    forall i :: 0 <= i < |segments| ==> Sep !in segments[i]
  }

  /** A text without a separator is one segment. */
  lemma {:induction false} SplitWithoutSeparator(s: string)
    requires Sep !in s
    ensures Split(s) == [s]
    decreases |s|
  {
    if s != [] {
      assert s[..|s| - 1] + [s[|s| - 1]] == s;
      SplitWithoutSeparator(s[..|s| - 1]);
    }
  }

  /** A separator at the end of a text opens a new, empty segment. */
  lemma SplitSnocSeparator(x: string)
    ensures Split(x + [Sep]) == Split(x) + [""]
  {
    assert (x + [Sep])[..|x|] == x;
  }

  /** Any other character at the end of a text extends its last segment. */
  lemma SplitSnocOther(x: string, c: char)
    requires c != Sep
    ensures var parts := Split(x);
            Split(x + [c]) == parts[..|parts| - 1] + [parts[|parts| - 1] + [c]]
  {
    assert (x + [c])[..|x|] == x;
  }

  /** Splitting distributes over a separator. */
  lemma {:induction false} SplitAtSeparator(a: string, b: string)
    ensures Split(a + "/" + b) == Split(a) + Split(b)
    decreases |b|
  {
    if b == [] {
      assert a + "/" + b == a + [Sep];
      SplitSnocSeparator(a);
    } else {
      var front := b[..|b| - 1];
      assert b == front + [b[|b| - 1]];
      SplitAtSeparator(a, front);
      SplitAtSeparatorSnoc(a, front, b[|b| - 1]);
    }
  }

  /** One more character after the separator extends both sides of the split alike. */
  lemma SplitAtSeparatorSnoc(a: string, front: string, c: char)
    requires Split(a + "/" + front) == Split(a) + Split(front)
    ensures Split(a + "/" + (front + [c])) == Split(a) + Split(front + [c])
  {
    var joined := a + "/" + front;
    AppendAfterSeparator(a, front, c);
    if c == Sep {
      SplitSnocSeparator(joined);
      SplitSnocSeparator(front);
      AppendEmptySegment(Split(a), Split(front));
    } else {
      SplitSnocOther(joined, c);
      SplitSnocOther(front, c);
      ExtendLastSegment(Split(a), Split(front), c);
    }
  }

  lemma AppendAfterSeparator(a: string, front: string, c: char)
    ensures a + "/" + (front + [c]) == (a + "/" + front) + [c]
  {
  }

  lemma AppendEmptySegment(left: seq<string>, right: seq<string>)
    ensures (left + right) + [""] == left + (right + [""])
  {
  }

  /** Extending the last segment of two concatenated segment lists extends the second list's last one. */
  lemma ExtendLastSegment(left: seq<string>, right: seq<string>, c: char)
    requires |right| >= 1
    ensures var init := left + right;
            init[..|init| - 1] + [init[|init| - 1] + [c]] == left + (right[..|right| - 1] + [right[|right| - 1] + [c]])
  {
    var init := left + right;
    assert init[..|init| - 1] == left + right[..|right| - 1];
  }

  /** Joining plain segments and splitting again gives them back. */
  lemma {:induction false} SplitJoinedSegments(segments: seq<string>)
    requires |segments| >= 1 && NoSeparators(segments)
    ensures Split(JoinSegments(segments)) == segments
    decreases |segments|
  {
    if |segments| == 1 {
      SplitWithoutSeparator(segments[0]);
    } else {
      var init := segments[..|segments| - 1];
      SplitJoinedSegments(init);
      SplitAtSeparator(JoinSegments(init), segments[|segments| - 1]);
      SplitWithoutSeparator(segments[|segments| - 1]);
    }
  }

  lemma {:induction false} JoinSegmentsAppend(a: seq<string>, b: seq<string>)
    requires |a| >= 1 && |b| >= 1
    ensures JoinSegments(a + b) == JoinSegments(a) + "/" + JoinSegments(b)
    decreases |b|
  {
    if |b| > 1 {
      var init := b[..|b| - 1];
      JoinSegmentsAppend(a, init);
      assert (a + b)[..|a + b| - 1] == a + init;
    } else {
      assert (a + b)[..|a + b| - 1] == a;
    }
  }

  /** Resolving a leading empty segment followed by plain segments keeps exactly the plain ones. */
  lemma {:induction false} ResolveRootedPlain(segments: seq<string>)
    requires ArePlain(segments)
    ensures Resolve([""] + segments, false) == segments
    decreases |segments|
  {
    if segments != [] {
      var init := segments[..|segments| - 1];
      ResolveRootedPlain(init);
      assert ([""] + segments)[..|segments|] == [""] + init;
    }
  }

  /** An absolute path of plain segments is already normal. */
  lemma NormalRootedPath(segments: seq<string>, p: string)
    requires |segments| >= 1 && ArePlain(segments) && p == "/" + JoinSegments(segments)
    ensures Normalize(p) == p
  {
    var body := JoinSegments(segments);
    assert "/" + body == "" + "/" + body;
    SplitAtSeparator("", body);
    SplitJoinedSegments(segments);
    ResolveRootedPlain(segments);
    PlainSegmentsEndPlain(segments);
    assert ("/" + body)[|"/" + body| - 1] == body[|body| - 1];
  }

  /** Joining plain segments to an absolute path of plain segments stays below it. */
  lemma JoinPlainIsBelow(dirSegments: seq<string>, urlSegments: seq<string>)
    requires |dirSegments| >= 1 && ArePlain(dirSegments) && |urlSegments| >= 1 && ArePlain(urlSegments)
    ensures Join("/" + JoinSegments(dirSegments), JoinSegments(urlSegments)) ==
            "/" + JoinSegments(dirSegments) + "/" + JoinSegments(urlSegments)
    ensures IsBelow("/" + JoinSegments(dirSegments), "/" + JoinSegments(dirSegments) + "/" + JoinSegments(urlSegments))
  {
    var dir := "/" + JoinSegments(dirSegments);
    var url := JoinSegments(urlSegments);
    PlainSegmentsEndPlain(urlSegments);
    PlainSegmentsEndPlain(dirSegments);
    JoinedIsNormal(dirSegments, urlSegments, dir + "/" + url);
    assert (dir + "/" + url)[..|dir + [Sep]|] == dir + [Sep];
  }

  lemma JoinedIsNormal(dirSegments: seq<string>, urlSegments: seq<string>, p: string)
    requires |dirSegments| >= 1 && ArePlain(dirSegments) && |urlSegments| >= 1 && ArePlain(urlSegments)
    requires p == "/" + JoinSegments(dirSegments) + "/" + JoinSegments(urlSegments)
    ensures Normalize(p) == p
  {
    var all := dirSegments + urlSegments;
    PlainAppend(dirSegments, urlSegments);
    JoinSegmentsAppend(dirSegments, urlSegments);
    RootedConcat(JoinSegments(dirSegments), JoinSegments(urlSegments));
    NormalRootedPath(all, p);
  }

  /** Prefixing a root to two parts joined by a separator. */
  lemma RootedConcat(x: string, y: string)
    ensures "/" + (x + "/" + y) == "/" + x + "/" + y
  {
  }

  lemma PlainAppend(a: seq<string>, b: seq<string>)
    requires ArePlain(a) && ArePlain(b)
    ensures ArePlain(a + b)
  {
    forall i | 0 <= i < |a + b| ensures IsPlain((a + b)[i]) {
      if i >= |a| {
        assert (a + b)[i] == b[i - |a|];
      }
    }
  }

  /**
   * A private URL made of plain segments, under an upload directory that is
   * an absolute path of plain segments, is accepted and names the file below it.
   */
  lemma PlainPrivateUrlIsInside(host: Host, dirSegments: seq<string>, urlSegments: seq<string>)
    requires |dirSegments| >= 1 && ArePlain(dirSegments) && |urlSegments| >= 1 && ArePlain(urlSegments)
    requires UploadDir(host) == "/" + JoinSegments(dirSegments)
    ensures Download(host, JoinSegments(urlSegments)) == Ok(UploadDir(host) + "/" + JoinSegments(urlSegments))
  {
    JoinPlainIsBelow(dirSegments, urlSegments);
  }

  /** Joined plain segments are not empty and do not end with a separator. */
  lemma PlainSegmentsEndPlain(segments: seq<string>)
    requires |segments| >= 1 && ArePlain(segments)
    ensures JoinSegments(segments) != "" && JoinSegments(segments)[|JoinSegments(segments)| - 1] != Sep
  {
    var last := segments[|segments| - 1];
    assert IsPlain(last);
    assert last[|last| - 1] in last;
  }

  /** Resolving a climb after a plain segment drops that segment, and a plain segment after it is kept. */
  lemma ResolveClimb(prefix: seq<string>, leaf: string, name: string)
    requires IsPlain(leaf) && IsPlain(name)
    ensures Resolve(prefix + [leaf, "..", name], false) == Resolve(prefix, false) + [name]
  {
    var r0 := Resolve(prefix, false);
    var s1 := prefix + [leaf];
    assert s1[..|s1| - 1] == prefix;
    assert Resolve(s1, false) == r0 + [leaf];
    var s2 := s1 + [".."];
    assert s2[..|s2| - 1] == s1;
    assert (r0 + [leaf])[..|r0|] == r0;
    assert Resolve(s2, false) == r0;
    var s3 := s2 + [name];
    assert s3[..|s3| - 1] == s2;
    assert s3 == prefix + [leaf, "..", name];
  }

  /** A file name that holds no separator cannot continue a directory name past its separator. */
  lemma SiblingIsNotBelow(parent: string, leaf: string, name: string)
    requires IsPlain(leaf) && IsPlain(name)
    ensures !IsBelow(parent + "/" + leaf, parent + "/" + name)
  {
    var dir := parent + "/" + leaf;
    var sibling := parent + "/" + name;
    assert dir[|dir| - 1] == leaf[|leaf| - 1];
    assert leaf[|leaf| - 1] in leaf;
    var withSlash := dir + [Sep];
    if |withSlash| <= |sibling| {
      var k := |parent| + 1 + |leaf|;
      assert name[|leaf|] in name;
      assert sibling[k] == name[|leaf|] != Sep == withSlash[k];
      assert sibling[..|withSlash|][k] != withSlash[k];
    }
  }

  /** The segments of a path that climbs out of an absolute directory of plain segments. */
  lemma SplitClimbingPath(dirSegments: seq<string>, leaf: string, name: string, p: string)
    requires |dirSegments| >= 1 && ArePlain(dirSegments) && IsPlain(leaf) && IsPlain(name)
    requires p == "/" + JoinSegments(dirSegments + [leaf]) + "/" + "../" + name
    ensures Split(p) == [""] + dirSegments + [leaf, "..", name]
  {
    var all := [""] + dirSegments + [leaf, "..", name];
    forall i | 0 <= i < |all| ensures Sep !in all[i] {
      if 1 <= i <= |dirSegments| {
        assert all[i] == dirSegments[i - 1];
        assert IsPlain(dirSegments[i - 1]);
      }
    }
    var rest := dirSegments + [leaf, "..", name];
    JoinSegmentsAppend(dirSegments + [leaf], ["..", name]);
    assert JoinSegments(["..", name]) == "../" + name;
    assert dirSegments + [leaf] + ["..", name] == rest;
    JoinSegmentsAppend([""], rest);
    assert [""] + rest == all;
    assert JoinSegments(all) == p;
    SplitJoinedSegments(all);
  }

  /** Normalizing a path that climbs out of a directory names the sibling. */
  lemma NormalizeClimbingPath(dirSegments: seq<string>, leaf: string, name: string, p: string)
    requires |dirSegments| >= 1 && ArePlain(dirSegments) && IsPlain(leaf) && IsPlain(name)
    requires p == "/" + JoinSegments(dirSegments + [leaf]) + "/" + "../" + name
    ensures Normalize(p) == "/" + JoinSegments(dirSegments + [name])
  {
    SplitClimbingPath(dirSegments, leaf, name, p);
    ResolveClimb([""] + dirSegments, leaf, name);
    assert [""] + dirSegments + [leaf, "..", name] == Split(p);
    ResolveRootedPlain(dirSegments);
    assert Resolve(Split(p), false) == dirSegments + [name];
    assert ArePlain(dirSegments + [name]);
    PlainSegmentsEndPlain(dirSegments + [name]);
    assert p[|p| - 1] == name[|name| - 1];
    assert name[|name| - 1] in name;
  }

  /** The absolute path of segments followed by one more. */
  lemma RootedAppend(segments: seq<string>, last: string)
    requires |segments| >= 1
    ensures "/" + JoinSegments(segments + [last]) == "/" + JoinSegments(segments) + "/" + last
  {
    var all := segments + [last];
    assert all[..|all| - 1] == segments;
    assert JoinSegments(all) == JoinSegments(segments) + "/" + last;
  }

  /** Joining a climb to an absolute directory of plain segments names a sibling outside it. */
  lemma ClimbingOutOfDirectory(dir: string, dirSegments: seq<string>, leaf: string, name: string)
    requires |dirSegments| >= 1 && ArePlain(dirSegments) && IsPlain(leaf) && IsPlain(name)
    requires dir == "/" + JoinSegments(dirSegments + [leaf])
    ensures Join(dir, "../" + name) == "/" + JoinSegments(dirSegments + [name])
    ensures !IsBelow(dir, Join(dir, "../" + name))
  {
    var parent := "/" + JoinSegments(dirSegments);
    RootedAppend(dirSegments, leaf);
    RootedAppend(dirSegments, name);
    assert dir == parent + "/" + leaf;
    var p := dir + "/" + "../" + name;
    NormalizeClimbingPath(dirSegments, leaf, name, p);
    assert dir + "/" + ("../" + name) == p;
    assert Join(dir, "../" + name) == parent + "/" + name;
    SiblingIsNotBelow(parent, leaf, name);
  }

  /**
   * A private URL that climbs with `..` out of the upload directory lands in
   * a sibling directory, and downloading it is refused.
   */
  lemma ClimbingOutIsRefused(host: Host, dirSegments: seq<string>, leaf: string, name: string)
    requires |dirSegments| >= 1 && ArePlain(dirSegments) && IsPlain(leaf) && IsPlain(name)
    requires UploadDir(host) == "/" + JoinSegments(dirSegments + [leaf])
    ensures InternalUrl(host, "../" + name) == "/" + JoinSegments(dirSegments + [name])
    ensures Download(host, "../" + name) == Err(Forbidden)
  {
    ClimbingOutOfDirectory(UploadDir(host), dirSegments, leaf, name);
  }
}
