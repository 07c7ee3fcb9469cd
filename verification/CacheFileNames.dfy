/**
 Cache file names for type URLs, and the package read back from them
 (internal/esmresolver/typefetch.go: typeCachePathForURL, esmTypeURLBarePackage,
 localCachedTypeSpecifierPackage, trimTypeBuildPrefix).

 A URL is given by its parts; its path has no percent escapes, so unescaping it changes
 nothing.  Characters stand for bytes.
 */
module CacheFileNames {

  import opened Wrappers

  // ---------------------------------------------------------------- text

  /** The index of the first `c`, or -1. */
  function Index(s: string, c: char): (i: int)
    ensures -1 <= i < |s|
    ensures i >= 0 ==> s[i] == c && forall k :: 0 <= k < i ==> s[k] != c
    ensures i < 0 <==> c !in s
  {
    if s == "" then -1
    else if s[0] == c then 0
    else
      var i := Index(s[1..], c);
      assert s == [s[0]] + s[1..];
      if i < 0 then -1 else i + 1
  }

  /** The index of the last `c`, or -1. */
  function LastIndex(s: string, c: char): (i: int)
    ensures -1 <= i < |s|
    ensures i >= 0 ==> s[i] == c && forall k :: i < k < |s| ==> s[k] != c
    ensures i < 0 <==> c !in s
  {
    if s == "" then -1
    else
      var i := LastIndex(s[1..], c);
      assert s == [s[0]] + s[1..];
      if i >= 0 then i + 1 else if s[0] == c then 0 else -1
  }

  lemma {:induction false} FirstAfter(a: string, c: char, b: string)
    requires c !in a
    ensures Index(a + ([c] + b), c) == |a|
  {
    var s := a + ([c] + b);
    if a != "" {
      assert s[0] == a[0] && s[1..] == a[1..] + ([c] + b);
      FirstAfter(a[1..], c, b);
    }
  }

  lemma {:induction false} LastBefore(a: string, c: char, b: string)
    ensures LastIndex(a + ([c] + b), c) >= |a|
    ensures c !in b ==> LastIndex(a + ([c] + b), c) == |a|
    ensures c in b ==> LastIndex(a + ([c] + b), c) > |a|
  {
    var s := a + ([c] + b);
    if a == "" {
      assert s[0] == c && s[1..] == b;
    } else {
      assert s[0] == a[0] && s[1..] == a[1..] + ([c] + b);
      LastBefore(a[1..], c, b);
    }
  }

  /** Trimming text that starts with no white space cuts white space at its end only. */
  lemma {:induction false} TrimCutsEnd(s: string, i: nat)
    requires i < |s| && !IsSpace(s[0]) && !IsSpace(s[i])
    ensures i < |TrimSpace(s)| && TrimSpace(s) <= s
    decreases |s|
  {
    if IsSpace(s[|s| - 1]) {
      TrimCutsEnd(s[..|s| - 1], i);
    }
  }

  lemma NothingToTrim(s: string)
    requires s == "" || (!IsSpace(s[0]) && !IsSpace(s[|s| - 1]))
    ensures TrimSpace(s) == s
  {
  }

  /** The pieces of a path between its slashes. */
  function Split(s: string): (r: seq<string>)
    ensures r != []
  {
    if s == "" then [""]
    else
      var rest := Split(s[1..]);
      if s[0] == '/' then [""] + rest else [[s[0]] + rest[0]] + rest[1..]
  }

  lemma {:induction false} SplitFirst(a: string, b: string)
    requires '/' !in a
    ensures Split(a + ("/" + b)) == [a] + Split(b)
    ensures Split(a) == [a]
    decreases |a|
  {
    if a == "" {
      assert a + ("/" + b) == "/" + b;
    } else {
      SplitFirst(a[1..], b);
      assert (a + ("/" + b))[1..] == a[1..] + ("/" + b);
      assert a == [a[0]] + a[1..];
    }
  }

  lemma SplitHead(a: string, t: string)
    requires '/' !in a && (t == "" || t[0] == '/')
    ensures [a] <= Split(a + t)
  {
    if t == "" {
      SplitFirst(a, "");
      assert a + t == a;
    } else {
      SplitFirst(a, t[1..]);
      assert t == "/" + t[1..];
    }
  }

  function TrimSlashes(s: string): string {
    if s == "" then ""
    else if s[0] == '/' then TrimSlashes(s[1..])
    else if s[|s| - 1] == '/' then TrimSlashes(s[..|s| - 1])
    else s
  }

  /** Trimming slashes off text that starts with none cuts at its end only. */
  lemma {:induction false} TrimSlashesCutsEnd(a: string, t: string) returns (t': string)
    requires a != "" && a[0] != '/' && a[|a| - 1] != '/' && (t == "" || t[0] == '/')
    ensures TrimSlashes(a + t) == a + t' && (t' == "" || t'[0] == '/')
    decreases |t|
  {
    if t == "" {
      t' := "";
      assert a + t == a;
    } else if t[|t| - 1] == '/' {
      assert (a + t)[..|a + t| - 1] == a + t[..|t| - 1];
      t' := TrimSlashesCutsEnd(a, t[..|t| - 1]);
    } else {
      t' := t;
    }
  }

  // ---------------------------------------------------------------- the package of a URL

  predicate IsDigit(c: char) {
    '0' <= c <= '9'
  }

  /** A build token: `v` and a number. */
  predicate IsBuildToken(token: string) {
    |token| >= 2 && token[0] == 'v' && forall i :: 1 <= i < |token| ==> IsDigit(token[i])
  }

  function WithoutVersion(candidate: string): string {
    var at := LastIndex(candidate, '@');
    TrimSpace(if at > 0 then candidate[..at] else candidate)
  }

  /** The package that starts at a segment; a scope takes in the segment after it. */
  function SegmentPackage(segments: seq<string>, at: nat): string
    requires at < |segments|
  {
    var first := TrimSpace(segments[at]);
    if first == "" then ""
    else if first[0] == '@' && '/' !in first && |segments| > at + 1 && TrimSpace(segments[at + 1]) != "" then
      WithoutVersion(first + ("/" + TrimSpace(segments[at + 1])))
    else WithoutVersion(first)
  }

  /** A leading build token is not part of the package. */
  function NameStart(segments: seq<string>): nat {
    if |segments| > 1 && IsBuildToken(TrimSpace(segments[0])) then 1 else 0
  }

  /** esmTypeURLBarePackage, for a path without percent escapes. */
  function UrlPackage(path: string): string {
    var trimmed := TrimSlashes(path);
    if trimmed == "" then ""
    else
      var segments := Split(trimmed);
      SegmentPackage(segments, NameStart(segments))
  }

  // ---------------------------------------------------------------- the cache file name

  predicate IsSeparator(c: char) {
    c == '/' || c == '\\' || c == '?' || c == '&' || c == '='
  }

  function Flat(c: char): char {
    if IsSeparator(c) then '_' else c
  }

  /** The URL as one path segment: scheme marks go, separators become underscores. */
  function Flatten(url: string): (r: string)
    ensures NoSeparators(r)
  {
    if url == "" then ""
    else if "https://" <= url then Flatten(url[8..])
    else if "http://" <= url then Flatten(url[7..])
    else [Flat(url[0])] + Flatten(url[1..])
  }

  const MAX_NAME: nat := 200

  function CacheFileName(url: string): string {
    var safe := Flatten(url);
    (if |safe| > MAX_NAME then safe[..MAX_NAME] else safe) + ".d.ts"
  }

  /** A separator becomes one underscore, wherever it stands. */
  lemma SeparatorIsFlat(c: char, b: string)
    requires c == '/' || c == '\\' || c == '?' || c == '&' || c == '='
    ensures Flatten([c] + b) == "_" + Flatten(b)
  {
    var s := [c] + b;
    assert s[0] == c && s[1..] == b;
    assert "https://"[0] == 'h' && "http://"[0] == 'h';
  }

  /** The name keeps the first 200 characters of the flattened URL, and two names are the same only if those are. */
  lemma NameIsCutAt200(url: string, other: string)
    ensures var first := (s: string) => if |s| <= 200 then s else s[..200];
            && CacheFileName(url) == first(Flatten(url)) + ".d.ts"
            && (CacheFileName(url) == CacheFileName(other) <==> first(Flatten(url)) == first(Flatten(other)))
  {
    NameEnds(url);
    NameEnds(other);
  }

  lemma NameEnds(url: string)
    ensures var k := if |Flatten(url)| > 200 then 200 else |Flatten(url)|;
            |CacheFileName(url)| == k + 5 && CacheFileName(url)[..k] == Flatten(url)[..k]
    ensures |Flatten(url)| <= 200 ==> Flatten(url)[..|Flatten(url)|] == Flatten(url)
  {
  }

  lemma {:induction false} FlattenKeepsAt(url: string)
    ensures '@' in Flatten(url) <==> '@' in url
    decreases |url|
  {
    if url != "" {
      if "https://" <= url {
        FlattenKeepsAt(url[8..]);
        assert url == "https://" + url[8..];
      } else if "http://" <= url {
        FlattenKeepsAt(url[7..]);
        assert url == "http://" + url[7..];
      } else {
        FlattenKeepsAt(url[1..]);
        assert url == [url[0]] + url[1..];
      }
    }
  }

  predicate NoSeparators(s: string) {
    forall i :: 0 <= i < |s| ==> !IsSeparator(s[i])
  }

  /** Text that needs no flattening. */
  predicate Plain(s: string) {
    s != "" && NoSeparators(s) && forall c <- s :: c != '@' && c != '%' && c != '#' && !IsSpace(c)
  }

  predicate Ends(c: char) {
    c == '/' || c == '?' || c == '#'
  }

  /** A place where one part of a URL ends: the end, or a separator that is not doubled. */
  predicate Boundary(b: string) {
    b == "" || (Ends(b[0]) && !("//" <= b))
  }

  /** Text without separators stays as it is. */
  lemma {:induction false} FlattenText(a: string, b: string)
    requires NoSeparators(a) && Boundary(b)
    ensures Flatten(a + b) == a + Flatten(b)
    decreases |a|
  {
    if a == "" {
      assert a + b == b;
    } else {
      NoSchemeMark(a, b);
      assert (a + b)[0] == a[0] && (a + b)[1..] == a[1..] + b;
      FlattenText(a[1..], b);
      Assoc([a[0]], a[1..], Flatten(b));
      assert a == [a[0]] + a[1..];
    }
  }

  lemma NoSchemeMark(a: string, b: string)
    requires a != "" && NoSeparators(a) && Boundary(b)
    ensures !("https://" <= a + b) && !("http://" <= a + b)
  {
    var s := a + b;
    NotTheMark(a, b, "https://", 6);
    NotTheMark(a, b, "http://", 5);
  }

  lemma NotTheMark(a: string, b: string, mark: string, slash: nat)
    requires a != "" && NoSeparators(a) && Boundary(b)
    requires |mark| == slash + 2 && mark[slash] == mark[slash + 1] == '/' && forall i :: 0 <= i < slash ==> !Ends(mark[i])
    ensures exists k :: 0 <= k < |mark| && (k >= |a + b| || (a + b)[k] != mark[k])
  {
    var k := if |a| > slash then slash else if |a| < slash then |a| else if b != "" && b[0] == '/' then slash + 1 else slash;
    assert k >= |a + b| || (a + b)[k] != mark[k];
  }

  // ---------------------------------------------------------------- the package read back

  /** The last element of a slash-separated path. */
  function Base(path: string): string {
    if path == "" then "."
    else if path[|path| - 1] == '/' then (if |path| == 1 then "/" else Base(path[..|path| - 1]))
    else path[LastIndex(path, '/') + 1..]
  }

  /** trimTypeBuildPrefix. */
  function WithoutBuild(s: string): string {
    var rest := TrimSpace(s);
    var underscore := Index(rest, '_');
    if |rest| < 3 || rest[0] != 'v' || underscore <= 1 || underscore + 1 >= |rest| then rest
    else if IsBuildToken(rest[..underscore]) then rest[underscore + 1..]
    else rest
  }

  /** A flattened scoped name with its slash put back. */
  function WithScopeSlash(pkg: string): (r: string)
    ensures |r| == |pkg|
  {
    if pkg != "" && pkg[0] == '@' && '/' !in pkg && Index(pkg, '_') > 1 then
      pkg[..Index(pkg, '_')] + "/" + pkg[Index(pkg, '_') + 1..]
    else pkg
  }

  function RestPackage(rest: string): Option<string> {
    var at := LastIndex(rest, '@');
    if at <= 0 then None
    else
      var pkg := TrimSpace(WithScopeSlash(TrimSpace(rest[..at])));
      if pkg == "" then None else Some(pkg)
  }

  predicate IsHostToken(token: string) {
    token != "" && ('.' in token || ':' in token || token == "localhost")
  }

  function FilePackage(base: string): Option<string> {
    var sep := Index(base, '_');
    if TrimSpace(base) == "" || sep <= 0 || sep >= |base| - 1 || !IsHostToken(TrimSpace(base[..sep])) then None
    else RestPackage(WithoutBuild(base[sep + 1..]))
  }

  /** localCachedTypeSpecifierPackage. */
  function LocalPackage(specifier: string): Option<string> {
    var trimmed := TrimSpace(specifier);
    if trimmed == "" then None else FilePackage(Base(trimmed))
  }

  // ---------------------------------------------------------------- package URLs

  /** http(s)://host[/vN]/[@scope/]name@version, then the rest of the path, then a query or fragment. */
  datatype PackageUrl = PackageUrl(https: bool, host: string, build: Option<string>, scope: Option<string>,
          name: string, version: string, tail: string, suffix: string)

  predicate WellFormed(u: PackageUrl) {
    && Plain(u.host) && ('.' in u.host || ':' in u.host || u.host == "localhost") && '_' !in u.host
    && (u.build.Some? ==> IsBuildToken(u.build.value))
    && (u.scope.Some? ==> Plain(u.scope.value))
    && Plain(u.name) && Plain(u.version)
    && (u.tail == "" || u.tail[0] == '/') && '%' !in u.tail && '?' !in u.tail && '#' !in u.tail
    && (u.suffix == "" || u.suffix[0] == '?' || u.suffix[0] == '#')
    && Boundary(u.tail + u.suffix)
  }

  function Versioned(u: PackageUrl): string {
    u.name + ("@" + u.version)
  }

  /** The package with its version, then `t`; `slash` stands between scope and name. */
  function Named(u: PackageUrl, slash: string, t: string): string {
    if u.scope.Some? then ("@" + u.scope.value) + (slash + (Versioned(u) + t)) else Versioned(u) + t
  }

  function Built(u: PackageUrl, slash: string, t: string): string {
    if u.build.Some? then u.build.value + (slash + Named(u, slash, t)) else Named(u, slash, t)
  }

  function UrlPath(u: PackageUrl): string {
    "/" + Built(u, "/", u.tail)
  }

  function Render(u: PackageUrl): string {
    (if u.https then "https://" else "http://") + (u.host + ("/" + Built(u, "/", u.tail + u.suffix)))
  }

  function PackageName(u: PackageUrl, slash: string): string {
    if u.scope.Some? then ("@" + u.scope.value) + (slash + u.name) else u.name
  }

  lemma {:induction false} NameWithoutVersion(name: string, version: string)
    requires Plain(version) && name != "" && !IsSpace(name[0]) && !IsSpace(name[|name| - 1])
    ensures WithoutVersion(name + ("@" + version)) == name
  {
    LastBefore(name, '@', version);
    assert (name + ("@" + version))[..|name|] == name;
    NothingToTrim(name);
  }

  // ---------------------------------------------------------------- reading the URL

  function NameSegments(u: PackageUrl): seq<string> {
    (if u.scope.Some? then ["@" + u.scope.value] else []) + [Versioned(u)]
  }

  lemma SplitNamed(u: PackageUrl, t: string)
    requires WellFormed(u) && (t == "" || t[0] == '/')
    ensures NameSegments(u) <= Split(Named(u, "/", t))
  {
    assert '/' !in Versioned(u);
    SplitHead(Versioned(u), t);
    if u.scope.Some? {
      assert '/' !in "@" + u.scope.value;
      SplitFirst("@" + u.scope.value, Versioned(u) + t);
    }
  }

  lemma NamedSplits(u: PackageUrl, slash: string, t: string)
    ensures Named(u, slash, t) == Named(u, slash, "") + t
  {
    Assoc(Versioned(u), "", t);
    if u.scope.Some? {
      Assoc(slash, Versioned(u), t);
      Assoc("@" + u.scope.value, slash + Versioned(u), t);
    }
  }

  lemma BuiltSplits(u: PackageUrl, slash: string, t: string)
    ensures Built(u, slash, t) == Built(u, slash, "") + t
  {
    NamedSplits(u, slash, t);
    if u.build.Some? {
      Assoc(slash, Named(u, slash, ""), t);
      Assoc(u.build.value, slash + Named(u, slash, ""), t);
    }
  }

  lemma BuiltEnds(u: PackageUrl)
    requires WellFormed(u)
    ensures var h := Built(u, "/", ""); h != "" && h[0] != '/' && h[|h| - 1] != '/'
  {
    var n := Named(u, "/", "");
    assert n[|n| - 1] == u.version[|u.version| - 1];
    assert u.build.Some? ==> Built(u, "/", "")[0] == 'v';
  }

  lemma TrimmedPath(u: PackageUrl) returns (t: string)
    requires WellFormed(u)
    ensures TrimSlashes(UrlPath(u)) == Built(u, "/", t) && (t == "" || t[0] == '/')
  {
    BuiltEnds(u);
    BuiltSplits(u, "/", u.tail);
    t := TrimSlashesCutsEnd(Built(u, "/", ""), u.tail);
    BuiltSplits(u, "/", t);
    assert UrlPath(u)[1..] == Built(u, "/", u.tail);
  }

  lemma VersionedIsNoBuild(u: PackageUrl)
    requires WellFormed(u)
    ensures !IsBuildToken(Versioned(u)) && TrimSpace(Versioned(u)) == Versioned(u)
  {
    assert Versioned(u)[|u.name|] == '@';
  }

  lemma SegmentsName(u: PackageUrl, segments: seq<string>, at: nat)
    requires WellFormed(u) && at <= |segments| && NameSegments(u) <= segments[at..]
    ensures at < |segments| && SegmentPackage(segments, at) == PackageName(u, "/")
  {
    VersionedIsNoBuild(u);
    assert segments[at] == NameSegments(u)[0];
    NameWithoutVersion(u.name, u.version);
    if u.scope.Some? {
      var first := "@" + u.scope.value;
      assert segments[at + 1] == NameSegments(u)[1] == Versioned(u);
      NothingToTrim(first);
      assert '/' !in first;
      NameWithoutVersion(first + ("/" + u.name), u.version);
      Assoc("/", u.name, "@" + u.version);
      Assoc(first, "/" + u.name, "@" + u.version);
    } else {
      assert Versioned(u)[0] == u.name[0];
    }
  }

  lemma BuildIsSkipped(u: PackageUrl, t: string)
    requires WellFormed(u) && u.build.Some? && (t == "" || t[0] == '/')
    ensures var segments := Split(Built(u, "/", t)); NameStart(segments) == 1 && NameSegments(u) <= segments[1..]
  {
    SplitNamed(u, t);
    SplitFirst(u.build.value, Named(u, "/", t));
    NothingToTrim(u.build.value);
    var segments := Split(Built(u, "/", t));
    assert segments[1..] == Split(Named(u, "/", t));
  }

  lemma NothingIsSkipped(u: PackageUrl, t: string)
    requires WellFormed(u) && u.build.None? && (t == "" || t[0] == '/')
    ensures var segments := Split(Built(u, "/", t)); NameStart(segments) == 0 && NameSegments(u) <= segments
  {
    SplitNamed(u, t);
    VersionedIsNoBuild(u);
    if u.scope.Some? {
      NothingToTrim("@" + u.scope.value);
    }
  }

  /** The URL's package is the one in its path, build token or not. */
  lemma UrlPackageIs(u: PackageUrl)
    requires WellFormed(u)
    ensures UrlPackage(UrlPath(u)) == PackageName(u, "/")
  {
    var t := TrimmedPath(u);
    var segments := Split(Built(u, "/", t));
    BuiltEnds(u);
    BuiltSplits(u, "/", t);
    if u.build.Some? {
      BuildIsSkipped(u, t);
    } else {
      NothingIsSkipped(u, t);
      assert segments[0..] == segments;
    }
    SegmentsName(u, segments, NameStart(segments));
  }

  // ---------------------------------------------------------------- the name of the file

  lemma FlattenScheme(u: PackageUrl, x: string)
    ensures Flatten((if u.https then "https://" else "http://") + x) == Flatten(x)
  {
    if u.https {
      assert ("https://" + x)[8..] == x;
    } else {
      var s := "http://" + x;
      assert s[4] == ':';
      assert s[7..] == x;
    }
  }

  lemma FlattenNamed(u: PackageUrl, t: string)
    requires WellFormed(u) && Boundary(t)
    ensures Flatten(Named(u, "/", t)) == Named(u, "_", Flatten(t))
  {
    FlattenText(Versioned(u), t);
    if u.scope.Some? {
      var y := Versioned(u) + t;
      assert y[0] == u.name[0];
      FlattenPart("@" + u.scope.value, y);
    }
  }

  lemma FlattenPart(a: string, y: string)
    requires NoSeparators(a) && (y == "" || y[0] != '/')
    ensures Flatten(a + ("/" + y)) == a + ("_" + Flatten(y))
  {
    assert y != "" ==> ("/" + y)[1] == y[0];
    FlattenText(a, "/" + y);
    SeparatorIsFlat('/', y);
  }

  lemma FlattenBuilt(u: PackageUrl, t: string)
    requires WellFormed(u) && Boundary(t)
    ensures Flatten(Built(u, "/", t)) == Built(u, "_", Flatten(t))
    ensures Built(u, "/", t) != "" && Built(u, "/", t)[0] != '/'
  {
    var n := Named(u, "/", t);
    FlattenNamed(u, t);
    assert n[0] == if u.scope.Some? then '@' else u.name[0];
    if u.build.Some? {
      FlattenPart(u.build.value, n);
      assert Built(u, "/", t)[0] == u.build.value[0];
    }
  }

  /** Flattening makes underscores of the slashes between the parts of a package URL. */
  lemma FlattenUrl(u: PackageUrl)
    requires WellFormed(u)
    ensures Flatten(Render(u)) == u.host + ("_" + Built(u, "_", Flatten(u.tail + u.suffix)))
  {
    var b := Built(u, "/", u.tail + u.suffix);
    FlattenBuilt(u, u.tail + u.suffix);
    FlattenPart(u.host, b);
    FlattenScheme(u, u.host + ("/" + b));
  }

  lemma {:induction false} BaseOfFile(dir: string, file: string)
    requires (dir == "" || dir[|dir| - 1] == '/') && file != "" && '/' !in file
    ensures Base(dir + file) == file
  {
    var s := dir + file;
    assert s[|s| - 1] == file[|file| - 1];
    var i := LastIndex(s, '/');
    assert forall k :: |dir| <= k < |s| ==> s[k] == file[k - |dir|];
    assert forall k :: 0 <= k < |file| ==> file[k] != '/';
    assert dir != "" ==> s[|dir| - 1] == '/';
  }

  // ---------------------------------------------------------------- reading the file name

  predicate Directory(dir: string) {
    dir == "" || (dir[|dir| - 1] == '/' && !IsSpace(dir[0]))
  }

  lemma ReadFile(dir: string, file: string)
    requires Directory(dir) && file != "" && '/' !in file && !IsSpace(file[0]) && !IsSpace(file[|file| - 1])
    ensures LocalPackage(dir + file) == FilePackage(file)
  {
    var s := dir + file;
    assert s[|s| - 1] == file[|file| - 1];
    assert s[0] == if dir == "" then file[0] else dir[0];
    NothingToTrim(s);
    BaseOfFile(dir, file);
  }

  lemma SplitAtUnderscore(a: string, b: string)
    requires '_' !in a && a != "" && !IsSpace(a[0]) && b != "" && !IsSpace(b[|b| - 1])
    ensures var s := a + ("_" + b); Index(s, '_') == |a| && s[..|a|] == a && s[|a| + 1..] == b && TrimSpace(s) == s
  {
    var t := "_" + b;
    var s := a + t;
    FirstAfter(a, '_', b);
    Halves(a, t);
    Halves("_", b);
    assert s[|a| + 1..] == s[|a|..][1..];
    assert s[0] == a[0] && s[|s| - 1] == b[|b| - 1];
    NothingToTrim(s);
  }

  lemma Halves(a: string, b: string)
    ensures (a + b)[..|a|] == a && (a + b)[|a|..] == b
  {
  }

  lemma ReadHost(host: string, b: string)
    requires Plain(host) && IsHostToken(host) && '_' !in host && b != "" && !IsSpace(b[|b| - 1])
    ensures FilePackage(host + ("_" + b)) == RestPackage(WithoutBuild(b))
  {
    NothingToTrim(host);
    SplitAtUnderscore(host, b);
    ReadParts(host + ("_" + b), host, b);
  }

  lemma ReadParts(s: string, host: string, b: string)
    requires Index(s, '_') == |host| && 0 < |host| < |s| - 1 && TrimSpace(s) != ""
    requires s[..|host|] == host && s[|host| + 1..] == b && IsHostToken(TrimSpace(host))
    ensures FilePackage(s) == RestPackage(WithoutBuild(b))
  {
  }

  lemma ReadPlainEnd(q: string, after: string)
    requires '@' !in after && q != "" && !IsSpace(q[0]) && !IsSpace(q[|q| - 1])
    ensures RestPackage(q + ("@" + after)) == Some(TrimSpace(WithScopeSlash(q)))
  {
    LastBefore(q, '@', after);
    assert (q + ("@" + after))[..|q|] == q;
    NothingToTrim(q);
    assert !IsSpace(WithScopeSlash(q)[0]);
    TrimCutsEnd(WithScopeSlash(q), 0);
  }

  /** An `@` further on is taken for the one before the version. */
  lemma ReadLaterAt(q: string, after: string)
    requires '@' in after && (q == "" || !IsSpace(q[0]))
    ensures var r := RestPackage(q + ("@" + after)); r.Some? && |r.value| > |q| && r.value[|q|] == '@'
  {
    var s := q + ("@" + after);
    LastBefore(q, '@', after);
    var p := s[..LastIndex(s, '@')];
    assert p[|q|] == '@' && p[0] == if q == "" then '@' else q[0];
    TrimCutsEnd(p, |q|);
    var t := TrimSpace(p);
    assert t[|q|] == p[|q|] && t[0] == p[0];
    var w := WithScopeSlash(t);
    assert w[|q|] == '@' && w[0] == t[0];
    TrimCutsEnd(w, |q|);
    assert TrimSpace(w)[|q|] == w[|q|];
  }

  /** An unscoped name that begins like a build token and an underscore. */
  predicate LooksBuilt(name: string) {
    Index(name, '_') > 1 && IsBuildToken(name[..Index(name, '_')])
  }

  /** Nothing in the URL misleads the reader of its file name. */
  predicate Readable(u: PackageUrl) {
    && '@' !in u.tail + u.suffix
    && (u.scope.Some? ==> '_' !in u.scope.value)
    && (u.build.None? && u.scope.None? ==> !LooksBuilt(u.name))
  }

  lemma NamedIs(u: PackageUrl, f: string)
    ensures Named(u, "_", f) == PackageName(u, "_") + ("@" + (u.version + f))
  {
    Assoc("@", u.version, f);
    Assoc(u.name, "@" + u.version, f);
    if u.scope.Some? {
      var rest := "@" + (u.version + f);
      Assoc("_", u.name, rest);
      Assoc("@" + u.scope.value, "_" + u.name, rest);
    }
  }

  lemma CutAtUnderscore(a: string, b: string)
    requires '_' !in a && a != "" && !IsSpace(a[0]) && b != "" && !IsSpace(b[|b| - 1])
    ensures WithoutBuild(a + ("_" + b)) == if IsBuildToken(a) then b else a + ("_" + b)
  {
    SplitAtUnderscore(a, b);
    assert (a + ("_" + b))[0] == a[0];
  }

  lemma NoCutPastAt(a: string, b: string)
    requires '_' !in a && a != "" && !IsSpace(a[0]) && b != "" && !IsSpace(b[|b| - 1])
    ensures WithoutBuild(a + ("@" + b)) == a + ("@" + b)
  {
    var s := a + ("@" + b);
    assert s[0] == a[0] && s[|s| - 1] == b[|b| - 1] && s[|a|] == '@';
    NothingToTrim(s);
    var i := Index(s, '_');
    assert forall k :: 0 <= k < |a| ==> s[k] == a[k];
    assert i >= 0 ==> i > |a|;
    assert i >= 0 ==> s[..i][|a|] == '@';
  }

  /** A build token is cut off with its underscore. */
  lemma BuildIsCut(u: PackageUrl, f: string)
    requires WellFormed(u) && u.build.Some? && f != "" && !IsSpace(f[|f| - 1])
    ensures WithoutBuild(Built(u, "_", f)) == Named(u, "_", f)
  {
    var n := Named(u, "_", f);
    NamedIs(u, f);
    assert n != "" && n[|n| - 1] == f[|f| - 1];
    CutAtUnderscore(u.build.value, n);
  }

  lemma ScopeIsNotCut(u: PackageUrl, f: string)
    requires WellFormed(u) && u.build.None? && u.scope.Some? && f != "" && !IsSpace(f[|f| - 1])
    ensures WithoutBuild(Built(u, "_", f)) == Named(u, "_", f)
  {
    var n := Named(u, "_", f);
    assert n[0] == '@' && n[|n| - 1] == f[|f| - 1];
    NothingToTrim(n);
  }

  lemma NameWithUnderscore(a: string, b: string, rest: string)
    requires a != "" && '_' !in a && !IsSpace(a[0]) && rest != "" && !IsSpace(rest[|rest| - 1])
    ensures var n := a + ("_" + b); WithoutBuild(n + rest) == if IsBuildToken(a) then b + rest else n + rest
  {
    Assoc("_", b, rest);
    Assoc(a, "_" + b, rest);
    CutAtUnderscore(a, b + rest);
  }

  lemma NameAtUnderscore(name: string, rest: string)
    requires name != "" && name[0] == '_' && rest != "" && !IsSpace(rest[|rest| - 1])
    ensures WithoutBuild(name + rest) == name + rest
  {
    var n := name + rest;
    assert n[0] == '_' && n[|n| - 1] == rest[|rest| - 1];
    NothingToTrim(n);
  }

  lemma NameIsCutAt(name: string, rest: string)
    requires Plain(name) && Index(name, '_') > 0 && rest != "" && !IsSpace(rest[|rest| - 1])
    ensures WithoutBuild(name + rest) == if LooksBuilt(name) then name[Index(name, '_') + 1..] + rest else name + rest
  {
    var i: nat := Index(name, '_');
    var a, b := name[..i], name[i + 1..];
    assert name == a + ("_" + b);
    assert name[0] in name;
    NameWithUnderscore(a, b, rest);
  }

  /** A name that looks built loses its first part, and no other name does. */
  lemma NameIsCutIff(u: PackageUrl, f: string)
    requires WellFormed(u) && u.build.None? && u.scope.None? && f != "" && !IsSpace(f[|f| - 1])
    ensures WithoutBuild(Built(u, "_", f))
         == if LooksBuilt(u.name) then u.name[Index(u.name, '_') + 1..] + ("@" + (u.version + f)) else Named(u, "_", f)
  {
    NamedIs(u, f);
    var rest := "@" + (u.version + f);
    assert rest[|rest| - 1] == f[|f| - 1];
    assert Built(u, "_", f) == u.name + rest;
    var i := Index(u.name, '_');
    if i > 0 {
      NameIsCutAt(u.name, rest);
    } else if i == 0 {
      NameAtUnderscore(u.name, rest);
    } else {
      assert u.name[0] in u.name;
      NoCutPastAt(u.name, u.version + f);
    }
  }

  lemma SlashIsPutBack(first: string, name: string)
    requires |first| > 1 && first[0] == '@' && '_' !in first && '/' !in first && '/' !in name
    ensures WithScopeSlash(first + ("_" + name)) == first + ("/" + name)
  {
    var q := first + ("_" + name);
    FirstAfter(first, '_', name);
    assert q[..|first|] == first && q[|first| + 1..] == name;
    assert first + "/" + name == first + ("/" + name);
  }

  lemma SlashIsMisplaced(first: string, name: string)
    requires first != "" && first[0] == '@' && '_' in first
    ensures var w := WithScopeSlash(first + ("_" + name)); w[|first|] == '_' && w[0] == '@'
  {
    var q := first + ("_" + name);
    assert q[|first|] == '_';
    var k :| 0 <= k < |first| && first[k] == '_';
    assert q[k] == '_';
    assert Index(q, '_') < |first|;
  }

  /** The slash of a scoped name is put back in its place exactly when the scope has no underscore. */
  lemma ScopeSlash(u: PackageUrl)
    requires WellFormed(u)
    ensures TrimSpace(WithScopeSlash(PackageName(u, "_"))) == PackageName(u, "/")
       <==> (u.scope.Some? ==> '_' !in u.scope.value)
  {
    if u.scope.None? {
      NothingToTrim(u.name);
    } else {
      var first := "@" + u.scope.value;
      var good := first + ("/" + u.name);
      assert '/' !in first;
      assert good[|first|] == '/' && good[|good| - 1] == u.name[|u.name| - 1];
      if '_' !in u.scope.value {
        assert '_' !in first;
        SlashIsPutBack(first, u.name);
        NothingToTrim(good);
      } else {
        assert '_' in first;
        SlashIsMisplaced(first, u.name);
        TrimCutsEnd(WithScopeSlash(first + ("_" + u.name)), |first|);
      }
    }
  }

  lemma LaterAt(u: PackageUrl)
    requires WellFormed(u)
    ensures '@' in u.version + (Flatten(u.tail + u.suffix) + ".d.ts") <==> '@' in u.tail + u.suffix
  {
    FlattenKeepsAt(u.tail + u.suffix);
    assert '@' !in u.version && '@' !in ".d.ts";
  }

  /** What is left of the name when a build token was cut, or nothing. */
  lemma UncutName(u: PackageUrl, f: string)
    requires WellFormed(u) && f != "" && !IsSpace(f[|f| - 1])
    requires !(u.build.None? && u.scope.None? && LooksBuilt(u.name))
    ensures WithoutBuild(Built(u, "_", f)) == PackageName(u, "_") + ("@" + (u.version + f))
  {
    NamedIs(u, f);
    if u.build.Some? {
      BuildIsCut(u, f);
    } else if u.scope.Some? {
      ScopeIsNotCut(u, f);
    } else {
      NameIsCutIff(u, f);
    }
  }

  lemma RestReadsBackIff(u: PackageUrl, f: string)
    requires WellFormed(u) && f != "" && !IsSpace(f[|f| - 1])
    ensures RestPackage(WithoutBuild(Built(u, "_", f))) == Some(PackageName(u, "/"))
       <==> && '@' !in u.version + f
            && (u.scope.Some? ==> '_' !in u.scope.value)
            && !(u.build.None? && u.scope.None? && LooksBuilt(u.name))
  {
    if u.build.None? && u.scope.None? && LooksBuilt(u.name) {
      NameIsCutIff(u, f);
      CutNameDiffers(u.name, u.version + f);
    } else {
      UncutName(u, f);
      WholeNameReadsBackIff(u, u.version + f);
    }
  }

  /** Reading back what the host and the build token leave of the name. */
  lemma RestParsesBackIff(u: PackageUrl)
    requires WellFormed(u)
    ensures var f := Flatten(u.tail + u.suffix) + ".d.ts";
            RestPackage(WithoutBuild(Built(u, "_", f))) == Some(PackageName(u, "/")) <==> Readable(u)
  {
    var f := Flatten(u.tail + u.suffix) + ".d.ts";
    assert f[|f| - 1] == 's';
    LaterAt(u);
    RestReadsBackIff(u, f);
  }

  lemma NoAtIn(name: string)
    requires Plain(name)
    ensures forall i :: 0 <= i < |name| ==> name[i] != '@'
  {
    forall i | 0 <= i < |name|
      ensures name[i] != '@'
    {
      assert name[i] in name;
    }
  }

  lemma PlainSuffix(name: string, i: nat)
    requires Plain(name) && i <= |name|
    ensures name[i..] == "" || Plain(name[i..])
  {
    var q := name[i..];
    assert forall k :: 0 <= k < |q| ==> q[k] == name[i + k];
    assert forall c <- q :: c in name;
  }

  lemma ShorterNameDiffers(name: string, q: string, after: string)
    requires Plain(name) && |q| < |name| && (q == "" || Plain(q))
    ensures RestPackage(q + ("@" + after)) != Some(name)
  {
    if '@' in after {
      ReadLaterAt(q, after);
      NoAtIn(name);
    } else if q == "" {
      LastBefore(q, '@', after);
      assert q + ("@" + after) == "@" + after;
    } else {
      ReadPlainEnd(q, after);
      NoAtIn(q);
      NothingToTrim(q);
    }
  }

  lemma CutNameDiffers(name: string, after: string)
    requires Plain(name) && LooksBuilt(name)
    ensures RestPackage(name[Index(name, '_') + 1..] + ("@" + after)) != Some(name)
  {
    var i: nat := Index(name, '_');
    PlainSuffix(name, i + 1);
    ShorterNameDiffers(name, name[i + 1..], after);
  }

  lemma WholeNameReadsBackIff(u: PackageUrl, after: string)
    requires WellFormed(u)
    ensures RestPackage(PackageName(u, "_") + ("@" + after)) == Some(PackageName(u, "/"))
       <==> '@' !in after && (u.scope.Some? ==> '_' !in u.scope.value)
  {
    var q := PackageName(u, "_");
    assert |q| == |PackageName(u, "/")|;
    assert q[0] == (if u.scope.Some? then '@' else u.name[0]) && q[|q| - 1] == u.name[|u.name| - 1];
    if '@' in after {
      ReadLaterAt(q, after);
    } else {
      ReadPlainEnd(q, after);
      ScopeSlash(u);
    }
  }

  /**
   The package read back from the cache file of a package URL is the package of that URL
   exactly when no later `@` occurs, the scope has no underscore, and an unscoped name
   without a build token does not look like one.
   */
  lemma ParsesBackIff(u: PackageUrl, dir: string)
    requires WellFormed(u) && Directory(dir) && |Flatten(Render(u))| <= MAX_NAME
    ensures LocalPackage(dir + CacheFileName(Render(u))) == Some(UrlPackage(UrlPath(u))) <==> Readable(u)
  {
    var t := Flatten(u.tail + u.suffix);
    var b := Built(u, "_", t + ".d.ts");
    var file := CacheFileName(Render(u));
    FlattenUrl(u);
    BuiltSplits(u, "_", t);
    BuiltSplits(u, "_", t + ".d.ts");
    Assoc(Built(u, "_", ""), t, ".d.ts");
    Assoc("_", Built(u, "_", t), ".d.ts");
    Assoc(u.host, "_" + Built(u, "_", t), ".d.ts");
    assert file == u.host + ("_" + b);
    assert b[|b| - 1] == 's';
    NoSlashInFile(Render(u));
    assert file[0] == u.host[0] && file[|file| - 1] == b[|b| - 1];
    ReadFile(dir, file);
    ReadHost(u.host, b);
    RestParsesBackIff(u);
    UrlPackageIs(u);
  }

  lemma NoSlashInFile(url: string)
    ensures '/' !in CacheFileName(url)
  {
    var safe := Flatten(url);
    assert forall i :: 0 <= i < |safe| ==> safe[i] != '/';
  }

  // ---------------------------------------------------------------- names that are not read

  /** The first part is no host, or nothing stands after it. */
  lemma NoHostNoPackage(dir: string, host: string, rest: string)
    requires Directory(dir) && '_' !in host && '/' !in host && '/' !in rest
    requires host != "" && !IsSpace(host[0]) && !IsSpace(host[|host| - 1]) && (rest == "" || !IsSpace(rest[|rest| - 1]))
    requires rest == "" || ('.' !in host && ':' !in host && host != "localhost")
    ensures LocalPackage(dir + (host + ("_" + rest))) == None
  {
    var file := host + ("_" + rest);
    FirstAfter(host, '_', rest);
    assert file[..|host|] == host;
    assert file[|file| - 1] == if rest == "" then '_' else rest[|rest| - 1];
    NothingToTrim(host);
    assert '/' !in file;
    ReadFile(dir, file);
  }

  /** No underscore, nothing before the first, or no version mark after it. */
  lemma NoMarkNoPackage(dir: string, file: string)
    requires Directory(dir) && file != "" && '/' !in file && !IsSpace(file[0]) && !IsSpace(file[|file| - 1])
    requires '_' !in file || file[0] == '_' || '@' !in file
    ensures LocalPackage(dir + file) == None
  {
    ReadFile(dir, file);
    var sep := Index(file, '_');
    if sep > 0 && '@' !in file {
      var rest := file[sep + 1..];
      assert forall i :: 0 <= i < |rest| ==> rest[i] == file[sep + 1 + i];
      BuildFromInside(rest, '@');
    }
  }

  lemma {:induction false} TrimFromInside(s: string, c: char)
    requires c !in s
    ensures c !in TrimSpace(s)
    decreases |s|
  {
    if s != "" {
      if IsSpace(s[0]) {
        TrimFromInside(s[1..], c);
      } else if IsSpace(s[|s| - 1]) {
        TrimFromInside(s[..|s| - 1], c);
      }
    }
  }

  lemma BuildFromInside(s: string, c: char)
    requires c !in s
    ensures c !in WithoutBuild(s)
  {
    TrimFromInside(s, c);
  }

  // ---------------------------------------------------------------- URLs without a version

  /** The package without its version, then `t`. */
  function Unversioned(u: PackageUrl, t: string): string {
    if u.scope.Some? then ("@" + u.scope.value) + ("/" + (u.name + t)) else u.name + t
  }

  function UnversionedPath(u: PackageUrl): string {
    "/" + if u.build.Some? then u.build.value + ("/" + Unversioned(u, u.tail)) else Unversioned(u, u.tail)
  }

  /** A name that is taken for a build token: it is the first of several parts and looks like one. */
  predicate TakenForBuild(u: PackageUrl) {
    u.build.None? && u.scope.None? && IsBuildToken(u.name) && u.tail != ""
  }

  lemma NameAlone(name: string)
    requires Plain(name)
    ensures TrimSpace(name) == name && WithoutVersion(name) == name && '/' !in name
    ensures name[0] != '/' && name[|name| - 1] != '/' && name[0] != '@'
  {
    NoAtIn(name);
    assert name[0] in name && name[|name| - 1] in name;
    NothingToTrim(name);
  }

  lemma ScopedAlone(scope: string, name: string)
    requires Plain(scope) && Plain(name)
    ensures WithoutVersion(("@" + scope) + ("/" + name)) == ("@" + scope) + ("/" + name)
  {
    var s := ("@" + scope) + ("/" + name);
    NoAtIn(scope);
    NoAtIn(name);
    assert s[0] == '@' && s[|s| - 1] == name[|name| - 1];
    assert name[|name| - 1] in name;
    assert forall i :: 1 <= i < |s| ==> s[i] != '@';
    NothingToTrim(s);
  }

  /** The segments of an unversioned package path begin with its scope and its name. */
  lemma UnversionedSegments(u: PackageUrl, t: string)
    requires WellFormed(u) && (t == "" || t[0] == '/')
    ensures (if u.scope.Some? then ["@" + u.scope.value] else []) + [u.name] <= Split(Unversioned(u, t))
  {
    NameAlone(u.name);
    SplitHead(u.name, t);
    if u.scope.Some? {
      NameAlone(u.scope.value);
      assert '/' !in "@" + u.scope.value;
      SplitFirst("@" + u.scope.value, u.name + t);
    }
  }

  lemma UnversionedName(u: PackageUrl, segments: seq<string>, at: nat)
    requires WellFormed(u) && at <= |segments|
    requires (if u.scope.Some? then ["@" + u.scope.value] else []) + [u.name] <= segments[at..]
    ensures at < |segments| && SegmentPackage(segments, at) == PackageName(u, "/")
  {
    NameAlone(u.name);
    if u.scope.Some? {
      var first := "@" + u.scope.value;
      assert segments[at..][0] == first && segments[at..][1] == u.name;
      assert segments[at] == first && segments[at + 1] == u.name;
      NameAlone(u.scope.value);
      NothingToTrim(first);
      assert '/' !in first;
      ScopedAlone(u.scope.value, u.name);
    } else {
      assert segments[at..][0] == u.name;
      assert segments[at] == u.name;
    }
  }

  /** The path up to the end of the name. */
  function UnversionedHead(u: PackageUrl): string {
    if u.build.Some? then u.build.value + ("/" + Unversioned(u, "")) else Unversioned(u, "")
  }

  lemma HeadSplits(u: PackageUrl, t: string)
    ensures (if u.build.Some? then u.build.value + ("/" + Unversioned(u, t)) else Unversioned(u, t))
         == UnversionedHead(u) + t
  {
    UnversionedSplits(u, t);
    Assoc("/", Unversioned(u, ""), t);
    if u.build.Some? {
      Assoc(u.build.value, "/" + Unversioned(u, ""), t);
    }
  }

  lemma HeadEnds(u: PackageUrl)
    requires WellFormed(u)
    ensures var h := UnversionedHead(u); h != "" && h[0] != '/' && h[|h| - 1] != '/'
  {
    var n := Unversioned(u, "");
    NameAlone(u.name);
    assert n[|n| - 1] == u.name[|u.name| - 1] && n[0] == if u.scope.Some? then '@' else u.name[0];
    assert u.build.Some? ==> UnversionedHead(u)[0] == 'v';
  }

  lemma UnversionedTrimmed(u: PackageUrl) returns (t: string)
    requires WellFormed(u)
    ensures t == "" || (t[0] == '/' && u.tail != "")
    ensures TrimSlashes(UnversionedPath(u))
         == if u.build.Some? then u.build.value + ("/" + Unversioned(u, t)) else Unversioned(u, t)
  {
    HeadEnds(u);
    HeadSplits(u, u.tail);
    t := TrimSlashesCutsEnd(UnversionedHead(u), u.tail);
    HeadSplits(u, t);
    assert UnversionedPath(u)[1..] == UnversionedHead(u) + u.tail;
    if u.tail == "" {
      assert TrimSlashes(UnversionedHead(u) + u.tail) == UnversionedHead(u) by {
        assert UnversionedHead(u) + u.tail == UnversionedHead(u);
      }
    }
  }

  lemma UnversionedSplits(u: PackageUrl, t: string)
    ensures Unversioned(u, t) == Unversioned(u, "") + t
  {
    Assoc(u.name, "", t);
    if u.scope.Some? {
      Assoc("/", u.name, t);
      Assoc("@" + u.scope.value, "/" + u.name, t);
    }
  }

  lemma UnversionedBuildIsSkipped(u: PackageUrl, t: string)
    requires WellFormed(u) && u.build.Some? && (t == "" || t[0] == '/')
    ensures var segments := Split(u.build.value + ("/" + Unversioned(u, t)));
            NameStart(segments) == 1 && segments[1..] == Split(Unversioned(u, t))
  {
    SplitFirst(u.build.value, Unversioned(u, t));
    NothingToTrim(u.build.value);
  }

  lemma UnversionedNameIsFirst(u: PackageUrl, t: string)
    requires WellFormed(u) && u.build.None? && (t == "" || t[0] == '/') && (t == "" || !TakenForBuild(u))
    requires t != "" ==> u.tail != ""
    ensures NameStart(Split(Unversioned(u, t))) == 0
  {
    var segments := Split(Unversioned(u, t));
    UnversionedSegments(u, t);
    NameAlone(u.name);
    if u.scope.Some? {
      NameAlone(u.scope.value);
      assert segments[0] == "@" + u.scope.value;
      NothingToTrim("@" + u.scope.value);
    } else if t == "" {
      SplitFirst(u.name, "");
      assert u.name + t == u.name;
    } else {
      assert segments[0] == u.name;
    }
  }

  lemma UnversionedIsThere(u: PackageUrl, t: string)
    requires WellFormed(u)
    ensures Unversioned(u, t) != ""
  {
  }

  /** Without a version the URL names the same package, unless its name is taken for a build token. */
  lemma UnversionedUrlPackage(u: PackageUrl)
    requires WellFormed(u) && !TakenForBuild(u)
    ensures UrlPackage(UnversionedPath(u)) == PackageName(u, "/")
  {
    var t := UnversionedTrimmed(u);
    UnversionedIsThere(u, t);
    UnversionedSegments(u, t);
    var segments := Split(TrimSlashes(UnversionedPath(u)));
    if u.build.Some? {
      UnversionedBuildIsSkipped(u, t);
    } else {
      UnversionedNameIsFirst(u, t);
      assert segments[0..] == segments;
    }
    UnversionedName(u, segments, NameStart(segments));
  }
}
