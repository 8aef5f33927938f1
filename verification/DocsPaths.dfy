/**
 Paths of the documentation viewer: relative links resolved against a page's
 directory, corpus keys turned into URL paths and back, and the rewriting of a
 link's href.
 */
module DocsPaths {
  import opened Basics

  // ---- Splitting at slashes and joining ----

  function IndexOf(s: string, c: char): (i: nat)
    ensures i <= |s|
    ensures i < |s| ==> s[i] == c
    ensures c !in s[..i]
  {
    if s == "" || s[0] == c then 0
    else
      var i := 1 + IndexOf(s[1..], c);
      assert s[..i] == [s[0]] + s[1..][..i - 1];
      i
  }

  function Split(s: string): (parts: seq<string>)
    ensures |parts| > 0
    decreases |s|
  {
    var i := IndexOf(s, '/');
    if i == |s| then [s] else [s[..i]] + Split(s[i + 1..])
  }

  function Join(parts: seq<string>): string {
    if parts == [] then "" else if |parts| == 1 then parts[0] else parts[0] + "/" + Join(parts[1..])
  }

  predicate Flat(parts: seq<string>) {
    forall i :: 0 <= i < |parts| ==> '/' !in parts[i]
  }

  lemma {:induction false} SplitIsFlat(s: string)
    ensures Flat(Split(s))
    decreases |s|
  {
    var i := IndexOf(s, '/');
    if i < |s| { SplitIsFlat(s[i + 1..]); }
  }

  lemma IndexOfConcat(a: string, b: string)
    requires '/' !in a && (b == "" || b[0] == '/')
    ensures IndexOf(a + b, '/') == |a|
  {
    var s := a + b;
    var i := IndexOf(s, '/');
    assert forall k :: 0 <= k < |a| ==> s[k] == a[k];
    if b != "" {
      assert s[|a|] == '/';
      assert forall k :: 0 <= k < i ==> s[..i][k] == s[k];
    }
  }

  lemma SplitFirst(a: string, b: string)
    requires '/' !in a
    ensures Split(a + "/" + b) == [a] + Split(b)
  {
    var s := a + "/" + b;
    assert s == a + ("/" + b);
    IndexOfConcat(a, "/" + b);
    assert s[..|a|] == a && s[|a| + 1..] == b;
  }

  lemma Slashes(a: string, b: string, c: string)
    ensures (a + "/" + b) + "/" + c == a + "/" + (b + "/" + c)
  {
  }

  lemma {:induction false} SplitSlash(a: string, b: string)
    ensures Split(a + "/" + b) == Split(a) + Split(b)
    decreases |a|
  {
    var i := IndexOf(a, '/');
    if i == |a| {
      assert a[..i] == a;
      SplitFirst(a, b);
    } else {
      var x, y := a[..i], a[i + 1..];
      assert a == x + "/" + y;
      Slashes(x, y, b);
      SplitFirst(x, y);
      SplitFirst(x, y + "/" + b);
      SplitSlash(y, b);
      Associate([x], Split(y), Split(b));
    }
  }

  lemma SplitOne(a: string)
    requires '/' !in a
    ensures Split(a) == [a]
  {
    assert a + "" == a;
    IndexOfConcat(a, "");
  }

  lemma {:induction false} SplitJoin(parts: seq<string>)
    requires parts != [] && Flat(parts)
    ensures Split(Join(parts)) == parts
  {
    SplitOne(parts[0]);
    if |parts| > 1 {
      SplitJoin(parts[1..]);
      SplitSlash(parts[0], Join(parts[1..]));
    }
  }

  lemma {:induction false} JoinAppend(a: seq<string>, b: seq<string>)
    requires a != [] && b != []
    ensures Join(a + b) == Join(a) + "/" + Join(b)
  {
    if |a| == 1 {
      assert (a + b)[1..] == b;
    } else {
      assert (a + b)[1..] == a[1..] + b && (a + b)[0] == a[0];
      JoinAppend(a[1..], b);
    }
  }

  // ---- Resolving a relative link ----

  datatype Resolved = Resolved(fullKey: string, escaped: bool)

  datatype Walk = Walk(out: seq<string>, escaped: bool)

  function Follow(w: Walk, p: string): Walk {
    if p == "" || p == "." then w
    else if p == ".." then (if w.out == [] then w.(escaped := true) else w.(out := w.out[..|w.out| - 1]))
    else w.(out := w.out + [p])
  }

  function FollowAll(w: Walk, parts: seq<string>): Walk
    decreases |parts|
  {
    if parts == [] then w else FollowAll(Follow(w, parts[0]), parts[1..])
  }

  function DirParts(dir: string): seq<string> { if dir == "" then [] else Split(dir) }

  function Resolve(dir: string, link: string): Resolved {
    var w := FollowAll(Walk([], false), DirParts(dir) + Split(link));
    Resolved(Join(w.out), w.escaped)
  }

  lemma {:induction false} FollowLast(w: Walk, parts: seq<string>, p: string)
    ensures FollowAll(w, parts + [p]) == Follow(FollowAll(w, parts), p)
    decreases |parts|
  {
    if parts == [] {
      assert parts + [p] == [p];
    } else {
      assert (parts + [p])[1..] == parts[1..] + [p];
      FollowLast(Follow(w, parts[0]), parts[1..], p);
    }
  }

  method ResolveRelative(dir: string, link: string) returns (r: Resolved)
    ensures r == Resolve(dir, link)
  {
    var parts := (if dir == "" then [] else Split(dir)) + Split(link);
    var out: seq<string> := [];
    var escaped := false;
    for i := 0 to |parts|
      invariant Walk(out, escaped) == FollowAll(Walk([], false), parts[..i])
    {
      FollowLast(Walk([], false), parts[..i], parts[i]);
      assert parts[..i + 1] == parts[..i] + [parts[i]];
      var p := parts[i];
      if p == "" || p == "." { continue; }
      if p == ".." {
        if |out| == 0 { escaped := true; } else { out := out[..|out| - 1]; }
      } else {
        out := out + [p];
      }
    }
    assert parts[..|parts|] == parts;
    return Resolved(Join(out), escaped);
  }

  // A segment that names something.
  predicate Name(p: string) { p != "" && p != "." && p != ".." && '/' !in p }

  predicate Names(parts: seq<string>) {
    forall i :: 0 <= i < |parts| ==> Name(parts[i])
  }

  lemma {:induction false} FollowAllNames(w: Walk, parts: seq<string>)
    requires Names(w.out) && Flat(parts)
    ensures Names(FollowAll(w, parts).out)
    decreases |parts|
  {
    if parts != [] { FollowAllNames(Follow(w, parts[0]), parts[1..]); }
  }

  lemma {:induction false} FollowSplit(w: Walk, a: seq<string>, b: seq<string>)
    ensures FollowAll(w, a + b) == FollowAll(FollowAll(w, a), b)
    decreases |a|
  {
    if a == [] {
      assert a + b == b;
    } else {
      assert (a + b)[1..] == a[1..] + b;
      FollowSplit(Follow(w, a[0]), a[1..], b);
    }
  }

  // Names are pushed one after the other.
  lemma {:induction false} FollowNames(w: Walk, names: seq<string>)
    requires Names(names)
    ensures FollowAll(w, names) == w.(out := w.out + names)
    decreases |names|
  {
    if names != [] {
      FollowNames(Follow(w, names[0]), names[1..]);
      assert w.out + [names[0]] + names[1..] == w.out + names;
    }
  }

  // The flag is only ever raised.
  lemma {:induction false} EscapeFlag(w: Walk, parts: seq<string>)
    ensures FollowAll(w, parts) ==
      FollowAll(w.(escaped := false), parts).(escaped := w.escaped || FollowAll(w.(escaped := false), parts).escaped)
    decreases |parts|
  {
    if parts != [] {
      var p := parts[0];
      EscapeFlag(Follow(w, p), parts[1..]);
      EscapeFlag(Follow(w.(escaped := false), p), parts[1..]);
    }
  }

  // Where a directory and a link lead: the walk's segments, all names.
  ghost function Target(dir: string, link: string): Walk {
    FollowAll(Walk([], false), DirParts(dir) + Split(link))
  }

  lemma TargetNames(dir: string, link: string)
    ensures Names(Target(dir, link).out)
    ensures Resolve(dir, link) == Resolved(Join(Target(dir, link).out), Target(dir, link).escaped)
  {
    SplitIsFlat(dir);
    SplitIsFlat(link);
    FollowAllNames(Walk([], false), DirParts(dir) + Split(link));
  }

  lemma DirPartsOfKey(names: seq<string>)
    requires Names(names)
    ensures DirParts(Join(names)) == names
  {
    if names != [] {
      SplitJoin(names);
      assert Join(names) != "" by {
        if |names| > 1 { assert |Join(names)| > 0; }
      }
    }
  }

  // ---- Main results on resolution ----

  /** The resolved key has no empty, `.` or `..` segment. */
  lemma ResolvedKeyIsClean(dir: string, link: string)
    ensures Names(DirParts(Resolve(dir, link).fullKey))
  {
    TargetNames(dir, link);
    DirPartsOfKey(Target(dir, link).out);
  }

  /** Following a link in two steps is following it at once, and it escapes when
      either step does. */
  lemma ResolveInTwoSteps(dir: string, a: string, b: string)
    ensures
      var first := Resolve(dir, a);
      var second := Resolve(first.fullKey, b);
      Resolve(dir, a + "/" + b) == Resolved(second.fullKey, first.escaped || second.escaped)
  {
    var w := Target(dir, a);
    TargetNames(dir, a);
    TargetSlash(dir, a, b);
    TargetFromKey(w.out, b);
    EscapeFlag(w, Split(b));
    assert w.(escaped := false) == Walk(w.out, false);
  }

  lemma TargetSlash(dir: string, a: string, b: string)
    ensures Target(dir, a + "/" + b) == FollowAll(Target(dir, a), Split(b))
  {
    SplitSlash(a, b);
    Associate(DirParts(dir), Split(a), Split(b));
    FollowSplit(Walk([], false), DirParts(dir) + Split(a), Split(b));
  }

  lemma TargetFromKey(names: seq<string>, link: string)
    requires Names(names)
    ensures Target(Join(names), link) == FollowAll(Walk(names, false), Split(link))
  {
    var start := Walk([], false);
    DirPartsOfKey(names);
    FollowSplit(start, names, Split(link));
    FollowNames(start, names);
    assert [] + names == names;
  }

  /** A resolved key resolves to itself, from the root and from itself. */
  lemma ResolveIsIdempotent(dir: string, link: string)
    ensures var key := Resolve(dir, link).fullKey;
      Resolve("", key) == Resolved(key, false) && Resolve(key, "") == Resolved(key, false)
  {
    var start := Walk([], false);
    var names := Target(dir, link).out;
    var key := Join(names);
    TargetNames(dir, link);
    DirPartsOfKey(names);
    FollowNames(start, names);
    assert [] + names == names;
    FollowSplit(start, names, [""]);
    SplitOne("");
    assert FollowAll(start.(out := names), [""]) == start.(out := names) by {
      assert FollowAll(start.(out := names), []) == start.(out := names);
    }
    assert [] + Split(key) == Split(key);
  }

  lemma TargetOne(names: seq<string>, p: string)
    requires Names(names) && '/' !in p
    ensures Target(Join(names), p) == Follow(Walk(names, false), p)
  {
    TargetFromKey(names, p);
    SplitOne(p);
    assert FollowAll(Walk(names, false), [p]) == FollowAll(Follow(Walk(names, false), p), []);
  }

  /** One segment from a directory: a name is appended, `..` takes the last one away and
      at the root only raises the flag, `.` and the empty segment stay. */
  lemma ResolveOneSegment(names: seq<string>, p: string)
    requires Names(names) && '/' !in p
    ensures Name(p) ==> Resolve(Join(names), p) == Resolved(Join(names + [p]), false)
    ensures names != [] ==> Resolve(Join(names), "..") == Resolved(Join(names[..|names| - 1]), false)
    ensures Resolve("", "..") == Resolved("", true)
    ensures Resolve(Join(names), ".") == Resolve(Join(names), "") == Resolved(Join(names), false)
  {
    TargetOne(names, p);
    TargetOne(names, "..");
    TargetOne(names, ".");
    TargetOne(names, "");
    TargetOne([], "..");
  }

  /** A name followed by `..` cancels out, wherever it is followed from. */
  lemma NameThenUpCancels(dir: string, x: string, rest: string)
    requires Name(x)
    ensures Resolve(dir, x + "/../" + rest) == Resolve(dir, rest)
  {
    var w := FollowAll(Walk([], false), DirParts(dir));
    var up, steps := "../" + rest, [x, ".."];
    assert up == ".." + "/" + rest && x + "/../" + rest == x + "/" + up;
    SplitFirst(x, up);
    SplitFirst("..", rest);
    Associate([x], [".."], Split(rest));
    assert [x] + [".."] == steps;
    assert FollowAll(w, steps) == w by { NameThenUp(w, x); }
    StepsCancel(dir, x + "/../" + rest, steps, rest);
  }

  lemma NameThenUp(w: Walk, x: string)
    requires Name(x)
    ensures FollowAll(w, [x, ".."]) == w
  {
    FollowLast(w, [x], "..");
    FollowLast(w, [], x);
    assert [x] + [".."] == [x, ".."] && [] + [x] == [x];
  }

  // Segments that lead from the directory back to it may be left out.
  lemma StepsCancel(dir: string, link: string, steps: seq<string>, rest: string)
    requires Split(link) == steps + Split(rest)
    requires var w := FollowAll(Walk([], false), DirParts(dir)); FollowAll(w, steps) == w
    ensures Resolve(dir, link) == Resolve(dir, rest)
  {
    hide FollowAll, Split, DirParts, Join;
    var w := FollowAll(Walk([], false), DirParts(dir));
    FollowSplit(Walk([], false), DirParts(dir), steps + Split(rest));
    FollowSplit(Walk([], false), DirParts(dir), Split(rest));
    FollowSplit(w, steps, Split(rest));
  }

  /** `.` and doubled slashes change nothing. */
  lemma IdleSegmentsCancel(dir: string, idle: string, rest: string)
    requires idle == "" || idle == "."
    ensures Resolve(dir, idle + "/" + rest) == Resolve(dir, rest)
  {
    var w := FollowAll(Walk([], false), DirParts(dir));
    SplitFirst(idle, rest);
    FollowLast(w, [], idle);
    assert [] + [idle] == [idle];
    StepsCancel(dir, idle + "/" + rest, [idle], rest);
  }

  // Names minus climbs.
  function Height(parts: seq<string>): int {
    if parts == [] then 0 else
    var p := parts[|parts| - 1];
    Height(parts[..|parts| - 1]) + (if p == "" || p == "." then 0 else if p == ".." then -1 else 1)
  }

  ghost predicate ClimbsOut(parts: seq<string>) { exists n :: 0 <= n <= |parts| && Height(parts[..n]) < 0 }

  lemma ClimbsOutLast(parts: seq<string>, p: string)
    ensures ClimbsOut(parts + [p]) <==> ClimbsOut(parts) || Height(parts + [p]) < 0
  {
    var all := parts + [p];
    assert forall n :: 0 <= n <= |parts| ==> all[..n] == parts[..n];
    assert all[..|all|] == all;
    if ClimbsOut(parts) {
      var n :| 0 <= n <= |parts| && Height(parts[..n]) < 0;
      assert Height(all[..n]) < 0;
    }
  }

  /** The flag says exactly that some prefix of the path climbs out of the root. */
  lemma {:induction false} EscapedIffClimbsOut(parts: seq<string>)
    ensures FollowAll(Walk([], false), parts).escaped <==> ClimbsOut(parts)
    ensures !FollowAll(Walk([], false), parts).escaped ==> |FollowAll(Walk([], false), parts).out| == Height(parts)
  {
    if parts == [] {
      assert forall n :: 0 <= n <= |parts| ==> parts[..n] == [];
    } else {
      var m := |parts| - 1;
      assert parts == parts[..m] + [parts[m]];
      EscapedIffClimbsOut(parts[..m]);
      FollowLast(Walk([], false), parts[..m], parts[m]);
      ClimbsOutLast(parts[..m], parts[m]);
    }
  }

  /** A link escapes exactly when the directory and the link together climb out. */
  lemma ResolveEscapes(dir: string, link: string)
    ensures Resolve(dir, link).escaped <==>
      ClimbsOut((if dir == "" then [] else Split(dir)) + Split(link))
  {
    EscapedIffClimbsOut(DirParts(dir) + Split(link));
  }

  // ---- Keys and URL paths ----

  function SliceFrom(s: string, n: nat): string { if n <= |s| then s[n..] else "" }

  predicate StartsWith(s: string, p: string) { p <= s }

  predicate EndsWith(s: string, p: string) { |p| <= |s| && s[|s| - |p|..] == p }

  // `s.toLowerCase().endsWith(".md")`
  predicate EndsWithMd(s: string) {
    |s| >= 3 && s[|s| - 3] == '.' && s[|s| - 2] in "mM" && s[|s| - 1] in "dD"
  }

  predicate InCorpus(key: string, indexDir: string) {
    indexDir == "" || key == indexDir || StartsWith(key, indexDir + "/")
  }

  /** A key is in the corpus exactly when the segments of the index directory are the
      first segments of the key. */
  lemma InCorpusIsBelow(names: seq<string>, dirs: seq<string>)
    requires Names(names) && Names(dirs)
    ensures InCorpus(Join(names), Join(dirs)) <==> dirs <= names
  {
    var key, dir := Join(names), Join(dirs);
    DirPartsOfKey(names);
    DirPartsOfKey(dirs);
    if dirs != [] && dir + "/" <= key {
      var rest := key[|dir| + 1..];
      assert key == dir + "/" + rest;
      SplitSlash(dir, rest);
    }
    if dirs <= names && dirs != [] && names != dirs {
      var tail := names[|dirs|..];
      assert names == dirs + tail;
      JoinAppend(dirs, tail);
      assert key == dir + "/" + Join(tail);
      assert dir + "/" <= key;
    }
  }

  // The key below the index directory.
  function Relative(key: string, indexDir: string): string {
    if indexDir == "" then key else SliceFrom(key, |indexDir| + 1)
  }

  function KeyToUrl(key: string, indexDir: string, indexPath: string): string {
    if key == indexPath then ""
    else
      var rel := Relative(key, indexDir);
      if EndsWithMd(rel) then rel[..|rel| - 3] else rel
  }

  function UrlToKey(url: string, indexDir: string, indexPath: string): string {
    if url == "" then indexPath
    else if indexDir == "" then url + ".md" else indexDir + "/" + (url + ".md")
  }

  // The index page, or a key below the index directory that ends in a
  // lower-case `.md` after at least one character.
  predicate Addressable(key: string, indexDir: string, indexPath: string) {
    key == indexPath || (EndsWith(Relative(key, indexDir), ".md") && |Relative(key, indexDir)| > 3)
  }

  lemma StemRoundTrip(rel: string)
    requires EndsWithMd(rel)
    ensures rel[..|rel| - 3] + ".md" == rel <==> EndsWith(rel, ".md")
  {
    assert rel == rel[..|rel| - 3] + rel[|rel| - 3..];
  }

  /** A corpus key survives the trip through its URL path exactly when it is
      addressable. */
  lemma KeyRoundTrip(key: string, indexDir: string, indexPath: string)
    requires InCorpus(key, indexDir)
    ensures UrlToKey(KeyToUrl(key, indexDir, indexPath), indexDir, indexPath) == key <==>
      Addressable(key, indexDir, indexPath)
  {
    if key != indexPath {
      var rel, url := Relative(key, indexDir), KeyToUrl(key, indexDir, indexPath);
      RelativeRoundTrip(rel);
      if url != "" { UrlKeyIsKey(key, url, indexDir, indexPath); }
    }
  }

  lemma LowerMdIsMd(s: string)
    ensures EndsWith(s, ".md") ==> EndsWithMd(s)
  {
    if EndsWith(s, ".md") {
      var end := s[|s| - 3..];
      assert end[0] == s[|s| - 3] && end[1] == s[|s| - 2] && end[2] == s[|s| - 1];
    }
  }

  // Stripping the extension and appending `.md` restores the relative key.
  lemma RelativeRoundTrip(rel: string)
    ensures var url := if EndsWithMd(rel) then rel[..|rel| - 3] else rel;
      url != "" && url + ".md" == rel <==> EndsWith(rel, ".md") && |rel| > 3
  {
    LowerMdIsMd(rel);
    if EndsWithMd(rel) {
      StemRoundTrip(rel);
    } else {
      assert |rel + ".md"| != |rel|;
    }
  }

  // The key of a URL path is this one exactly when their relative parts agree.
  lemma UrlKeyIsKey(key: string, url: string, indexDir: string, indexPath: string)
    requires InCorpus(key, indexDir) && url != "" && key != indexPath
    ensures UrlToKey(url, indexDir, indexPath) == key <==> url + ".md" == Relative(key, indexDir)
  {
    var rel := Relative(key, indexDir);
    if indexDir != "" {
      var front := indexDir + "/";
      assert UrlToKey(url, indexDir, indexPath) == front + (url + ".md");
    }
  }

  /** A URL path survives the trip through its key exactly when it is empty or its
      key is not the index page's. */
  lemma UrlRoundTrip(url: string, indexDir: string, indexPath: string)
    ensures KeyToUrl(UrlToKey(url, indexDir, indexPath), indexDir, indexPath) == url <==>
      url == "" || UrlToKey(url, indexDir, indexPath) != indexPath
  {
    if url != "" {
      var key := UrlToKey(url, indexDir, indexPath);
      assert Relative(key, indexDir) == url + ".md";
      assert (url + ".md")[..|url|] == url;
    }
  }

  /** A page below the index directory has its own path there without the extension as
      its URL path, any other file has all of it, and the index page has none. */
  lemma UrlOfKey(rel: string, indexDir: string, indexPath: string)
    ensures var front := if indexDir == "" then "" else indexDir + "/";
      && KeyToUrl(indexPath, indexDir, indexPath) == "" && UrlToKey("", indexDir, indexPath) == indexPath
      && (rel != "" ==> UrlToKey(rel, indexDir, indexPath) == front + (rel + ".md"))
      && (front + (rel + ".md") != indexPath ==> KeyToUrl(front + (rel + ".md"), indexDir, indexPath) == rel)
      && (front + rel != indexPath && !EndsWithMd(rel) ==> KeyToUrl(front + rel, indexDir, indexPath) == rel)
  {
    var front := if indexDir == "" then "" else indexDir + "/";
    assert Relative(front + rel, indexDir) == rel && Relative(front + (rel + ".md"), indexDir) == rel + ".md";
    assert (rel + ".md")[..|rel|] == rel;
  }

  /** Distinct addressable pages have distinct URL paths. */
  lemma DistinctUrls(a: string, b: string, indexDir: string, indexPath: string)
    requires InCorpus(a, indexDir) && InCorpus(b, indexDir)
    requires Addressable(a, indexDir, indexPath) && Addressable(b, indexDir, indexPath)
    requires KeyToUrl(a, indexDir, indexPath) == KeyToUrl(b, indexDir, indexPath)
    ensures a == b
  {
    KeyRoundTrip(a, indexDir, indexPath);
    KeyRoundTrip(b, indexDir, indexPath);
  }

  // ---- Rewriting an href ----

  function LastSlash(path: string): (i: int)
    ensures -1 <= i < |path|
  {
    if path == "" then -1
    else if path[|path| - 1] == '/' then |path| - 1
    else LastSlash(path[..|path| - 1])
  }

  function FileDir(path: string): string {
    var i := LastSlash(path);
    if i == -1 then "" else path[..i]
  }

  /** The directory of a path is what stands before its last slash. */
  lemma {:induction false} FileDirExactly(path: string)
    ensures '/' !in path ==> FileDir(path) == ""
    ensures forall d, x :: '/' !in x && path == d + "/" + x ==> FileDir(path) == d
  {
    LastSlashIsLast(path);
    forall d, x | '/' !in x && path == d + "/" + x ensures FileDir(path) == d {
      assert path[|d|] == '/';
      assert forall k :: |d| < k < |path| ==> path[k] == x[k - |d| - 1];
    }
  }

  lemma {:induction false} LastSlashIsLast(path: string)
    ensures LastSlash(path) == -1 ==> '/' !in path
    ensures LastSlash(path) >= 0 ==> path[LastSlash(path)] == '/'
    ensures forall k :: LastSlash(path) < k < |path| ==> path[k] != '/'
  {
    if path != "" && path[|path| - 1] != '/' { LastSlashIsLast(path[..|path| - 1]); }
  }

  /** A page's directory has all its segments but the last, so a bare name links to the
      page's sibling and `../name` to its parent's. */
  lemma LinksFromPage(names: seq<string>, page: string, x: string)
    requires Names(names) && Name(page) && Name(x)
    ensures var dir := FileDir(Join(names + [page]));
      && dir == Join(names)
      && Resolve(dir, x) == Resolved(Join(names + [x]), false)
      && (names != [] ==> Resolve(dir, "../" + x) == Resolved(Join(names[..|names| - 1] + [x]), false))
  {
    hide FileDir, Resolve, Join;
    ResolveOneSegment(names, x);
    DirOfKey(names, page);
    if names != [] {
      var up := names[..|names| - 1];
      ResolveOneSegment(up, x);
      ResolveOneSegment(names, x);
      ResolveInTwoSteps(Join(names), "..", x);
      assert "../" + x == ".." + "/" + x;
    }
  }

  lemma DirOfKey(names: seq<string>, page: string)
    requires '/' !in page
    ensures FileDir(Join(names + [page])) == Join(names)
  {
    hide FileDir;
    FileDirExactly(Join(names + [page]));
    if names == [] {
      assert names + [page] == [page];
    } else {
      JoinAppend(names, [page]);
    }
  }

  datatype Anchored = Anchored(path: string, anchor: string)

  function SplitAnchor(href: string): Anchored {
    var i := IndexOf(href, '#');
    Anchored(href[..i], href[i..])
  }

  predicate IsAlpha(c: char) { 'a' <= c <= 'z' || 'A' <= c <= 'Z' }

  predicate IsSchemeChar(c: char) { IsAlpha(c) || '0' <= c <= '9' || c in "+.-" }

  predicate SchemeTail(s: string) {
    s != "" && (s[0] == ':' || (IsSchemeChar(s[0]) && SchemeTail(s[1..])))
  }

  predicate HasScheme(href: string) { href != "" && IsAlpha(href[0]) && SchemeTail(href[1..]) }

  datatype Kind = Page | Asset | External | Anchor | Dead
  datatype Href = Href(href: string, kind: Kind)

  // `encode` is encodeURIComponent and `decode` its inverse; `rawUrl` builds the
  // address of a raw file.
  datatype Context = Context(
    repo: string, version: string, indexDir: string, indexPath: string, pageKey: string,
    encode: string -> string, decode: string -> string, rawUrl: string -> string)
  {
    ghost predicate Valid() {
      forall s :: decode(encode(s)) == s && '/' !in encode(s) && '#' !in encode(s) && (encode(s) == "" <==> s == "")
    }

    function Base(): string { "/docs/" + encode(repo) + "/" + encode(version) }
  }

  function Encoded(ctx: Context, parts: seq<string>): seq<string> {
    seq(|parts|, i requires 0 <= i < |parts| => ctx.encode(parts[i]))
  }

  function Decoded(ctx: Context, parts: seq<string>): seq<string> {
    seq(|parts|, i requires 0 <= i < |parts| => ctx.decode(parts[i]))
  }

  function EncodeUrlPath(ctx: Context, url: string): string { Join(Encoded(ctx, Split(url))) }

  function PageAddress(ctx: Context, url: string): string {
    if url == "" then ctx.Base() else ctx.Base() + "/" + EncodeUrlPath(ctx, url)
  }

  function RewriteHref(href: string, ctx: Context): Href {
    if StartsWith(href, "#") then Href(href, Anchor)
    else if HasScheme(href) || StartsWith(href, "//") then Href(href, External)
    else if StartsWith(href, "/") then Href(href, Dead)
    else
      var a := SplitAnchor(href);
      if a.path == "" then Href(href, Anchor)
      else
        var r := Resolve(FileDir(ctx.pageKey), a.path);
        if r.escaped || !InCorpus(r.fullKey, ctx.indexDir) then Href(href, Dead)
        else if EndsWithMd(a.path) then
          var url := KeyToUrl(r.fullKey, ctx.indexDir, ctx.indexPath);
          Href(PageAddress(ctx, url) + a.anchor, Page)
        else Href(ctx.rawUrl(r.fullKey) + a.anchor, Asset)
  }

  // A letter, then letters, digits, `+`, `.` and `-`, then a colon.
  ghost predicate Schemed(href: string) {
    exists n :: 0 < n < |href| && SchemeEnds(href, n)
  }

  ghost predicate SchemeEnds(href: string, n: nat)
    requires n < |href|
  {
    && href[n] == ':' && ('a' <= href[0] <= 'z' || 'A' <= href[0] <= 'Z')
    && forall i :: 0 < i < n ==>
         || 'a' <= href[i] <= 'z' || 'A' <= href[i] <= 'Z' || '0' <= href[i] <= '9'
         || href[i] == '+' || href[i] == '.' || href[i] == '-'
  }

  lemma {:induction false} SchemeTailExactly(s: string)
    ensures SchemeTail(s) <==> exists n :: 0 <= n < |s| && s[n] == ':' && forall i :: 0 <= i < n ==> IsSchemeChar(s[i])
  {
    if s != "" {
      SchemeTailExactly(s[1..]);
      if SchemeTail(s) && s[0] != ':' {
        var n :| 0 <= n < |s[1..]| && s[1..][n] == ':' && forall i :: 0 <= i < n ==> IsSchemeChar(s[1..][i]);
        assert s[n + 1] == ':' && forall i :: 1 <= i < n + 1 ==> s[i] == s[1..][i - 1];
      }
      if n :| 0 <= n < |s| && s[n] == ':' && forall i :: 0 <= i < n ==> IsSchemeChar(s[i]) {
        if n > 0 { assert s[1..][n - 1] == ':' && forall i :: 0 <= i < n - 1 ==> s[1..][i] == s[i + 1]; }
      }
    }
  }

  lemma HasSchemeExactly(href: string)
    ensures HasScheme(href) <==> Schemed(href)
  {
    if href != "" {
      var s := href[1..];
      SchemeTailExactly(s);
      if HasScheme(href) {
        var n :| 0 <= n < |s| && s[n] == ':' && forall i :: 0 <= i < n ==> IsSchemeChar(s[i]);
        assert forall i :: 1 <= i < n + 1 ==> href[i] == s[i - 1];
        assert SchemeEnds(href, n + 1);
      }
      if n :| 0 < n < |href| && SchemeEnds(href, n) {
        assert s[n - 1] == ':' && forall i :: 0 <= i < n - 1 ==> s[i] == href[i + 1];
      }
    }
  }

  // The link leads to a file of the corpus.
  ghost predicate Reaches(ctx: Context, r: Resolved) { !r.escaped && InCorpus(r.fullKey, ctx.indexDir) }

  // The link is external: it has a scheme or names a host.
  ghost predicate Foreign(href: string) { Schemed(href) || "//" <= href }

  lemma RewrittenHref(href: string, ctx: Context, path: string, anchor: string)
    requires href == path + anchor && '#' !in path && (anchor == "" || anchor[0] == '#')
    ensures RewriteHref(href, ctx) ==
      var r := Resolve(FileDir(ctx.pageKey), path);
      if path == "" then Href(href, Anchor)
      else if Foreign(href) then Href(href, External)
      else if path[0] == '/' || !Reaches(ctx, r) then Href(href, Dead)
      else if EndsWithMd(path)
      then Href(PageAddress(ctx, KeyToUrl(r.fullKey, ctx.indexDir, ctx.indexPath)) + anchor, Page)
      else Href(ctx.rawUrl(r.fullKey) + anchor, Asset)
  {
    HashIndex(path, anchor);
    HasSchemeExactly(href);
    HrefStarts(href, path, anchor);
    hide Resolve, FileDir, InCorpus, KeyToUrl, HasScheme, SplitAnchor, Schemed, EndsWithMd, PageAddress, StartsWith;
    if path == "" { NoSchemeBeforeHash(href); }
  }

  /** What every link becomes: anchors, external links and dead ones stay as written, a
      link to a Markdown file of the corpus becomes that page's address and one to any
      other file of it the raw file's, each with its anchor. */
  lemma HrefExactly(href: string, ctx: Context, path: string, anchor: string)
    requires href == path + anchor && '#' !in path && (anchor == "" || anchor[0] == '#')
    ensures var out, r := RewriteHref(href, ctx), Resolve(FileDir(ctx.pageKey), path);
      var url := KeyToUrl(r.fullKey, ctx.indexDir, ctx.indexPath);
      var base := "/docs/" + ctx.encode(ctx.repo) + "/" + ctx.encode(ctx.version);
      && (out.kind == Anchor <==> path == "")
      && (out.kind == External <==> Foreign(href))
      && (out.kind == Dead <==> path != "" && !Foreign(href) && (path[0] == '/' || !Reaches(ctx, r)))
      && (out.kind == Page || out.kind == Asset ==> (out.kind == Page <==> EndsWithMd(path)))
      && (out.kind == Anchor || out.kind == External || out.kind == Dead ==> out.href == href)
      && (out.kind == Asset ==> out.href == ctx.rawUrl(r.fullKey) + anchor)
      && (out.kind == Page ==>
           out.href == (if url == "" then base else base + "/" + Join(Encoded(ctx, Split(url)))) + anchor)
  {
    RewrittenHref(href, ctx, path, anchor);
    PageAddressExactly(ctx, KeyToUrl(Resolve(FileDir(ctx.pageKey), path).fullKey, ctx.indexDir, ctx.indexPath));
    if path == "" {
      NoSchemeBeforeHash(href);
      assert !Foreign(href);
    }
    hide RewriteHref, Resolve, FileDir, KeyToUrl, EndsWithMd, PageAddress, Encoded, Split, Join, Reaches, Foreign;
  }

  lemma PageAddressExactly(ctx: Context, url: string)
    ensures var base := "/docs/" + ctx.encode(ctx.repo) + "/" + ctx.encode(ctx.version);
      PageAddress(ctx, url) == if url == "" then base else base + "/" + Join(Encoded(ctx, Split(url)))
  {
  }

  lemma HrefStarts(href: string, path: string, anchor: string)
    requires href == path + anchor && '#' !in path && (anchor == "" || anchor[0] == '#')
    ensures StartsWith(href, "#") <==> path == "" && href != ""
    ensures StartsWith(href, "/") <==> path != "" && path[0] == '/'
    ensures StartsWith(href, "//") <==> "//" <= href
    ensures "//" <= href ==> path != ""
  {
    if path != "" { assert href[0] == path[0]; } else { assert href == anchor; }
  }

  lemma NoSchemeBeforeHash(href: string)
    requires href == "" || href[0] == '#'
    ensures !Schemed(href)
  {
  }

  // The router's reading of a page address: the URL path below the base.
  function UrlOfPage(href: string, ctx: Context): string {
    var path := SplitAnchor(href).path;
    Join(Decoded(ctx, DirParts(SliceFrom(path, |ctx.Base()| + 1))))
  }

  lemma HashIndex(path: string, anchor: string)
    requires '#' !in path && (anchor == "" || anchor[0] == '#')
    ensures SplitAnchor(path + anchor) == Anchored(path, anchor)
  {
    var s := path + anchor;
    var i := IndexOf(s, '#');
    assert forall k :: 0 <= k < |path| ==> s[k] == path[k];
    if anchor != "" {
      assert s[|path|] == '#';
      assert forall k :: 0 <= k < i ==> s[..i][k] == s[k];
    }
    assert s[..|path|] == path && s[|path|..] == anchor;
  }

  lemma {:induction false} JoinAvoids(parts: seq<string>)
    requires forall i :: 0 <= i < |parts| ==> '#' !in parts[i]
    ensures '#' !in Join(parts)
  {
    if |parts| > 1 { JoinAvoids(parts[1..]); }
  }

  lemma JoinCons(first: string, rest: seq<string>)
    ensures Join([first] + rest) == if rest == [] then first else first + "/" + Join(rest)
  {
    assert ([first] + rest)[1..] == rest;
  }

  lemma {:induction false} JoinSplit(s: string)
    ensures Join(Split(s)) == s
    decreases |s|
  {
    hide Join, IndexOf;
    var i := IndexOf(s, '/');
    if i < |s| {
      var front, back := s[..i], s[i + 1..];
      JoinSplit(back);
      JoinCons(front, Split(back));
      assert s == front + "/" + back;
    } else {
      JoinCons(s, []);
      assert [s] + [] == [s];
    }
  }

  lemma EncodeRoundTrip(ctx: Context, url: string)
    requires ctx.Valid()
    ensures Join(Decoded(ctx, DirParts(EncodeUrlPath(ctx, url)))) == url
    ensures '#' !in EncodeUrlPath(ctx, url)
  {
    var parts := Split(url);
    var enc := Encoded(ctx, parts);
    assert forall i :: 0 <= i < |enc| ==> enc[i] == ctx.encode(parts[i]);
    SplitJoin(enc);
    JoinAvoids(enc);
    JoinSplit(url);
    if url == "" {
      SplitOne(url);
    } else {
      assert Join(enc) != "" by {
        if |enc| == 1 { assert parts[0] == url; }
      }
      assert Decoded(ctx, enc) == parts;
    }
  }

  lemma MdAfterSlash(front: string, x: string)
    ensures EndsWithMd(front + "/" + x) <==> EndsWithMd(x)
  {
    var s := front + "/" + x;
    var n, m := |s|, |x|;
    assert n == |front| + 1 + m;
    if m >= 3 {
      assert s[n - 3] == x[m - 3] && s[n - 2] == x[m - 2] && s[n - 1] == x[m - 1];
    } else {
      assert s[n - 1 - m] == '/';
    }
  }

  lemma MdJoin(front: seq<string>, last: string)
    ensures EndsWithMd(Join(front + [last])) <==> EndsWithMd(last)
  {
    if front == [] {
      assert front + [last] == [last];
    } else {
      JoinAppend(front, [last]);
      MdAfterSlash(Join(front), last);
    }
  }

  // A path that ends in .md has a last segment that does.
  lemma LastSegment(path: string)
    requires EndsWithMd(path)
    ensures EndsWithMd(Split(path)[|Split(path)| - 1])
  {
    hide Join, Split, EndsWithMd;
    var parts := Split(path);
    var n := |parts| - 1;
    JoinSplit(path);
    assert parts == parts[..n] + [parts[n]];
    MdJoin(parts[..n], parts[n]);
  }

  lemma FollowToMd(parts: seq<string>, last: string)
    requires EndsWithMd(last)
    ensures EndsWithMd(Join(FollowAll(Walk([], false), parts + [last]).out))
  {
    FollowLast(Walk([], false), parts, last);
    MdJoin(FollowAll(Walk([], false), parts).out, last);
  }

  // The file a link names is the file its resolved key names.
  lemma MdLinkHasMdKey(dir: string, link: string)
    requires EndsWithMd(link)
    ensures EndsWithMd(Resolve(dir, link).fullKey)
  {
    var parts := Split(link);
    var n := |parts| - 1;
    LastSegment(link);
    assert parts == parts[..n] + [parts[n]];
    Associate(DirParts(dir), parts[..n], [parts[n]]);
    FollowToMd(DirParts(dir) + parts[..n], parts[n]);
  }

  lemma BaseAvoidsHash(ctx: Context)
    requires ctx.Valid()
    ensures '#' !in ctx.Base()
  {
    var r, v := ctx.encode(ctx.repo), ctx.encode(ctx.version);
    assert '#' !in r && '#' !in v;
  }

  lemma PageAddressDecodes(ctx: Context, url: string, anchor: string)
    requires ctx.Valid() && (anchor == "" || anchor[0] == '#')
    ensures SplitAnchor(PageAddress(ctx, url) + anchor).anchor == anchor
    ensures UrlOfPage(PageAddress(ctx, url) + anchor, ctx) == url
  {
    var base := ctx.Base();
    BaseAvoidsHash(ctx);
    if url == "" {
      HashIndex(base, anchor);
    } else {
      EncodeRoundTrip(ctx, url);
      var path := base + "/" + EncodeUrlPath(ctx, url);
      HashIndex(path, anchor);
      assert path[|base| + 1..] == EncodeUrlPath(ctx, url);
    }
  }

  /** Every page link stays in the corpus, names a Markdown file, keeps its anchor,
      and is routed to the URL path of the key it resolves to, so that it opens
      that very page exactly when the key is addressable. */
  lemma PageLinkOpensItsPage(href: string, ctx: Context)
    requires ctx.Valid() && RewriteHref(href, ctx).kind == Page
    ensures
      var a, out := SplitAnchor(href), RewriteHref(href, ctx).href;
      var r := Resolve(FileDir(ctx.pageKey), a.path);
      && !r.escaped && InCorpus(r.fullKey, ctx.indexDir) && EndsWithMd(r.fullKey)
      && SplitAnchor(out).anchor == a.anchor
      && UrlOfPage(out, ctx) == KeyToUrl(r.fullKey, ctx.indexDir, ctx.indexPath)
      && (UrlToKey(UrlOfPage(out, ctx), ctx.indexDir, ctx.indexPath) == r.fullKey <==>
        Addressable(r.fullKey, ctx.indexDir, ctx.indexPath))
  {
    var a := SplitAnchor(href);
    var r := Resolve(FileDir(ctx.pageKey), a.path);
    var url := KeyToUrl(r.fullKey, ctx.indexDir, ctx.indexPath);
    MdLinkHasMdKey(FileDir(ctx.pageKey), a.path);
    KeyRoundTrip(r.fullKey, ctx.indexDir, ctx.indexPath);
    PageAddressDecodes(ctx, url, a.anchor);
  }

  /** The two exceptions are real: an upper-case extension and an empty stem. */
  lemma UnaddressablePages()
    ensures UrlToKey(KeyToUrl("A.MD", "", "index.md"), "", "index.md") == "A.md"
    ensures UrlToKey(KeyToUrl(".md", "", "index.md"), "", "index.md") == "index.md"
  {
    assert KeyToUrl("A.MD", "", "index.md") == "A";
    assert KeyToUrl(".md", "", "index.md") == "";
  }
}
