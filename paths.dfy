/** Path helpers: joining, splitting into components, and the directory
    and base name of a path. */
module Paths {

  /** The number of `c` characters that `s` starts with. */
  function Leading(s: string, c: char): (n: nat)
    ensures n <= |s| && (n < |s| ==> s[n] != c)
    ensures forall i :: 0 <= i < n ==> s[i] == c
  {
    if s != [] && s[0] == c then 1 + Leading(s[1..], c) else 0
  }

  /** The number of `c` characters that `s` ends with. */
  function Trailing(s: string, c: char): (n: nat)
    ensures n <= |s| && (n < |s| ==> s[|s| - 1 - n] != c)
    ensures forall i :: |s| - n <= i < |s| ==> s[i] == c
  {
    if s != [] && s[|s| - 1] == c then 1 + Trailing(s[..|s| - 1], c) else 0
  }

  /** `s` without its leading `c` characters. */
  function TrimLeft(s: string, c: char): string
  {
    s[Leading(s, c)..]
  }

  /** `s` without its trailing `c` characters. */
  function TrimRight(s: string, c: char): string
  {
    s[..|s| - Trailing(s, c)]
  }

  /** `PathJoin(a, b)`: `a` without trailing slashes, one slash, then `b`
      without leading or trailing slashes; slash runs inside `b` stay. */
  function PathJoin(a: string, b: string): string
  {
    TrimRight(a, '/') + "/" + TrimLeft(TrimRight(b, '/'), '/')
  }

  /** The join has exactly one slash where the parts meet: what is dropped
      from either part is slashes only, and neither kept piece has a slash
      at the joint or at the end. */
  lemma PathJoinOneSlash(a: string, b: string)
    ensures var head := TrimRight(a, '/');
            var right := TrimRight(b, '/');
            var tail := TrimLeft(right, '/');
            var p := PathJoin(a, b);
            a[..|head|] == head && (forall i :: |head| <= i < |a| ==> a[i] == '/')
            && (forall i :: |right| <= i < |b| ==> b[i] == '/')
            && (forall i :: 0 <= i < |right| - |tail| ==> b[i] == '/')
            && right[|right| - |tail|..] == tail && b[..|right|] == right
            && |p| == |head| + 1 + |tail|
            && p[..|head|] == head && p[|head|] == '/' && p[|head| + 1..] == tail
            && (head == [] || head[|head| - 1] != '/')
            && (tail == [] || (tail[0] != '/' && tail[|tail| - 1] != '/'))
  {
    var head := TrimRight(a, '/');
    var right := TrimRight(b, '/');
    var tail := TrimLeft(right, '/');
    var p := PathJoin(a, b);
    assert p == head + "/" + tail;
    if tail != [] {
      assert tail[|tail| - 1] == right[|right| - 1];
    }
  }

  /** `PathJoin(a, b, c, ...)`: joins from left to right, pairwise. */
  function PathJoinAll(first: string, rest: seq<string>): (p: string)
    ensures rest == [] ==> p == first
  {
    if rest == [] then first
    else PathJoin(PathJoinAll(first, rest[..|rest| - 1]), rest[|rest| - 1])
  }

  /** Joining one more part joins it onto the result of the earlier parts. */
  lemma PathJoinAllStep(first: string, rest: seq<string>, part: string)
    ensures PathJoinAll(first, rest + [part]) == PathJoin(PathJoinAll(first, rest), part)
  {
    assert (rest + [part])[..|rest|] == rest;
  }

  /** The position of the first `/` in `s`, or `|s|` when there is none. */
  function FirstSlash(s: string): (k: nat)
    ensures k <= |s| && (k < |s| ==> s[k] == '/')
    ensures forall i :: 0 <= i < k ==> s[i] != '/'
  {
    if s == [] || s[0] == '/' then 0 else 1 + FirstSlash(s[1..])
  }

  /** The non-empty components of `s`, in order. */
  function Components(s: string): seq<string>
    decreases |s|
  {
    if s == [] then []
    else if s[0] == '/' then Components(s[1..])
    else
      var k := FirstSlash(s);
      [s[..k]] + Components(s[k..])
  }

  /** `PathSplit(path)`: the components of `path`, after a `"/"` entry when
      the path is absolute; slash runs and trailing slashes are ignored. */
  function PathSplit(path: string): seq<string>
  {
    if path != [] && path[0] == '/' then ["/"] + Components(path) else Components(path)
  }

  /** Every component is a non-empty word without slashes. */
  lemma {:induction false} ComponentsAreWords(s: string)
    ensures forall j :: 0 <= j < |Components(s)| ==>
              Components(s)[j] != [] && '/' !in Components(s)[j]
    decreases |s|
  {
    if s != [] {
      if s[0] == '/' {
        ComponentsAreWords(s[1..]);
      } else {
        var k := FirstSlash(s);
        ComponentsAreWords(s[k..]);
        assert forall c :: c in s[..k] ==> c != '/';
      }
    }
  }

  /** A split is empty only for the empty path, starts with `"/"` exactly when
      the path is absolute, and holds non-empty slash-free words after that. */
  lemma PathSplitShape(path: string)
    ensures path == [] ==> PathSplit(path) == []
    ensures (path != [] && path[0] == '/') <==> (PathSplit(path) != [] && PathSplit(path)[0] == "/")
    ensures forall j :: 0 <= j < |PathSplit(path)| && PathSplit(path)[j] != "/" ==>
              PathSplit(path)[j] != [] && '/' !in PathSplit(path)[j]
    ensures forall j :: 0 < j < |PathSplit(path)| ==> PathSplit(path)[j] != "/"
  {
    ComponentsAreWords(path);
    assert '/' in "/";
    var parts := PathSplit(path);
    if path != [] && path[0] == '/' {
      assert parts[1..] == Components(path);
    } else if parts != [] {
      assert parts[0] in Components(path);
    }
  }

  /** The position of the last `/` in `p`, if any. */
  function LastSlash(p: string): (k: int)
    ensures -1 <= k < |p| && (k >= 0 ==> p[k] == '/')
    ensures forall i :: k < i < |p| ==> p[i] != '/'
  {
    if p == [] then -1
    else if p[|p| - 1] == '/' then |p| - 1
    else LastSlash(p[..|p| - 1])
  }

  /** `Dir(path)`: the text before the last slash, or "" without one. */
  function Dir(path: string): string
  {
    var k := LastSlash(path);
    if k < 0 then "" else path[..k]
  }

  /** `Basename(path)`: the text after the last slash, or the whole path
      without one. */
  function Basename(path: string): string
  {
    var k := LastSlash(path);
    if k < 0 then path else path[k + 1..]
  }

  /** A path is its directory, a slash and its base name; the base name holds
      no slash; a path without a slash is its own base name. */
  lemma DirAndBasename(path: string)
    ensures '/' !in Basename(path)
    ensures '/' in path ==> path == Dir(path) + "/" + Basename(path)
    ensures '/' !in path ==> Dir(path) == "" && Basename(path) == path
  {
    var k := LastSlash(path);
    if k >= 0 {
      assert path == path[..k] + "/" + path[k + 1..];
      assert forall c :: c in Basename(path) ==> c != '/';
    }
  }

  /** `s` consists of slashes only. */
  predicate AllSlashes(s: string)
  {
    forall i :: 0 <= i < |s| ==> s[i] == '/'
  }

  /** Trimming trailing slashes stops at the last non-slash character. */
  lemma {:induction false} TrimRightOf(s: string, slashes: string)
    requires s == [] || s[|s| - 1] != '/'
    requires AllSlashes(slashes)
    ensures TrimRight(s + slashes, '/') == s
    decreases |slashes|
  {
    var t := s + slashes;
    if slashes == [] {
      assert t == s;
    } else {
      var shorter := slashes[..|slashes| - 1];
      assert t[..|t| - 1] == s + shorter;
      TrimRightOf(s, shorter);
    }
    assert Trailing(t, '/') == |slashes|;
  }

  /** Trimming leading slashes stops at the first non-slash character. */
  lemma {:induction false} TrimLeftOf(slashes: string, s: string)
    requires s == [] || s[0] != '/'
    requires AllSlashes(slashes)
    ensures TrimLeft(slashes + s, '/') == s
    decreases |slashes|
  {
    var t := slashes + s;
    if slashes == [] {
      assert t == s;
    } else {
      assert t[1..] == slashes[1..] + s;
      TrimLeftOf(slashes[1..], s);
    }
    assert Leading(t, '/') == |slashes|;
  }

  /** Joining `head` plus slashes with `core` between slash runs gives
      `head + "/" + core`: this is every two-part case, slash runs inside
      `core` included. */
  lemma JoinCase(a: string, b: string, head: string, headSlashes: string,
                 lead: string, core: string, trail: string)
    requires a == head + headSlashes && b == lead + core + trail
    requires head != [] && head[|head| - 1] != '/'
    requires core != [] && core[0] != '/' && core[|core| - 1] != '/'
    requires AllSlashes(headSlashes) && AllSlashes(lead) && AllSlashes(trail)
    ensures PathJoin(a, b) == head + "/" + core
  {
    TrimRightOf(head, headSlashes);
    TrimRightOf(lead + core, trail);
    TrimLeftOf(lead, core);
  }

  /** One more step of a left-to-right join whose earlier result is known. */
  lemma JoinAllStep(first: string, rest: seq<string>, k: nat, prev: string)
    requires k < |rest| && PathJoinAll(first, rest[..k]) == prev
    ensures PathJoinAll(first, rest[..k + 1]) == PathJoin(prev, rest[k])
  {
    assert rest[..k + 1][..k] == rest[..k];
  }

  /** Splitting skips a run of slashes. */
  lemma {:induction false} ComponentsAfterSlashes(s: string, slashes: string, rest: string)
    requires s == slashes + rest && AllSlashes(slashes)
    ensures Components(s) == Components(rest)
    decreases |slashes|
  {
    if slashes != [] {
      assert s[1..] == slashes[1..] + rest;
      ComponentsAfterSlashes(s[1..], slashes[1..], rest);
    } else {
      assert s == rest;
    }
  }

  /** Splitting takes a slash-free word, up to the next slash or the end, as
      one component. */
  lemma ComponentsWord(s: string, word: string, rest: string)
    requires s == word + rest && word != [] && '/' !in word
    requires rest == [] || rest[0] == '/'
    ensures Components(s) == [word] + Components(rest)
  {
    assert forall m :: 0 <= m < |word| ==> s[m] == word[m];
    var k := FirstSlash(s);
    if rest != [] {
      assert s[|word|] == rest[0];
    }
    assert k == |word|;
    assert s[..k] == word && s[k..] == rest;
  }

  /** The last slash of `a + "/" + b`, when `b` has none, is the one between. */
  lemma LastSlashBefore(a: string, b: string)
    requires '/' !in b
    ensures LastSlash(a + "/" + b) == |a|
    ensures Dir(a + "/" + b) == a && Basename(a + "/" + b) == b
    decreases |b|
  {
    var p := a + "/" + b;
    if b == [] {
      assert p[|p| - 1] == '/';
    } else {
      assert p[|p| - 1] == b[|b| - 1];
      assert p[..|p| - 1] == a + "/" + b[..|b| - 1];
      LastSlashBefore(a, b[..|b| - 1]);
    }
    assert p[..|a|] == a && p[|a| + 1..] == b;
  }

  /** Joining onto a slash-free end, with and without a leading slash on the
      right part. */
  lemma PathJoinPlainCases(a: string, b: string)
    ensures a == "/a" && b == "b" ==> PathJoin(a, b) == "/a/b"
    ensures a == "/a" && b == "/b" ==> PathJoin(a, b) == "/a/b"
  {
    if a == "/a" && b == "b" {
      JoinCase(a, b, "/a", "", "", "b", "");
    } else if a == "/a" && b == "/b" {
      JoinCase(a, b, "/a", "", "/", "b", "");
    }
  }

  /** Slash runs at the joint and at the right end are dropped. */
  lemma PathJoinRunCases(a: string, b: string)
    ensures a == "/a///" && b == "///b//" ==> PathJoin(a, b) == "/a/b"
    ensures a == "/a///" && b == "///b/c/" ==> PathJoin(a, b) == "/a/b/c"
  {
    if a == "/a///" && b == "///b//" {
      JoinCase(a, b, "/a", "///", "///", "b", "//");
    } else if a == "/a///" && b == "///b/c/" {
      JoinCase(a, b, "/a", "///", "///", "b/c", "/");
    }
  }

  /** A slash run inside the right part is kept. */
  lemma PathJoinInnerRunCase(a: string, b: string)
    requires a == "/a///" && b == "///b///c/"
    ensures PathJoin(a, b) == "/a/b///c"
  {
    JoinCase(a, b, "/a", "///", "///", "b///c", "/");
  }

  /** The first two parts of the longer joins. */
  lemma PathJoinFirstTwo(first: string, rest: seq<string>)
    requires first == "/a///" && |rest| >= 1 && rest[0] == "///b//"
    ensures PathJoinAll(first, rest[..1]) == "/a/b"
  {
    assert rest[..0] == [];
    JoinAllStep(first, rest, 0, first);
    JoinCase(first, rest[0], "/a", "///", "///", "b", "//");
  }

  /** Joining three parts. */
  lemma PathJoinThreeCase(first: string, rest: seq<string>)
    requires first == "/a///" && |rest| == 2 && rest[0] == "///b//" && rest[1] == "/c/"
    ensures PathJoinAll(first, rest) == "/a/b/c"
  {
    var prev := "/a" + "/" + "b";
    PathJoinFirstTwo(first, rest);
    JoinAllStep(first, rest, 1, prev);
    assert prev[|prev| - 1] == 'b';
    JoinCase(prev, rest[1], prev, "", "/", "c", "/");
    assert rest[..2] == rest;
  }

  /** The first three parts of the four- and five-part joins. */
  lemma PathJoinFirstThree(first: string, rest: seq<string>)
    requires first == "/a///" && |rest| >= 2 && rest[0] == "///b//" && rest[1] == "///c"
    ensures PathJoinAll(first, rest[..2]) == "/a/b/c"
  {
    PathJoinFirstTwo(first, rest);
    JoinAllStep(first, rest, 1, "/a/b");
    JoinCase("/a/b", rest[1], "/a/b", "", "///", "c", "");
  }

  /** Joining four parts. */
  lemma PathJoinFourCase(first: string, rest: seq<string>)
    requires first == "/a///" && |rest| >= 3
    requires rest[0] == "///b//" && rest[1] == "///c" && rest[2] == "//d/e//"
    ensures PathJoinAll(first, rest[..3]) == "/a/b/c/d/e"
  {
    var prev := "/a/b" + "/" + "c";
    PathJoinFirstThree(first, rest);
    JoinAllStep(first, rest, 2, prev);
    assert prev[|prev| - 1] == 'c';
    JoinCase(prev, rest[2], prev, "", "//", "d/e", "//");
  }

  /** Joining five parts. */
  lemma PathJoinFiveCase(first: string, rest: seq<string>)
    requires first == "/a///" && |rest| == 4
    requires rest[0] == "///b//" && rest[1] == "///c" && rest[2] == "//d/e//" && rest[3] == "fff"
    ensures PathJoinAll(first, rest) == "/a/b/c/d/e/fff"
  {
    var prev := "/a/b/c" + "/" + "d/e";
    PathJoinFourCase(first, rest);
    JoinAllStep(first, rest, 3, prev);
    assert prev[|prev| - 1] == 'e';
    JoinCase(prev, rest[3], prev, "", "", rest[3], "");
    assert rest[..4] == rest;
  }

  /** The empty path and the root. */
  lemma PathSplitRootCases(path: string)
    ensures path == "" ==> PathSplit(path) == []
    ensures path == "/" ==> PathSplit(path) == ["/"]
  {
    if path == "/" {
      ComponentsAfterSlashes(path, "/", "");
    }
  }

  /** An absolute path with one component, with and without a trailing slash. */
  lemma PathSplitOneCases(path: string)
    ensures path == "/path" ==> PathSplit(path) == ["/", "path"]
    ensures path == "/path/" ==> PathSplit(path) == ["/", "path"]
  {
    if path == "/path" {
      ComponentsAfterSlashes(path, "/", "path");
      ComponentsWord("path", "path", "");
    } else if path == "/path/" {
      ComponentsAfterSlashes(path, "/", "path/");
      ComponentsWord("path/", "path", "/");
      ComponentsAfterSlashes("/", "/", "");
    }
  }

  /** An absolute path with two components. */
  lemma PathSplitTwoCase(path: string)
    requires path == "/path/to"
    ensures PathSplit(path) == ["/", "path", "to"]
  {
    var tail := "/" + "to";
    var middle := "path" + tail;
    assert path == "/" + middle;
    ComponentsAfterSlashes(path, "/", middle);
    ComponentsWord(middle, "path", tail);
    ComponentsAfterSlashes(tail, "/", "to");
    ComponentsWord("to", "to", "");
  }

  /** Runs of slashes, leading, inner and trailing, are skipped. */
  lemma PathSplitRunsCase(path: string)
    requires path == "///path///to////"
    ensures PathSplit(path) == ["/", "path", "to"]
  {
    var tail := "to" + "////";
    var middle := "path" + ("///" + tail);
    assert path == "///" + middle;
    ComponentsAfterSlashes(path, "///", middle);
    ComponentsWord(middle, "path", "///" + tail);
    ComponentsAfterSlashes("///" + tail, "///", tail);
    ComponentsWord(tail, "to", "////");
    ComponentsAfterSlashes("////", "////", "");
  }

  /** Relative paths have no `"/"` entry. */
  lemma PathSplitRelativeCases(path: string)
    ensures path == "path" ==> PathSplit(path) == ["path"]
    ensures path == "path/to" ==> PathSplit(path) == ["path", "to"]
  {
    if path == "path" {
      ComponentsWord(path, "path", "");
    } else if path == "path/to" {
      ComponentsWord(path, "path", "/to");
      ComponentsAfterSlashes("/to", "/", "to");
      ComponentsWord("to", "to", "");
    }
  }

  /** The directory and base names the library's tests fix. */
  lemma DirAndBasenameTestCases(path: string)
    ensures path == "/path/to/file" ==> Dir(path) == "/path/to" && Basename(path) == "file"
    ensures path == "/path/to/" ==> Dir(path) == "/path/to" && Basename(path) == ""
    ensures path == "file" ==> Dir(path) == "" && Basename(path) == "file"
  {
    if path == "/path/to/file" {
      assert path == "/path/to" + "/" + "file";
      LastSlashBefore("/path/to", "file");
    } else if path == "/path/to/" {
      assert path == "/path/to" + "/" + "";
      LastSlashBefore("/path/to", "");
    } else if path == "file" {
      assert path[0] != '/' && path[1] != '/' && path[2] != '/' && path[3] != '/';
      DirAndBasename(path);
    }
  }
}
