/**
 The parts of `pathlib` the core uses: the final component of a path, its
 suffix and stem, and joining a directory with a name, which normalises the
 directory as `Path(dir)` does.
 */
module Paths {
  import opened Common
  import Text

  /** The position of the last `c` in `s`, if any. */
  function LastIndexOf(s: string, c: char): (r: Option<nat>)
    ensures r.Some? ==> r.value < |s| && s[r.value] == c
    ensures r.Some? ==> forall j :: r.value < j < |s| ==> s[j] != c
    ensures r.None? ==> c !in s
    decreases |s|
  {
    if |s| == 0 then None
    else if s[|s| - 1] == c then Some(|s| - 1)
    else
      var r := LastIndexOf(s[..|s| - 1], c);
      assert forall j :: 0 <= j < |s| - 1 ==> s[..|s| - 1][j] == s[j];
      r
  }

  /** `Path(p).name`: the text after the last separator. */
  function Name(p: string): (n: string)
    ensures '/' !in n
    ensures |n| <= |p| && n == p[|p| - |n|..]
  {
    match LastIndexOf(p, '/')
    case None => p
    case Some(i) => p[i + 1..]
  }

  /** Where `Path.suffix` starts: the last dot, if it is neither the first
      nor the last character of the name. */
  function SuffixStart(name: string): (r: Option<nat>)
    ensures r.Some? ==> 0 < r.value < |name| - 1 && name[r.value] == '.'
    ensures r.Some? ==> forall j :: r.value < j < |name| ==> name[j] != '.'
  {
    match LastIndexOf(name, '.')
    case Some(i) => if 0 < i < |name| - 1 then Some(i) else None
    case None => None
  }

  /** `Path.suffix` of a name: from the last dot on, or empty. */
  function Suffix(name: string): (s: string)
    ensures |s| == 0 || (|s| >= 2 && s[0] == '.' && '.' !in s[1..])
    ensures |s| <= |name| && s == name[|name| - |s|..]
  {
    match SuffixStart(name)
    case Some(i) => name[i..]
    case None => ""
  }

  /** `Path.stem` of a name: the name without its suffix. */
  function Stem(name: string): (s: string)
    ensures |s| <= |name| && s == name[..|s|]
  {
    match SuffixStart(name)
    case Some(i) => name[..i]
    case None => name
  }

  lemma StemSuffixSplit(name: string)
    ensures Stem(name) + Suffix(name) == name
  {
  }

  /** The components `Path(dir)` keeps, in order: the empty ones that doubled
      and trailing separators leave, and the `.` ones, are dropped. */
  function Kept(parts: seq<string>): seq<string>
    decreases |parts|
  {
    if |parts| == 0 then []
    else if parts[0] == "" || parts[0] == "." then Kept(parts[1..])
    else [parts[0]] + Kept(parts[1..])
  }

  /** What is kept: every component that is neither empty nor `.`, and only
      those; with none to drop, everything is kept. */
  lemma {:induction false} KeptExact(parts: seq<string>)
    ensures forall k :: 0 <= k < |Kept(parts)| ==> Kept(parts)[k] in parts && Kept(parts)[k] != "" && Kept(parts)[k] != "."
    ensures forall k :: 0 <= k < |parts| && parts[k] != "" && parts[k] != "." ==> parts[k] in Kept(parts)
    ensures (forall k :: 0 <= k < |parts| ==> parts[k] != "" && parts[k] != ".") ==> Kept(parts) == parts
    decreases |parts|
  {
    if |parts| > 0 {
      KeptExact(parts[1..]);
      assert forall k :: 1 <= k < |parts| ==> parts[k] == parts[1..][k - 1];
    }
  }

  /** `dir.split("/")`, the components between separators. */
  function Parts(dir: string): seq<string>
    decreases |dir|
  {
    if |dir| == 0 then [""]
    else
      var rest := Parts(dir[1..]);
      if dir[0] == '/' then [""] + rest else [[dir[0]] + rest[0]] + rest[1..]
  }

  lemma {:induction false} PartsAreSplit(dir: string)
    ensures Parts(dir) == Text.SplitOn(dir, '/')
    decreases |dir|
  {
    if |dir| > 0 {
      PartsAreSplit(dir[1..]);
    }
  }

  /** The root `Path(dir)` keeps: exactly two leading separators stay two,
      any other number becomes one. */
  function Root(dir: string): string {
    if |dir| >= 2 && dir[0] == '/' && dir[1] == '/' && (|dir| == 2 || dir[2] != '/') then "//"
    else if |dir| >= 1 && dir[0] == '/' then "/"
    else ""
  }

  /** `str(Path(dir))` without the `.` that stands for an empty path: the
      root followed by the kept components. */
  function DirPrefix(dir: string): (pre: string)
    ensures pre == "" || pre[|pre| - 1] == '/'
  {
    var body := Text.Join(Kept(Parts(dir)), '/');
    Root(dir) + (if body == "" then "" else body + "/")
  }

  /** `str(Path(dir) / name)` for a plain name: the normalised directory, a
      separator unless the directory is a bare root or empty, then the name. */
  function Join(dir: string, name: string): string {
    DirPrefix(dir) + name
  }

  /** The joined path names the same file as `name` does. */
  lemma NameOfJoin(dir: string, name: string)
    ensures Name(Join(dir, name)) == Name(name)
  {
    NameAfterPrefix(DirPrefix(dir), name);
  }

  /** A directory as `str(Path(...))` prints it, other than the root and the
      current directory: at most one leading separator and no empty or `.`
      component. */
  predicate Normalised(dir: string) {
    if |dir| > 0 && dir[0] == '/' then |dir| > 1 && dir[1] != '/' && PlainParts(dir[1..])
    else |dir| > 0 && PlainParts(dir)
  }

  predicate PlainParts(s: string) {
    var parts := Text.SplitOn(s, '/');
    forall k :: 0 <= k < |parts| ==> parts[k] != "" && parts[k] != "."
  }

  /** Joining onto a directory that is already normalised is plain
      concatenation with a separator. */
  lemma JoinNormalised(dir: string, name: string)
    requires Normalised(dir)
    ensures Join(dir, name) == dir + "/" + name
  {
    PartsAreSplit(dir);
    if dir[0] == '/' {
      var tail := dir[1..];
      assert Text.SplitOn(dir, '/') == [""] + Text.SplitOn(tail, '/');
      KeptPlain(tail);
      assert Kept([""] + Text.SplitOn(tail, '/')) == Text.SplitOn(tail, '/') by {
        assert ([""] + Text.SplitOn(tail, '/'))[1..] == Text.SplitOn(tail, '/');
      }
      assert Root(dir) == "/";
      assert DirPrefix(dir) == "/" + tail + "/";
      assert dir == "/" + tail;
    } else {
      KeptPlain(dir);
      assert Root(dir) == "";
    }
  }

  /** Plain components are kept as they are and join back to the text. */
  lemma KeptPlain(s: string)
    requires s != "" && PlainParts(s)
    ensures Kept(Text.SplitOn(s, '/')) == Text.SplitOn(s, '/')
    ensures Text.Join(Text.SplitOn(s, '/'), '/') == s
  {
    KeptExact(Text.SplitOn(s, '/'));
    Text.JoinSplit(s, '/');
  }

  /** An empty directory and `.` add nothing. */
  lemma JoinOntoCurrent(name: string)
    ensures Join("", name) == name
    ensures Join(".", name) == name
  {
    SplitOnParts("", [""]);
    SplitOnParts(".", ["."]);
    assert Kept(["."]) == [] by {
      assert ["."][1..] == [];
    }
  }

  /** A bare root is not followed by a second separator. */
  lemma JoinOntoRoot(name: string)
    ensures Join("/", name) == "/" + name
  {
    SplitOnParts("/", ["", ""]);
    assert Kept(["", ""]) == [] by {
      assert ["", ""][1..] == [""];
      assert [""][1..] == [];
    }
    assert Root("/") == "/";
  }

  /** A trailing separator is dropped. */
  lemma JoinDropsTrailing(name: string)
    ensures Join("media/", name) == "media/" + name
  {
    SplitOnParts("media/", ["media", ""]);
    assert Kept(["media", ""]) == ["media"] by {
      assert ["media", ""][1..] == [""];
      assert [""][1..] == [];
    }
    assert Root("media/") == "";
  }

  /** A leading `.` component is dropped. */
  lemma JoinDropsCurrent(name: string)
    ensures Join("./media", name) == "media/" + name
  {
    assert Text.Join([".", "media"], '/') == "./media" by {
      assert [".", "media"][1..] == ["media"];
      assert Text.Join(["media"], '/') == "media";
    }
    SplitOnParts("./media", [".", "media"]);
    assert Kept([".", "media"]) == ["media"] by {
      assert [".", "media"][1..] == ["media"];
      assert ["media"][1..] == [];
    }
    assert Root("./media") == "";
    assert DirPrefix("./media") == "media/";
  }

  /** `str(Path(p))`: the root followed by the kept components, or `.`
      when nothing is left. */
  function Normalise(p: string): (n: string)
    ensures n != ""
  {
    var body := Text.Join(Kept(Parts(p)), '/');
    if Root(p) == "" && body == "" then "." else Root(p) + body
  }

  /** A path already in that form prints as itself. */
  lemma NormaliseKeepsNormal(p: string)
    requires Normalised(p)
    ensures Normalise(p) == p
  {
    PartsAreSplit(p);
    if p[0] == '/' {
      var tail := p[1..];
      assert Text.SplitOn(p, '/') == [""] + Text.SplitOn(tail, '/');
      KeptPlain(tail);
      assert Kept([""] + Text.SplitOn(tail, '/')) == Text.SplitOn(tail, '/') by {
        assert ([""] + Text.SplitOn(tail, '/'))[1..] == Text.SplitOn(tail, '/');
      }
      assert Root(p) == "/";
      assert p == "/" + tail;
    } else {
      KeptPlain(p);
      assert Root(p) == "";
    }
  }

  /** An empty path and `.` both print as `.`. */
  lemma NormaliseCurrent()
    ensures Normalise("") == "." && Normalise(".") == "."
  {
    SplitOnParts("", [""]);
    SplitOnParts(".", ["."]);
    assert Kept(["."]) == [] by {
      assert ["."][1..] == [];
    }
  }

  /** A leading `.` component goes: `./song.mp3` prints as `song.mp3`. */
  lemma NormaliseDropsCurrent(name: string)
    requires name != "" && name != "." && '/' !in name
    ensures Normalise("./" + name) == name
  {
    var parts := [".", name];
    assert Text.Join(parts, '/') == "./" + name by {
      assert parts[1..] == [name];
    }
    SplitOnParts("./" + name, parts);
    assert Kept(parts) == [name] by {
      assert parts[1..] == [name];
      assert Kept([name]) == [name] + Kept([]) by {
        assert [name][1..] == [];
      }
    }
    assert Root("./" + name) == "";
  }

  /** A trailing separator goes too, so the final component is the file's
      name: `song.mp3/` prints as `song.mp3`. */
  lemma NormaliseDropsTrailing(name: string)
    requires name != "" && name != "." && '/' !in name
    ensures Normalise(name + "/") == name
  {
    var parts := [name, ""];
    assert Text.Join(parts, '/') == name + "/" by {
      assert parts[1..] == [""];
    }
    SplitOnParts(name + "/", parts);
    assert Kept(parts) == [name] by {
      assert parts[1..] == [""];
      assert [""][1..] == [];
    }
    assert Root(name + "/") == "" by {
      assert (name + "/")[0] == name[0];
    }
  }

  /** `split` of a text given as the join of its parts. */
  lemma SplitOnParts(s: string, parts: seq<string>)
    requires |parts| >= 1 && (forall k :: 0 <= k < |parts| ==> '/' !in parts[k])
    requires Text.Join(parts, '/') == s
    ensures Parts(s) == parts
  {
    PartsAreSplit(s);
    Text.SplitJoin(parts, '/');
  }

  lemma {:induction false} LastIndexOfAppend(a: string, b: string, c: char)
    ensures LastIndexOf(a + b, c) ==
      if c in b then Some(|a| + LastIndexOf(b, c).value) else LastIndexOf(a, c)
    decreases |b|
  {
    if |b| == 0 {
      assert a + b == a;
    } else {
      var ab := a + b;
      assert ab[..|ab| - 1] == a + b[..|b| - 1];
      LastIndexOfAppend(a, b[..|b| - 1], c);
      if b[|b| - 1] != c {
        assert c in b <==> c in b[..|b| - 1] by {
          assert b == b[..|b| - 1] + [b[|b| - 1]];
        }
      }
    }
  }

  /** A name after an empty prefix or one ending in a separator keeps its
      final component. */
  lemma NameAfterPrefix(pre: string, name: string)
    requires pre == "" || pre[|pre| - 1] == '/'
    ensures Name(pre + name) == Name(name)
  {
    if pre == "" {
      assert pre + name == name;
    } else if '/' in name {
      NameAfterInnerSeparator(pre, name);
    } else {
      NameAfterLastSeparator(pre, name);
    }
  }

  /** A name with its own separator keeps its last component under any prefix. */
  lemma NameAfterInnerSeparator(pre: string, name: string)
    requires '/' in name
    ensures Name(pre + name) == Name(name)
  {
    LastIndexOfAppend(pre, name, '/');
    var k := LastIndexOf(name, '/').value;
    assert (pre + name)[|pre| + k + 1..] == name[k + 1..];
  }

  /** A plain name after a separator is the last component. */
  lemma NameAfterLastSeparator(pre: string, name: string)
    requires |pre| > 0 && pre[|pre| - 1] == '/' && '/' !in name
    ensures Name(pre + name) == name
  {
    LastIndexOfAppend(pre, name, '/');
    assert LastIndexOf(pre, '/') == Some(|pre| - 1);
    assert (pre + name)[|pre|..] == name;
  }
}
