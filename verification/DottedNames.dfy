/**
 Which paths share a stamp: the stamps of a controller's values are kept under dotted names, and a name does not
 always tell its path.
 */
module DottedNames {
  import opened Merge

  // ----------------------------------------------------------------- keys cut at their dots

  function Cut(key: string): (parts: seq<string>)
    ensures parts != []
  {
    if key == "" then [""]
    else
      var front, c := key[..|key| - 1], key[|key| - 1];
      var parts := Cut(front);
      if c == '.' then parts + [""] else parts[..|parts| - 1] + [parts[|parts| - 1] + [c]]
  }

  function Join(parts: seq<string>): string {
    if parts == [] then ""
    else if |parts| == 1 then parts[0]
    else Join(parts[..|parts| - 1]) + "." + parts[|parts| - 1]
  }

  lemma {:induction false} CutLast(a: string, key: string)
    requires '.' !in key
    ensures Cut(a + "." + key) == Cut(a) + [key]
  {
    var t := a + "." + key;
    if key == "" {
      assert t == a + ".";
      assert t[..|t| - 1] == a;
    } else {
      var n := |key| - 1;
      CutLast(a, key[..n]);
      assert t[..|t| - 1] == a + "." + key[..n];
      assert key == key[..n] + [key[n]];
    }
  }

  lemma {:induction false} CutPlain(key: string)
    requires '.' !in key
    ensures Cut(key) == [key]
  {
    if key != "" {
      var n := |key| - 1;
      CutPlain(key[..n]);
      assert key == key[..n] + [key[n]];
    }
  }

  predicate NoDots(parts: seq<string>) {
    forall i | 0 <= i < |parts| :: '.' !in parts[i]
  }

  lemma {:induction false} CutJoined(parts: seq<string>)
    requires parts != [] && NoDots(parts)
    ensures Cut(Join(parts)) == parts
  {
    var n := |parts| - 1;
    assert parts == parts[..n] + [parts[n]];
    if n == 0 {
      CutPlain(parts[0]);
    } else {
      CutJoined(parts[..n]);
      CutLast(Join(parts[..n]), parts[n]);
    }
  }

  lemma {:induction false} JoinCut(key: string)
    ensures Join(Cut(key)) == key && NoDots(Cut(key))
  {
    if key != "" {
      var n := |key| - 1;
      var c := key[n];
      JoinCut(key[..n]);
      assert key == key[..n] + [c];
      var parts := Cut(key[..n]);
      var last := |parts| - 1;
      if c == '.' {
        assert (parts + [""])[..|parts|] == parts;
        assert Join(parts + [""]) == Join(parts) + "." + "";
      } else {
        var longer := parts[..last] + [parts[last] + [c]];
        assert longer[..last] == parts[..last];
        JoinLonger(parts, c);
      }
    }
  }

  lemma {:induction false} JoinLonger(parts: seq<string>, c: char)
    requires parts != []
    ensures var last := |parts| - 1; Join(parts[..last] + [parts[last] + [c]]) == Join(parts) + [c]
  {
    var last := |parts| - 1;
    var longer := parts[..last] + [parts[last] + [c]];
    assert longer[..last] == parts[..last];
    if last > 0 {
      assert Join(longer) == Join(parts[..last]) + "." + (parts[last] + [c]);
      assert Join(parts[..last]) + "." + (parts[last] + [c]) == Join(parts[..last]) + "." + parts[last] + [c];
    }
  }

  lemma {:induction false} JoinBoth(a: seq<string>, b: seq<string>)
    requires a != [] && b != []
    ensures Join(a + b) == Join(a) + "." + Join(b)
  {
    var n := |b| - 1;
    assert (a + b)[..|a| + n] == a + b[..n];
    if n == 0 {
      assert a + b[..n] == a;
    } else {
      JoinBoth(a, b[..n]);
      assert Join(a + b) == Join(a + b[..n]) + "." + b[n];
      assert (Join(a) + "." + Join(b[..n])) + "." + b[n] == Join(a) + "." + (Join(b[..n]) + "." + b[n]);
    }
  }

  // ----------------------------------------------------------------- names

  /** A path without its leading empty keys. */
  function Stripped(p: Path): Path {
    if p != [] && p[0] == "" then Stripped(p[1..]) else p
  }

  /** All keys of a path, cut at their dots. */
  function Parts(p: Path): seq<string> {
    if p == [] then [] else Parts(p[..|p| - 1]) + Cut(p[|p| - 1])
  }

  predicate Starts(p: Path) {
    p != [] && p[0] != ""
  }

  lemma {:induction false} NameStarts(p: Path)
    requires Starts(p)
    ensures Name(p) != ""
  {
    if |p| > 1 {
      NameStarts(p[..|p| - 1]);
    } else {
      assert p[..0] == [];
    }
  }

  /** An empty first key leaves no trace in the name. */
  lemma {:induction false} EmptyKeyDropsOut(p: Path)
    ensures Name([""] + p) == Name(p)
  {
    var q := [""] + p;
    if p == [] {
      assert q[..0] == [];
    } else {
      EmptyKeyDropsOut(p[..|p| - 1]);
      assert q[..|q| - 1] == [""] + p[..|p| - 1];
    }
  }

  lemma {:induction false} StrippedName(p: Path)
    ensures Name(Stripped(p)) == Name(p)
    ensures Stripped(p) == [] || Starts(Stripped(p))
  {
    if p != [] && p[0] == "" {
      StrippedName(p[1..]);
      EmptyKeyDropsOut(p[1..]);
      assert p == [""] + p[1..];
    }
  }

  lemma {:induction false} NameIsJoined(p: Path)
    requires Starts(p)
    ensures Parts(p) != [] && NoDots(Parts(p)) && Name(p) == Join(Parts(p))
  {
    var n := |p| - 1;
    JoinCut(p[n]);
    if n == 0 {
      assert p[..0] == [];
      assert Parts(p) == Cut(p[0]);
    } else {
      NameIsJoined(p[..n]);
      NameStarts(p[..n]);
      JoinBoth(Parts(p[..n]), Cut(p[n]));
    }
  }

  lemma {:induction false} NameCut(p: Path)
    ensures var s := Stripped(p); if s == [] then Name(p) == "" else Name(p) != "" && Parts(s) == Cut(Name(p))
  {
    StrippedName(p);
    var s := Stripped(p);
    if s != [] {
      NameStarts(s);
      NameIsJoined(s);
      CutJoined(Parts(s));
    }
  }

  /** Two paths have the same name exactly when, without leading empty keys, their keys cut at the dots are the same. */
  lemma {:induction false} SameName(p: Path, q: Path)
    ensures Name(p) == Name(q) <==> Parts(Stripped(p)) == Parts(Stripped(q))
  {
    NameCut(p);
    NameCut(q);
    StrippedName(p);
    StrippedName(q);
    if Stripped(p) != [] && Stripped(q) != [] {
      NameIsJoined(Stripped(p));
      NameIsJoined(Stripped(q));
    }
    hide Name, Stripped;
  }

  /** A key with a dot behind its first character and the two keys it splits into. */
  lemma {:induction false} SplitKey(a: string, b: string, rest: Path)
    requires a != ""
    ensures Name([a + "." + b] + rest) == Name([a, b] + rest)
  {
    var p, q := [a + "." + b] + rest, [a, b] + rest;
    if rest == [] {
      assert p[..0] == [] && q[..1] == [a] && [a][..0] == [];
      assert Name([a]) == a;
    } else {
      var n := |rest| - 1;
      SplitKey(a, b, rest[..n]);
      assert p[..|p| - 1] == [a + "." + b] + rest[..n];
      assert q[..|q| - 1] == [a, b] + rest[..n];
    }
  }

  ghost predicate Twins(p: Path, q: Path) {
    Starts(p) && Starts(q) && p != q && Name(p) == Name(q)
  }

  predicate DotAt(s: string, i: nat) {
    0 < i < |s| && s[i] == '.'
  }

  lemma {:induction false} TwinHasDot(p: Path, q: Path)
    requires Twins(p, q)
    ensures exists i :: DotAt(Name(p), i)
  {
    var longer := if |p| > 1 then p else q;
    if |p| == 1 && |q| == 1 {
      NameOfOne(p);
      NameOfOne(q);
    } else {
      var n := |longer| - 1;
      NameStarts(longer[..n]);
      assert Name(longer) == Name(longer[..n]) + "." + longer[n];
      assert DotAt(Name(longer), |Name(longer[..n])|);
    }
  }

  lemma {:induction false} NameOfOne(p: Path)
    requires |p| == 1
    ensures Name(p) == p[0] && p == [p[0]]
  {
    assert p[..0] == [];
  }

  lemma {:induction false} SomeTwin(p: Path) returns (q: Path)
    requires Starts(p) && exists i :: DotAt(Name(p), i)
    ensures Twins(p, q)
  {
    if |p| > 1 {
      q := [p[0] + "." + p[1]] + p[2..];
      SplitKey(p[0], p[1], p[2..]);
      assert p == [p[0], p[1]] + p[2..];
    } else {
      NameOfOne(p);
      var i: nat :| DotAt(Name(p), i);
      var a, b := p[0][..i], p[0][i + 1..];
      q := [a, b];
      SplitKey(a, b, []);
      assert a + "." + b == p[0];
      assert [a + "." + b] + [] == p && [a, b] + [] == q;
    }
  }

  /**
   Among the paths whose first key is not empty, exactly those have another one of the same name whose name holds
   a dot behind its first character: every nested value shares its stamp with a key that is spelt with a dot.
   */
  lemma {:induction false} HasTwin(p: Path)
    requires Starts(p)
    ensures (exists q :: Twins(p, q)) <==> exists i :: DotAt(Name(p), i)
  {
    if q :| Twins(p, q) {
      TwinHasDot(p, q);
    }
    if i: nat :| DotAt(Name(p), i) {
      var q := SomeTwin(p);
    }
  }
}
