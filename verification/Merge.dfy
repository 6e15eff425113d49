/**
 The merge of a message's fields into a controller's latest values: nested dictionaries, with a stamp for
 every dotted path. Live patches are ordered by their stamp, whatever order they arrive in; retained ones
 (replayed by the broker) only fill gaps.
 */
module Merge {
  import opened Options

  /** Anything in JSON but an object. */
  type Atom = string
  type Time = int
  type Path = seq<string>

  datatype Tree = Leaf(a: Atom) | Dict(m: map<string, Tree>)

  datatype Item = Item(key: string, value: Patch)

  /** What comes in: the members of an object in the order they are iterated. */
  datatype Patch = Value(a: Atom) | Object(items: seq<Item>)

  type Stamps = map<string, Option<Time>>

  datatype State = State(m: map<string, Tree>, s: Stamps)

  function Sub(prefix: string, key: string): string {
    if prefix == "" then key else prefix + "." + key
  }

  /** The dotted name of a path. */
  function Name(p: Path): string {
    if p == [] then "" else Sub(Name(p[..|p| - 1]), p[|p| - 1])
  }

  function StampOf(s: Stamps, name: string): Option<Time> {
    if name in s then s[name] else None
  }

  predicate Newer(had: Option<Time>, stamp: Option<Time>) {
    had.Some? && stamp.Some? && had.value > stamp.value
  }

  function Stamped(s: Stamps, name: string, stamp: Option<Time>, retained: bool): Stamps {
    if !retained || name !in s then s[name := stamp] else s
  }

  /** The dictionary that an object member goes into: a leaf in its place is dropped. */
  function Room(m: map<string, Tree>, key: string): map<string, Tree> {
    if key in m && m[key].Dict? then m[key].m else map[]
  }

  function MergeItem(st: State, item: Item, stamp: Option<Time>, retained: bool, prefix: string): State
    decreases item, 1
  {
    var name := Sub(prefix, item.key);
    match item.value
    case Object(items) =>
      var inner := MergeItems(State(Room(st.m, item.key), st.s), items, stamp, retained, name);
      State(st.m[item.key := Dict(inner.m)], Stamped(inner.s, name, stamp, retained))
    case Value(a) =>
      if retained && item.key in st.m then st
      else if Newer(StampOf(st.s, name), stamp) then st
      else State(st.m[item.key := Leaf(a)], Stamped(st.s, name, stamp, retained))
  }

  function MergeItems(st: State, items: seq<Item>, stamp: Option<Time>, retained: bool, prefix: string): State
    decreases items, 0
  {
    if items == [] then st
    else
      var mid := MergeItems(st, items[..|items| - 1], stamp, retained, prefix);
      MergeItem(mid, items[|items| - 1], stamp, retained, prefix)
  }

  /** The merge as it runs: one pass over the members, descending into objects. */
  method Merge(target: map<string, Tree>, patch: seq<Item>, stamps: Stamps, stamp: Option<Time>, retained: bool,
      prefix: string)
    returns (m: map<string, Tree>, s: Stamps)
    ensures State(m, s) == MergeItems(State(target, stamps), patch, stamp, retained, prefix)
    decreases patch
  {
    m, s := target, stamps;
    var i := 0;
    while i < |patch|
      invariant 0 <= i <= |patch|
      invariant State(m, s) == MergeItems(State(target, stamps), patch[..i], stamp, retained, prefix)
    {
      var key, value := patch[i].key, patch[i].value;
      var path := Sub(prefix, key);
      OneItemMore(State(target, stamps), patch, i, stamp, retained, prefix);
      hide MergeItems, MergeItem, Sub, StampOf;
      ghost var st := State(m, s);
      i := i + 1;
      match value
      case Object(items) =>
        ObjectMerged(st, patch[i - 1], stamp, retained, prefix);
        if !(key in m && m[key].Dict?) {
          m := m[key := Dict(map[])];
        }
        var inner;
        inner, s := Merge(m[key].m, items, s, stamp, retained, path);
        m := m[key := Dict(inner)];
        if !retained || path !in s {
          s := s[path := stamp];
        }
      case Value(a) =>
        ValueMerged(st, patch[i - 1], stamp, retained, prefix);
        if retained && key in m {
          continue;
        }
        var had := StampOf(s, path);
        if had.Some? && stamp.Some? && had.value > stamp.value {
          continue;
        }
        m := m[key := Leaf(a)];
        if !retained || path !in s {
          s := s[path := stamp];
        }
    }
    assert patch[..|patch|] == patch;
  }

  lemma {:induction false} OneItemMore(st: State, items: seq<Item>, i: nat, stamp: Option<Time>, retained: bool,
      prefix: string)
    requires i < |items|
    ensures MergeItems(st, items[..i + 1], stamp, retained, prefix)
      == MergeItem(MergeItems(st, items[..i], stamp, retained, prefix), items[i], stamp, retained, prefix)
  {
    hide MergeItem;
    assert items[..i + 1][..i] == items[..i];
  }

  lemma {:induction false} ObjectMerged(st: State, item: Item, stamp: Option<Time>, retained: bool, prefix: string)
    requires item.value.Object?
    ensures var name := Sub(prefix, item.key);
      var room := if item.key in st.m && st.m[item.key].Dict? then st.m else st.m[item.key := Dict(map[])];
      var inner := MergeItems(State(room[item.key].m, st.s), item.value.items, stamp, retained, name);
      MergeItem(st, item, stamp, retained, prefix)
        == State(room[item.key := Dict(inner.m)],
                 if !retained || name !in inner.s then inner.s[name := stamp] else inner.s)
  {
    hide MergeItems, Sub;
    var room := State(Room(st.m, item.key), st.s);
    var inner := MergeItems(room, item.value.items, stamp, retained, Sub(prefix, item.key));
    assert st.m[item.key := Dict(map[])][item.key := Dict(inner.m)] == st.m[item.key := Dict(inner.m)];
  }

  lemma {:induction false} ValueMerged(st: State, item: Item, stamp: Option<Time>, retained: bool, prefix: string)
    requires item.value.Value?
    ensures var name := Sub(prefix, item.key);
      MergeItem(st, item, stamp, retained, prefix) ==
        if (retained && item.key in st.m) || Newer(StampOf(st.s, name), stamp) then st
        else State(st.m[item.key := Leaf(item.value.a)],
                   if !retained || name !in st.s then st.s[name := stamp] else st.s)
  {
    hide Sub, Newer, StampOf;
  }

  // ----------------------------------------------------------------- paths

  datatype Seen = IsLeaf(a: Atom) | IsDict

  function SeenTree(t: Tree): Seen {
    match t case Leaf(a) => IsLeaf(a) case Dict(_) => IsDict
  }

  function SeenPatch(v: Patch): Seen {
    match v case Value(a) => IsLeaf(a) case Object(_) => IsDict
  }

  /** What a dictionary holds at a path. */
  function At(m: map<string, Tree>, p: Path): Option<Seen>
    requires p != []
    decreases |p|
  {
    if p[0] !in m then None
    else if |p| == 1 then Some(SeenTree(m[p[0]]))
    else if m[p[0]].Dict? then At(m[p[0]].m, p[1..])
    else None
  }

  function Find(items: seq<Item>, key: string): Option<Patch> {
    if items == [] then None
    else if items[|items| - 1].key == key then Some(items[|items| - 1].value)
    else Find(items[..|items| - 1], key)
  }

  /** What a patch says at a path. */
  function In(items: seq<Item>, p: Path): Option<Seen>
    requires p != []
    decreases |p|
  {
    var v := Find(items, p[0]);
    if v.None? then None
    else if |p| == 1 then Some(SeenPatch(v.value))
    else if v.value.Object? then In(v.value.items, p[1..])
    else None
  }

  predicate KeyOk(top: bool, key: string) {
    '.' !in key && (top ==> key != "")
  }

  /** Keys are distinct, as those of a dictionary are. */
  predicate Keyed(items: seq<Item>)
    decreases items, 0
  {
    && (forall i, j | 0 <= i < j < |items| :: items[i].key != items[j].key)
    && (forall i | 0 <= i < |items| :: KeyedItem(items[i]))
  }

  predicate KeyedItem(item: Item)
    decreases item, 1
  {
    item.value.Object? ==> Keyed(item.value.items)
  }

  /** Keys are distinct and without dots; those at the top are not empty. */
  predicate Named(items: seq<Item>, top: bool)
    decreases items, 0
  {
    && (forall i, j | 0 <= i < j < |items| :: items[i].key != items[j].key)
    && (forall i | 0 <= i < |items| :: NamedItem(items[i], top))
  }

  predicate NamedItem(item: Item, top: bool)
    decreases item, 1
  {
    KeyOk(top, item.key) && (item.value.Object? ==> Named(item.value.items, false))
  }

  predicate PathOk(p: Path) {
    (forall i | 0 <= i < |p| :: '.' !in p[i]) && (p != [] ==> p[0] != "")
  }

  lemma {:induction false} NameNotEmpty(p: Path)
    requires PathOk(p) && p != []
    ensures Name(p) != ""
    ensures |p| == 1 ==> Name(p) == p[0]
    ensures |p| > 1 ==> Name(p) == Name(p[..|p| - 1]) + "." + p[|p| - 1]
  {
    if |p| > 1 {
      NameNotEmpty(p[..|p| - 1]);
    } else {
      assert p[..0] == [];
    }
  }

  lemma {:induction false} NoDotAfter(a: string, k: string, i: int)
    requires '.' !in k && |a| < i <= |a| + |k|
    ensures (a + "." + k)[i] != '.'
  {
    assert (a + "." + k)[i] == k[i - |a| - 1];
  }

  lemma {:induction false} LastDot(a: string, k: string, b: string, l: string)
    requires a + "." + k == b + "." + l && '.' !in k && '.' !in l
    ensures a == b && k == l
  {
    var t := a + "." + k;
    assert t[|a|] == '.' && t[|b|] == '.';
    if |a| < |b| {
      NoDotAfter(a, k, |b|);
    }
    if |b| < |a| {
      NoDotAfter(b, l, |a|);
    }
    assert a == t[..|a|] && b == t[..|b|];
    assert k == t[|a| + 1..] && l == t[|b| + 1..];
  }

  lemma {:induction false} DotsInside(p: Path)
    requires PathOk(p) && p != []
    ensures '.' in Name(p) <==> |p| > 1
  {
    NameNotEmpty(p);
    if |p| > 1 {
      var a := Name(p[..|p| - 1]);
      assert (a + "." + p[|p| - 1])[|a|] == '.';
    }
  }

  /** Dotted names tell paths apart. */
  lemma {:induction false} NamesDiffer(p: Path, q: Path)
    requires PathOk(p) && PathOk(q) && p != [] && q != [] && Name(p) == Name(q)
    ensures p == q
  {
    NameNotEmpty(p);
    NameNotEmpty(q);
    DotsInside(p);
    DotsInside(q);
    if |p| > 1 {
      var n, m := |p| - 1, |q| - 1;
      LastDot(Name(p[..n]), p[n], Name(q[..m]), q[m]);
      NamesDiffer(p[..n], q[..m]);
      assert p == p[..n] + [p[n]] && q == q[..m] + [q[m]];
    } else {
      assert p == [p[0]] && q == [q[0]];
    }
  }

  // ----------------------------------------------------------------- one merge, path by path

  /** What a path shows after a merge, from what it showed, what the patch says there, and its stamp. */
  function ShownAfter(was: Option<Seen>, said: Option<Seen>, had: Option<Time>, stamp: Option<Time>,
      retained: bool): Option<Seen> {
    if said.None? then was
    else if said.value.IsDict? then said
    else if retained && was.Some? then was
    else if Newer(had, stamp) then was
    else said
  }

  function StampAfter(s: Stamps, name: string, was: Option<Seen>, said: Option<Seen>, stamp: Option<Time>,
      retained: bool)
    : Option<Option<Time>>
  {
    var kept := if name in s then Some(s[name]) else None;
    if said.None? then kept
    else if said.value.IsLeaf? && ((retained && was.Some?) || Newer(StampOf(s, name), stamp)) then kept
    else if !retained || name !in s then Some(stamp)
    else kept
  }

  function Lookup(s: Stamps, name: string): Option<Option<Time>> {
    if name in s then Some(s[name]) else None
  }

  /** The shapes agree: no object comes in where a leaf is, and, for a live patch, no leaf where an object is. */
  ghost predicate Fits(m: map<string, Tree>, items: seq<Item>, retained: bool) {
    forall p: Path | p != [] && In(items, p).Some? && At(m, p).Some? ::
      (In(items, p) == Some(IsDict) ==> At(m, p) == Some(IsDict))
      && (!retained && At(m, p) == Some(IsDict) ==> In(items, p) == Some(IsDict))
  }

  predicate PrefixOk(pre: Path, items: seq<Item>) {
    PathOk(pre) && Named(items, pre == [])
  }

  lemma {:induction false} NamedIsKeyed(items: seq<Item>, top: bool)
    requires Named(items, top)
    ensures Keyed(items)
    decreases items, 0
  {
    forall i | 0 <= i < |items| ensures KeyedItem(items[i]) {
      NamedItemIsKeyed(items[i], top);
    }
  }

  lemma {:induction false} NamedItemIsKeyed(item: Item, top: bool)
    requires NamedItem(item, top)
    ensures KeyedItem(item)
    decreases item, 1
  {
    if item.value.Object? {
      NamedIsKeyed(item.value.items, false);
    }
  }

  lemma {:induction false} FindMember(items: seq<Item>, i: nat)
    requires Keyed(items) && i < |items|
    ensures Find(items, items[i].key) == Some(items[i].value)
    decreases |items|
  {
    var n := |items| - 1;
    if i < n {
      KeyedFront(items);
      FindMember(items[..n], i);
    }
  }

  lemma {:induction false} FindNone(items: seq<Item>, key: string)
    requires forall i | 0 <= i < |items| :: items[i].key != key
    ensures Find(items, key) == None
  {
    if items != [] {
      FindNone(items[..|items| - 1], key);
    }
  }

  lemma {:induction false} KeyedFront(items: seq<Item>)
    requires Keyed(items) && items != []
    ensures Keyed(items[..|items| - 1]) && KeyedItem(items[|items| - 1])
    ensures Find(items[..|items| - 1], items[|items| - 1].key) == None
  {
    FindNone(items[..|items| - 1], items[|items| - 1].key);
  }

  lemma {:induction false} NamedFront(items: seq<Item>, top: bool)
    requires Named(items, top) && items != []
    ensures Named(items[..|items| - 1], top) && NamedItem(items[|items| - 1], top)
    ensures Find(items[..|items| - 1], items[|items| - 1].key) == None
  {
    FindNone(items[..|items| - 1], items[|items| - 1].key);
  }

  lemma {:induction false} NameOfSub(pre: Path, key: string)
    ensures Name(pre + [key]) == Sub(Name(pre), key)
  {
    assert (pre + [key])[..|pre|] == pre;
  }

  lemma {:induction false} PathGrows(pre: Path, key: string)
    requires PathOk(pre) && KeyOk(pre == [], key)
    ensures PathOk(pre + [key])
  {
  }

  predicate Inside(pre: Path, p: Path) {
    |pre| < |p| && pre == p[..|pre|]
  }

  /** A merge below `pre` leaves the stamps of all other paths alone. */
  lemma {:induction false} StampsElsewhere(st: State, items: seq<Item>, stamp: Option<Time>, retained: bool, pre: Path,
      p: Path)
    requires PrefixOk(pre, items) && PathOk(p) && p != [] && !Inside(pre, p)
    ensures Lookup(MergeItems(st, items, stamp, retained, Name(pre)).s, Name(p)) == Lookup(st.s, Name(p))
    decreases items, 0
  {
    if items != [] {
      hide Name, Lookup, MergeItem;
      var n := |items| - 1;
      NamedFront(items, pre == []);
      StampsElsewhere(st, items[..n], stamp, retained, pre, p);
      ItemStampsElsewhere(MergeItems(st, items[..n], stamp, retained, Name(pre)), items[n], stamp, retained, pre, p);
    }
  }

  lemma {:induction false} ItemStampsElsewhere(st: State, item: Item, stamp: Option<Time>, retained: bool, pre: Path,
      p: Path)
    requires PathOk(pre) && NamedItem(item, pre == []) && PathOk(p) && p != []
    requires !Inside(pre + [item.key], p) && p != pre + [item.key]
    ensures Lookup(MergeItem(st, item, stamp, retained, Name(pre)).s, Name(p)) == Lookup(st.s, Name(p))
    decreases item, 1
  {
    var at := pre + [item.key];
    NameOfSub(pre, item.key);
    PathGrows(pre, item.key);
    if Name(at) == Name(p) {
      NamesDiffer(at, p);
    }
    if item.value.Object? {
      StampsElsewhere(State(Room(st.m, item.key), st.s), item.value.items, stamp, retained, at, p);
    }
  }

  // ----------------------------------------------------------------- the shape of the parts

  predicate FitsItem(m: map<string, Tree>, item: Item, retained: bool) {
    item.key in m ==>
      (item.value.Object? ==> m[item.key].Dict?) && (!retained && m[item.key].Dict? ==> item.value.Object?)
  }

  lemma {:induction false} FitsInner(m: map<string, Tree>, items: seq<Item>, i: nat, retained: bool)
    requires Keyed(items) && i < |items| && Fits(m, items, retained)
    ensures FitsItem(m, items[i], retained)
    ensures items[i].value.Object? ==> Fits(Room(m, items[i].key), items[i].value.items, retained)
  {
    FindMember(items, i);
    var item := items[i];
    assert In(items, [item.key]) == Some(SeenPatch(item.value));
    assert At(m, [item.key]) == if item.key in m then Some(SeenTree(m[item.key])) else None;
    if item.value.Object? {
      var inner := Room(m, item.key);
      forall p: Path | p != [] && In(item.value.items, p).Some? && At(inner, p).Some?
        ensures (In(item.value.items, p) == Some(IsDict) ==> At(inner, p) == Some(IsDict))
          && (!retained && At(inner, p) == Some(IsDict) ==> In(item.value.items, p) == Some(IsDict))
      {
        var q := [item.key] + p;
        assert q[1..] == p;
        assert In(items, q) == In(item.value.items, p) && At(m, q) == At(inner, p);
      }
    }
  }

  lemma {:induction false} FrontIn(items: seq<Item>, p: Path)
    requires Keyed(items) && items != [] && p != []
    ensures p[0] != items[|items| - 1].key ==> In(items[..|items| - 1], p) == In(items, p)
    ensures p[0] == items[|items| - 1].key ==> In(items[..|items| - 1], p) == None
  {
    KeyedFront(items);
  }

  lemma {:induction false} FitsFront(m: map<string, Tree>, items: seq<Item>, retained: bool)
    requires Keyed(items) && items != [] && Fits(m, items, retained)
    ensures Fits(m, items[..|items| - 1], retained)
  {
    forall p: Path | p != [] ensures In(items[..|items| - 1], p).Some? ==> In(items[..|items| - 1], p) == In(items, p) {
      FrontIn(items, p);
    }
  }

  // ----------------------------------------------------------------- the theorem about one merge

  ghost predicate MergedAs(st: State, t: State, said: Option<Seen>, stamp: Option<Time>, retained: bool, p: Path,
      full: Path)
    requires p != []
  {
    && At(t.m, p) == ShownAfter(At(st.m, p), said, StampOf(st.s, Name(full)), stamp, retained)
    && Lookup(t.s, Name(full)) == StampAfter(st.s, Name(full), At(st.m, p), said, stamp, retained)
  }

  lemma {:induction false} NothingAfter(st: State, mid: State, t: State, said: Option<Seen>,
    stamp: Option<Time>, retained: bool, p: Path, full: Path)
    requires p != [] && MergedAs(st, mid, said, stamp, retained, p, full)
    requires At(t.m, p) == At(mid.m, p) && Lookup(t.s, Name(full)) == Lookup(mid.s, Name(full))
    ensures MergedAs(st, t, said, stamp, retained, p, full)
  {
  }

  lemma {:induction false} NothingBefore(st: State, mid: State, t: State, said: Option<Seen>,
    stamp: Option<Time>, retained: bool, p: Path, full: Path)
    requires p != [] && MergedAs(st, mid, None, stamp, retained, p, full)
    requires MergedAs(mid, t, said, stamp, retained, p, full)
    ensures MergedAs(st, t, said, stamp, retained, p, full)
  {
    assert Lookup(mid.s, Name(full)) == Lookup(st.s, Name(full));
  }

  lemma {:induction false} LastItemIn(items: seq<Item>, p: Path)
    requires Keyed(items) && items != [] && p != [] && p[0] == items[|items| - 1].key
    ensures In(items, p) == ItemIn(items[|items| - 1], p)
  {
    FindMember(items, |items| - 1);
  }

  /** A merge does at every path what the patch says there, and nothing anywhere else. */
  lemma {:induction false} MergedAt(st: State, items: seq<Item>, stamp: Option<Time>, retained: bool, pre: Path,
      p: Path)
    requires PrefixOk(pre, items) && Fits(st.m, items, retained) && p != [] && PathOk(pre + p)
    ensures MergedAs(st, MergeItems(st, items, stamp, retained, Name(pre)), In(items, p), stamp, retained, p, pre + p)
    decreases items, 0
  {
    if items != [] {
      hide MergedAs, Fits, Named, Keyed, PathOk, MergeItem, At, In, Find;
      var n := |items| - 1;
      var front, item := items[..n], items[n];
      var mid := MergeItems(st, front, stamp, retained, Name(pre));
      NamedIsKeyed(items, pre == []);
      NamedFront(items, pre == []);
      FitsFront(st.m, items, retained);
      FrontIn(items, p);
      MergedAt(st, front, stamp, retained, pre, p);
      if p[0] != item.key {
        OtherItem(mid, item, stamp, retained, pre, p);
        NothingAfter(st, mid, MergeItem(mid, item, stamp, retained, Name(pre)), In(front, p), stamp, retained,
                     p, pre + p);
      } else {
        LastItemIn(items, p);
        FitsInner(st.m, items, n, retained);
        UntouchedYet(st, front, stamp, retained, pre, item.key);
        ItemAt(mid, item, stamp, retained, pre, p);
        NothingBefore(st, mid, MergeItem(mid, item, stamp, retained, Name(pre)), In(items, p), stamp, retained,
                      p, pre + p);
      }
    } else {
      hide PathOk, Fits, Name;
    }
  }

  /** A member that no item so far has named is as it was. */
  lemma {:induction false} UntouchedYet(st: State, items: seq<Item>, stamp: Option<Time>, retained: bool, pre: Path,
      key: string)
    requires Find(items, key) == None
    ensures var t := MergeItems(st, items, stamp, retained, Name(pre));
      (key in t.m <==> key in st.m) && (key in st.m ==> t.m[key] == st.m[key])
    decreases |items|
  {
    if items != [] {
      UntouchedYet(st, items[..|items| - 1], stamp, retained, pre, key);
    }
  }

  lemma {:induction false} OtherItem(st: State, item: Item, stamp: Option<Time>, retained: bool, pre: Path, p: Path)
    requires PathOk(pre) && NamedItem(item, pre == []) && p != [] && PathOk(pre + p) && p[0] != item.key
    ensures At(MergeItem(st, item, stamp, retained, Name(pre)).m, p) == At(st.m, p)
    ensures Lookup(MergeItem(st, item, stamp, retained, Name(pre)).s, Name(pre + p)) == Lookup(st.s, Name(pre + p))
  {
    hide Name, Lookup, NamedItem, PathOk;
    OtherItemStamp(st, item, stamp, retained, pre, p);
  }

  lemma {:induction false} OtherItemStamp(st: State, item: Item, stamp: Option<Time>, retained: bool, pre: Path,
      p: Path)
    requires PathOk(pre) && NamedItem(item, pre == []) && p != [] && PathOk(pre + p) && p[0] != item.key
    ensures Lookup(MergeItem(st, item, stamp, retained, Name(pre)).s, Name(pre + p)) == Lookup(st.s, Name(pre + p))
  {
    hide MergeItem, Name, Lookup, NamedItem, PathOk;
    var at := pre + [item.key];
    assert (pre + p)[|pre|] == p[0] && at[|pre|] == item.key;
    assert (pre + p)[..|at|][|pre|] == p[0];
    ItemStampsElsewhere(st, item, stamp, retained, pre, pre + p);
  }

  function ItemIn(item: Item, p: Path): Option<Seen>
    requires p != [] && p[0] == item.key
  {
    if |p| == 1 then Some(SeenPatch(item.value))
    else if item.value.Object? then In(item.value.items, p[1..])
    else None
  }

  lemma {:induction false} ItemAt(st: State, item: Item, stamp: Option<Time>, retained: bool, pre: Path, p: Path)
    requires PathOk(pre) && NamedItem(item, pre == []) && p != [] && p[0] == item.key && PathOk(pre + p)
    requires FitsItem(st.m, item, retained)
    requires item.value.Object? ==> Fits(Room(st.m, item.key), item.value.items, retained)
    ensures MergedAs(st, MergeItem(st, item, stamp, retained, Name(pre)), ItemIn(item, p), stamp, retained, p, pre + p)
    decreases item, 1
  {
    hide PathOk, Fits, Named, MergeItems, Name, In;
    var at := pre + [item.key];
    NameOfSub(pre, item.key);
    PathGrows(pre, item.key);
    if |p| == 1 {
      assert pre + p == at;
      if item.value.Object? {
        StampsElsewhere(State(Room(st.m, item.key), st.s), item.value.items, stamp, retained, at, at);
      }
    } else {
      if Name(at) == Name(pre + p) {
        NamesDiffer(at, pre + p);
      }
      if item.value.Object? {
        assert at + p[1..] == pre + p;
        MergedAt(State(Room(st.m, item.key), st.s), item.value.items, stamp, retained, at, p[1..]);
        InnerAt(st, item, stamp, retained, at, p);
      }
    }
  }

  lemma {:induction false} InnerAt(st: State, item: Item, stamp: Option<Time>, retained: bool, at: Path, p: Path)
    requires |p| > 1 && p[0] == item.key && item.value.Object? && FitsItem(st.m, item, retained)
    requires Name(at) != Name(at + p[1..])
    requires var room := State(Room(st.m, item.key), st.s);
      MergedAs(room, MergeItems(room, item.value.items, stamp, retained, Name(at)), In(item.value.items, p[1..]),
               stamp, retained, p[1..], at + p[1..])
    ensures var room := State(Room(st.m, item.key), st.s);
      var inner := MergeItems(room, item.value.items, stamp, retained, Name(at));
      MergedAs(st, State(st.m[item.key := Dict(inner.m)], Stamped(inner.s, Name(at), stamp, retained)),
               ItemIn(item, p), stamp, retained, p, at + p[1..])
  {
    hide Fits, Named, MergeItems, Name, In;
  }

  // ----------------------------------------------------------------- whole histories

  /** A live message with its stamp, or one that the broker had retained. */
  datatype Msg = Live(items: seq<Item>, stamp: Time) | Replayed(items: seq<Item>)

  function Apply(st: State, msg: Msg): State {
    match msg
    case Live(items, stamp) => MergeItems(st, items, Some(stamp), false, "")
    case Replayed(items) => MergeItems(st, items, None, true, "")
  }

  function Run(st: State, ms: seq<Msg>): State {
    if ms == [] then st else Apply(Run(st, ms[..|ms| - 1]), ms[|ms| - 1])
  }

  /** A path is always an object or always a leaf: `dicts` are the objects. */
  ghost predicate ShapedTree(m: map<string, Tree>, dicts: iset<Path>) {
    forall p: Path | p != [] && PathOk(p) && At(m, p).Some? :: At(m, p) == Some(IsDict) <==> p in dicts
  }

  ghost predicate ShapedItems(items: seq<Item>, dicts: iset<Path>) {
    Named(items, true) && forall p: Path | p != [] && In(items, p).Some? :: In(items, p) == Some(IsDict) <==> p in dicts
  }

  ghost predicate Shaped(st: State, ms: seq<Msg>, dicts: iset<Path>) {
    ShapedTree(st.m, dicts) && forall i | 0 <= i < |ms| :: ShapedItems(ms[i].items, dicts)
  }

  lemma {:induction false} FoundIsMember(items: seq<Item>, key: string) returns (i: nat)
    requires Find(items, key).Some?
    ensures i < |items| && items[i].key == key && items[i].value == Find(items, key).value
  {
    var n := |items| - 1;
    if items[n].key == key {
      i := n;
    } else {
      i := FoundIsMember(items[..n], key);
    }
  }

  lemma {:induction false} SaidPathsOk(items: seq<Item>, p: Path, top: bool)
    requires Named(items, top) && p != [] && In(items, p).Some?
    ensures (forall i | 0 <= i < |p| :: '.' !in p[i]) && (top ==> p[0] != "")
    decreases |p|
  {
    var i := FoundIsMember(items, p[0]);
    assert NamedItem(items[i], top);
    if |p| > 1 {
      SaidPathsOk(items[i].value.items, p[1..], false);
      assert forall k | 1 <= k < |p| :: p[k] == p[1..][k - 1];
    }
  }

  lemma {:induction false} ShapesFit(m: map<string, Tree>, items: seq<Item>, dicts: iset<Path>, retained: bool)
    requires ShapedTree(m, dicts) && ShapedItems(items, dicts)
    ensures Fits(m, items, retained)
  {
    forall p: Path | p != [] && In(items, p).Some? ensures PathOk(p) {
      SaidPathsOk(items, p, true);
    }
  }

  function StampOfMsg(msg: Msg): Option<Time> {
    if msg.Live? then Some(msg.stamp) else None
  }

  /** One message at one path. */
  lemma {:induction false} AppliedAt(st: State, msg: Msg, dicts: iset<Path>, p: Path)
    requires ShapedTree(st.m, dicts) && ShapedItems(msg.items, dicts) && p != [] && PathOk(p)
    ensures MergedAs(st, Apply(st, msg), In(msg.items, p), StampOfMsg(msg), msg.Replayed?, p, p)
  {
    ShapesFit(st.m, msg.items, dicts, msg.Replayed?);
    assert [] + p == p && Name([]) == "";
    MergedAt(st, msg.items, StampOfMsg(msg), msg.Replayed?, [], p);
  }

  lemma {:induction false} AppliedShaped(st: State, msg: Msg, dicts: iset<Path>)
    requires ShapedTree(st.m, dicts) && ShapedItems(msg.items, dicts)
    ensures ShapedTree(Apply(st, msg).m, dicts)
  {
    hide Apply, At, In, Named, Name, StampAfter;
    forall p: Path | p != [] && PathOk(p) && At(Apply(st, msg).m, p).Some?
      ensures At(Apply(st, msg).m, p) == Some(IsDict) <==> p in dicts
    {
      AppliedAt(st, msg, dicts, p);
    }
  }

  lemma {:induction false} RunShaped(st: State, ms: seq<Msg>, dicts: iset<Path>)
    requires Shaped(st, ms, dicts)
    ensures ShapedTree(Run(st, ms).m, dicts)
  {
    hide ShapedTree, ShapedItems, Apply;
    if ms != [] {
      RunShaped(st, ms[..|ms| - 1], dicts);
      AppliedShaped(Run(st, ms[..|ms| - 1]), ms[|ms| - 1], dicts);
    }
  }

  /** The step from all messages but the last to all of them, at one path. */
  lemma {:induction false} RunStep(st: State, ms: seq<Msg>, dicts: iset<Path>, p: Path)
    requires Shaped(st, ms, dicts) && ms != [] && p != [] && PathOk(p)
    ensures Shaped(st, ms[..|ms| - 1], dicts)
    ensures var last := ms[|ms| - 1];
      MergedAs(Run(st, ms[..|ms| - 1]), Run(st, ms), In(last.items, p), StampOfMsg(last), last.Replayed?, p, p)
  {
    hide ShapedTree, ShapedItems, Apply, MergedAs;
    RunShaped(st, ms[..|ms| - 1], dicts);
    AppliedAt(Run(st, ms[..|ms| - 1]), ms[|ms| - 1], dicts, p);
  }

  predicate Says(msg: Msg, p: Path)
    requires p != []
  {
    In(msg.items, p).Some?
  }

  predicate AtMost(had: Option<Time>, x: Time) {
    had.Some? ==> had.value <= x
  }

  lemma {:induction false} StampsBounded(st: State, ms: seq<Msg>, dicts: iset<Path>, p: Path, x: Time)
    requires Shaped(st, ms, dicts) && p != [] && PathOk(p)
    requires AtMost(StampOf(st.s, Name(p)), x)
    requires forall i | 0 <= i < |ms| && ms[i].Live? && Says(ms[i], p) :: ms[i].stamp <= x
    ensures AtMost(StampOf(Run(st, ms).s, Name(p)), x)
  {
    hide Shaped, At, In, Apply, Name;
    if ms != [] {
      RunStep(st, ms, dicts, p);
      StampsBounded(st, ms[..|ms| - 1], dicts, p, x);
    }
  }

  /** Message `j` is live, says a leaf at `p`, and no live message says it later, or as late but differently. */
  ghost predicate Decides(ms: seq<Msg>, p: Path, j: nat)
    requires p != []
  {
    && j < |ms| && ms[j].Live? && Says(ms[j], p) && In(ms[j].items, p).value.IsLeaf?
    && forall i | 0 <= i < |ms| && ms[i].Live? && Says(ms[i], p) ::
         ms[i].stamp < ms[j].stamp || (ms[i].stamp == ms[j].stamp && In(ms[i].items, p) == In(ms[j].items, p))
  }

  lemma {:induction false} LeavesSaid(items: seq<Item>, dicts: iset<Path>, p: Path)
    requires ShapedItems(items, dicts) && p != [] && p !in dicts
    ensures In(items, p).Some? ==> In(items, p).value.IsLeaf?
  {
  }

  lemma {:induction false} AllLeavesSaid(ms: seq<Msg>, dicts: iset<Path>, p: Path)
    requires (forall i | 0 <= i < |ms| :: ShapedItems(ms[i].items, dicts)) && p != [] && p !in dicts
    ensures forall k | 0 <= k < |ms| && Says(ms[k], p) :: In(ms[k].items, p).value.IsLeaf?
  {
    forall k | 0 <= k < |ms| && Says(ms[k], p) ensures In(ms[k].items, p).value.IsLeaf? {
      LeavesSaid(ms[k].items, dicts, p);
    }
  }

  lemma {:induction false} LeafNotDict(items: seq<Item>, dicts: iset<Path>, p: Path)
    requires ShapedItems(items, dicts) && p != [] && In(items, p).Some? && In(items, p).value.IsLeaf?
    ensures p !in dicts
  {
  }

  /** A decided leaf stays as it is: later messages are older, or replayed, or say the same. */
  lemma {:induction false} DecisionStays(mid: State, t: State, last: Msg, p: Path, value: Seen, x: Time)
    requires p != [] && MergedAs(mid, t, In(last.items, p), StampOfMsg(last), last.Replayed?, p, p)
    requires At(mid.m, p) == Some(value) && StampOf(mid.s, Name(p)) == Some(x)
    requires Says(last, p) ==> In(last.items, p).value.IsLeaf?
    requires last.Live? && Says(last, p) ==> last.stamp < x || (last.stamp == x && In(last.items, p) == Some(value))
    ensures At(t.m, p) == Some(value) && StampOf(t.s, Name(p)) == Some(x)
  {
    hide At, In, Name;
  }

  lemma {:induction false} DecisionFalls(mid: State, t: State, last: Msg, p: Path)
    requires p != [] && MergedAs(mid, t, In(last.items, p), StampOfMsg(last), last.Replayed?, p, p)
    requires last.Live? && Says(last, p) && In(last.items, p).value.IsLeaf?
    requires AtMost(StampOf(mid.s, Name(p)), last.stamp)
    ensures At(t.m, p) == In(last.items, p) && StampOf(t.s, Name(p)) == Some(last.stamp)
  {
    hide At, In, Name;
  }

  /**
   Last writer wins: whatever the order of arrival, and whatever is replayed in between, a path ends with the
   value and the stamp of its newest live message.
   */
  lemma {:induction false} LastWriterWins(st: State, ms: seq<Msg>, dicts: iset<Path>, p: Path, j: nat)
    requires Shaped(st, ms, dicts) && p != [] && PathOk(p) && Decides(ms, p, j)
    requires AtMost(StampOf(st.s, Name(p)), ms[j].stamp)
    ensures At(Run(st, ms).m, p) == In(ms[j].items, p)
    ensures StampOf(Run(st, ms).s, Name(p)) == Some(ms[j].stamp)
  {
    LeafNotDict(ms[j].items, dicts, p);
    AllLeavesSaid(ms, dicts, p);
    hide Shaped, At, In, Apply, Name, MergedAs, Run;
    var n := |ms| - 1;
    RunStep(st, ms, dicts, p);
    var mid := Run(st, ms[..n]);
    if j < n {
      LastWriterWins(st, ms[..n], dicts, p, j);
      DecisionStays(mid, Run(st, ms), ms[n], p, In(ms[j].items, p).value, ms[j].stamp);
    } else {
      StampsBounded(st, ms[..n], dicts, p, ms[j].stamp);
      DecisionFalls(mid, Run(st, ms), ms[n], p);
    }
  }

  predicate AllLive(ms: seq<Msg>) {
    forall i | 0 <= i < |ms| :: ms[i].Live?
  }

  /** A stamp newer than all live messages keeps what is there. */
  lemma {:induction false} NewerStays(st: State, ms: seq<Msg>, dicts: iset<Path>, p: Path)
    requires Shaped(st, ms, dicts) && p != [] && PathOk(p) && AllLive(ms) && p !in dicts
    requires forall i | 0 <= i < |ms| && Says(ms[i], p) :: Newer(StampOf(st.s, Name(p)), Some(ms[i].stamp))
    ensures At(Run(st, ms).m, p) == At(st.m, p) && StampOf(Run(st, ms).s, Name(p)) == StampOf(st.s, Name(p))
  {
    if ms != [] {
      RunStep(st, ms, dicts, p);
      LeavesSaid(ms[|ms| - 1].items, dicts, p);
      hide Shaped, At, In, Apply, Name;
      NewerStays(st, ms[..|ms| - 1], dicts, p);
    }
  }

  ghost predicate Said(ms: seq<Msg>, p: Path)
    requires p != []
  {
    exists i :: 0 <= i < |ms| && Says(ms[i], p)
  }

  lemma {:induction false} SaidStep(ms: seq<Msg>, p: Path)
    requires p != [] && ms != []
    ensures Said(ms, p) <==> Said(ms[..|ms| - 1], p) || Says(ms[|ms| - 1], p)
  {
    var front := ms[..|ms| - 1];
    if i :| 0 <= i < |front| && Says(front[i], p) {
      assert Says(ms[i], p);
    }
    if i :| 0 <= i < |ms| && Says(ms[i], p) {
      assert i < |front| ==> Says(front[i], p);
    }
  }

  lemma {:induction false} DictSeen(m: map<string, Tree>, dicts: iset<Path>, p: Path)
    requires ShapedTree(m, dicts) && p != [] && PathOk(p) && p in dicts
    ensures At(m, p) == None || At(m, p) == Some(IsDict)
  {
  }

  lemma {:induction false} DictSaid(m: map<string, Tree>, items: seq<Item>, dicts: iset<Path>, p: Path)
    requires ShapedTree(m, dicts) && ShapedItems(items, dicts) && p != [] && PathOk(p) && p in dicts
    ensures At(m, p) == None || At(m, p) == Some(IsDict)
    ensures In(items, p) == None || In(items, p) == Some(IsDict)
  {
  }

  lemma {:induction false} DictStays(st: State, ms: seq<Msg>, dicts: iset<Path>, p: Path)
    requires Shaped(st, ms, dicts) && p != [] && PathOk(p) && p in dicts
    ensures At(Run(st, ms).m, p) == if At(st.m, p).Some? || Said(ms, p) then Some(IsDict) else None
  {
    hide Said, At, In, Apply, Name, ShapedItems, ShapedTree;
    if ms == [] {
      DictSeen(st.m, dicts, p);
      NothingSaid(p);
    } else {
      RunStep(st, ms, dicts, p);
      DictStays(st, ms[..|ms| - 1], dicts, p);
      SaidStep(ms, p);
      RunShaped(st, ms[..|ms| - 1], dicts);
      DictSaid(Run(st, ms[..|ms| - 1]).m, ms[|ms| - 1].items, dicts, p);
    }
  }

  lemma {:induction false} NothingSaid(p: Path)
    requires p != []
    ensures !Said([], p)
  {
  }

  // ----------------------------------------------------------------- convergence

  /** Two live messages that say the same path at the same time say the same. */
  ghost predicate Agreed(ms: seq<Msg>, p: Path)
    requires p != []
  {
    forall i, j | 0 <= i < |ms| && 0 <= j < |ms| && ms[i].Live? && ms[j].Live? && Says(ms[i], p) && Says(ms[j], p) ::
      ms[i].stamp == ms[j].stamp ==> In(ms[i].items, p) == In(ms[j].items, p)
  }

  lemma {:induction false} SomeoneDecides(ms: seq<Msg>, p: Path, i: nat) returns (j: nat)
    requires p != [] && Agreed(ms, p) && i < |ms| && ms[i].Live? && Says(ms[i], p)
    requires forall k | 0 <= k < |ms| && Says(ms[k], p) :: In(ms[k].items, p).value.IsLeaf?
    ensures Decides(ms, p, j)
  {
    hide In;
    j := i;
    var k := 0;
    while k < |ms|
      invariant 0 <= k <= |ms| && j < |ms| && ms[j].Live? && Says(ms[j], p)
      invariant forall l | 0 <= l < k && ms[l].Live? && Says(ms[l], p) :: ms[l].stamp <= ms[j].stamp
    {
      if ms[k].Live? && Says(ms[k], p) && ms[k].stamp > ms[j].stamp {
        j := k;
      }
      k := k + 1;
    }
  }

  lemma {:induction false} DecidesThere(ms: seq<Msg>, ns: seq<Msg>, p: Path, j: nat) returns (k: nat)
    requires p != [] && Decides(ms, p, j)
    requires forall msg: Msg | msg.Live? :: msg in ms <==> msg in ns
    ensures k < |ns| && ns[k] == ms[j] && Decides(ns, p, k)
  {
    hide In;
    assert ms[j] in ms;
    k :| 0 <= k < |ns| && ns[k] == ms[j];
    forall i | 0 <= i < |ns| && ns[i].Live? && Says(ns[i], p)
      ensures ns[i].stamp < ns[k].stamp || (ns[i].stamp == ns[k].stamp && In(ns[i].items, p) == In(ns[k].items, p))
    {
      assert ns[i] in ns;
      var l :| 0 <= l < |ms| && ms[l] == ns[i];
    }
  }

  /**
   Two histories with the same live messages, in any order and any number of times, and with any replays in
   between, agree on every leaf that a live message names (unless what was there from the start is newer).
   */
  lemma {:induction false} LeavesConverge(st: State, ms: seq<Msg>, ns: seq<Msg>, dicts: iset<Path>, p: Path, i: nat)
    requires Shaped(st, ms, dicts) && Shaped(st, ns, dicts) && p != [] && PathOk(p) && p !in dicts
    requires forall msg: Msg | msg.Live? :: msg in ms <==> msg in ns
    requires Agreed(ms, p) && i < |ms| && ms[i].Live? && Says(ms[i], p)
    requires AtMost(StampOf(st.s, Name(p)), ms[i].stamp)
    ensures At(Run(st, ms).m, p) == At(Run(st, ns).m, p)
    ensures StampOf(Run(st, ms).s, Name(p)) == StampOf(Run(st, ns).s, Name(p))
  {
    hide Run, At, In, Name, ShapedTree, Agreed;
    AllLeavesSaid(ms, dicts, p);
    var j := SomeoneDecides(ms, p, i);
    var k := DecidesThere(ms, ns, p, j);
    LastWriterWins(st, ms, dicts, p, j);
    LastWriterWins(st, ns, dicts, p, k);
  }

  // ----------------------------------------------------------------- the whole tree

  /** A path that the patch does not name shows what it showed. */
  lemma {:induction false} UnsaidStays(st: State, items: seq<Item>, stamp: Option<Time>, retained: bool, prefix: string,
      p: Path)
    requires Keyed(items) && Fits(st.m, items, retained) && p != [] && In(items, p) == None
    ensures At(MergeItems(st, items, stamp, retained, prefix).m, p) == At(st.m, p)
    decreases items, 0
  {
    if items != [] {
      var n := |items| - 1;
      var mid := MergeItems(st, items[..n], stamp, retained, prefix);
      KeyedFront(items);
      FrontIn(items, p);
      if p[0] != items[n].key {
        FitsFront(st.m, items, retained);
        hide Fits, Keyed, In, Find, At, MergeItem;
        UnsaidStays(st, items[..n], stamp, retained, prefix, p);
        OtherKeyStays(mid, items[n], stamp, retained, prefix, p);
      } else {
        LastItemIn(items, p);
        FitsInner(st.m, items, n, retained);
        hide Fits, Keyed, In, Find, At, MergeItem;
        StillThere(st, items[..n], stamp, retained, prefix, items[n].key);
        ItemUnsaid(mid, items[n], stamp, retained, prefix, p);
        SameMember(st.m, mid.m, p);
      }
    }
  }

  lemma {:induction false} OtherKeyStays(st: State, item: Item, stamp: Option<Time>, retained: bool, prefix: string,
      p: Path)
    requires p != [] && p[0] != item.key
    ensures At(MergeItem(st, item, stamp, retained, prefix).m, p) == At(st.m, p)
  {
    hide MergeItems;
  }

  lemma {:induction false} SameMember(m: map<string, Tree>, n: map<string, Tree>, p: Path)
    requires p != [] && (p[0] in m <==> p[0] in n) && (p[0] in m ==> m[p[0]] == n[p[0]])
    ensures At(m, p) == At(n, p)
  {
  }

  lemma {:induction false} StillThere(st: State, items: seq<Item>, stamp: Option<Time>, retained: bool, prefix: string,
      key: string)
    requires Find(items, key) == None
    ensures var t := MergeItems(st, items, stamp, retained, prefix);
      (key in t.m <==> key in st.m) && (key in st.m ==> t.m[key] == st.m[key])
    decreases |items|
  {
    if items != [] {
      StillThere(st, items[..|items| - 1], stamp, retained, prefix, key);
    }
  }

  lemma {:induction false} ItemUnsaid(st: State, item: Item, stamp: Option<Time>, retained: bool, prefix: string,
      p: Path)
    requires KeyedItem(item) && FitsItem(st.m, item, retained) && p != [] && p[0] == item.key
    requires ItemIn(item, p) == None
    requires item.value.Object? ==> Fits(Room(st.m, item.key), item.value.items, retained)
    ensures At(MergeItem(st, item, stamp, retained, prefix).m, p) == At(st.m, p)
    decreases item, 1
  {
    hide Fits, Keyed, MergeItems, In;
    if item.value.Object? {
      var room := State(Room(st.m, item.key), st.s);
      UnsaidStays(room, item.value.items, stamp, retained, Sub(prefix, item.key), p[1..]);
    }
  }

  lemma {:induction false} OddPathStays(st: State, ms: seq<Msg>, dicts: iset<Path>, p: Path)
    requires Shaped(st, ms, dicts) && p != [] && !PathOk(p)
    ensures At(Run(st, ms).m, p) == At(st.m, p)
  {
    if ms != [] {
      var n := |ms| - 1;
      OddPathStays(st, ms[..n], dicts, p);
      RunShaped(st, ms[..n], dicts);
      var last := ms[n];
      if In(last.items, p).Some? {
        SaidPathsOk(last.items, p, true);
      }
      ShapesFit(Run(st, ms[..n]).m, last.items, dicts, last.Replayed?);
      NamedIsKeyed(last.items, true);
      UnsaidStays(Run(st, ms[..n]), last.items, StampOfMsg(last), last.Replayed?, "", p);
    }
  }

  lemma {:induction false} SameAtAll(t: Tree, u: Tree)
    requires t.Dict? && u.Dict? && forall p: Path | p != [] :: At(t.m, p) == At(u.m, p)
    ensures t == u
    decreases t
  {
    forall k: string ensures k in t.m <==> k in u.m {
      assert At(t.m, [k]) == At(u.m, [k]);
    }
    forall k | k in t.m ensures t.m[k] == u.m[k] {
      assert At(t.m, [k]) == At(u.m, [k]);
      if t.m[k].Dict? {
        forall p: Path | p != [] ensures At(t.m[k].m, p) == At(u.m[k].m, p) {
          assert ([k] + p)[1..] == p;
          assert At(t.m, [k] + p) == At(u.m, [k] + p);
        }
        SameAtAll(t.m[k], u.m[k]);
      }
    }
    assert t.m == u.m;
  }

  lemma {:induction false} PathConverges(st: State, ms: seq<Msg>, ns: seq<Msg>, dicts: iset<Path>, p: Path)
    requires Shaped(st, ms, dicts) && Shaped(st, ns, dicts) && p != []
    requires AllLive(ms) && AllLive(ns) && (forall msg :: msg in ms <==> msg in ns) && Agreed(ms, p)
    ensures At(Run(st, ms).m, p) == At(Run(st, ns).m, p)
  {
    hide Run, At, In, Name, ShapedTree, ShapedItems, Decides;
    if !PathOk(p) {
      OddPathStays(st, ms, dicts, p);
      OddPathStays(st, ns, dicts, p);
    } else if p in dicts {
      DictStays(st, ms, dicts, p);
      DictStays(st, ns, dicts, p);
      SaidAlike(ms, ns, p);
    } else {
      LeafConverges(st, ms, ns, dicts, p);
    }
  }

  lemma {:induction false} SaidAlike(ms: seq<Msg>, ns: seq<Msg>, p: Path)
    requires p != [] && forall msg :: msg in ms <==> msg in ns
    ensures Said(ms, p) <==> Said(ns, p)
  {
    hide In;
    if i :| 0 <= i < |ms| && Says(ms[i], p) {
      assert ms[i] in ns;
      var j :| 0 <= j < |ns| && ns[j] == ms[i];
      assert Says(ns[j], p);
    }
    if i :| 0 <= i < |ns| && Says(ns[i], p) {
      assert ns[i] in ms;
      var j :| 0 <= j < |ms| && ms[j] == ns[i];
      assert Says(ms[j], p);
    }
  }

  lemma {:induction false} LeafConverges(st: State, ms: seq<Msg>, ns: seq<Msg>, dicts: iset<Path>, p: Path)
    requires Shaped(st, ms, dicts) && Shaped(st, ns, dicts) && p != [] && PathOk(p) && p !in dicts
    requires AllLive(ms) && AllLive(ns) && (forall msg :: msg in ms <==> msg in ns) && Agreed(ms, p)
    ensures At(Run(st, ms).m, p) == At(Run(st, ns).m, p)
  {
    AllLeavesSaid(ms, dicts, p);
    hide Run, At, In, Name, ShapedTree, ShapedItems;
    SaidAlike(ms, ns, p);
    if Said(ms, p) {
      var i: nat :| i < |ms| && Says(ms[i], p);
      var j := SomeoneDecides(ms, p, i);
      if AtMost(StampOf(st.s, Name(p)), ms[j].stamp) {
        LeavesConverge(st, ms, ns, dicts, p, j);
      } else {
        var k := DecidesThere(ms, ns, p, j);
        NewerStays(st, ms, dicts, p);
        NewerStays(st, ns, dicts, p);
      }
    } else {
      NewerStays(st, ms, dicts, p);
      NewerStays(st, ns, dicts, p);
    }
  }

  /** Live messages may arrive in any order and any number of times: the controller's latest values are the same. */
  lemma {:induction false} LiveMessagesConverge(st: State, ms: seq<Msg>, ns: seq<Msg>, dicts: iset<Path>)
    requires Shaped(st, ms, dicts) && Shaped(st, ns, dicts)
    requires AllLive(ms) && AllLive(ns) && (forall msg :: msg in ms <==> msg in ns)
    requires forall p: Path | p != [] :: Agreed(ms, p)
    ensures Run(st, ms).m == Run(st, ns).m
  {
    hide Run, In, Shaped, Agreed;
    forall p: Path | p != [] ensures At(Run(st, ms).m, p) == At(Run(st, ns).m, p) {
      PathConverges(st, ms, ns, dicts, p);
    }
    SameAtAll(Dict(Run(st, ms).m), Dict(Run(st, ns).m));
  }

  // ----------------------------------------------------------------- replays

  /** A retained message keeps every stamp that is there and every value that is there, if the shapes agree. */
  lemma {:induction false} ReplayOnlyFills(st: State, items: seq<Item>, p: Path)
    requires Named(items, true) && Fits(st.m, items, true) && p != [] && PathOk(p)
    ensures var t := Apply(st, Replayed(items));
      && (At(st.m, p).Some? ==> At(t.m, p) == At(st.m, p))
      && (At(st.m, p).None? ==> At(t.m, p) == In(items, p))
      && (Name(p) in st.s ==> Name(p) in t.s && t.s[Name(p)] == st.s[Name(p)])
  {
    assert [] + p == p && Name([]) == "";
    MergedAt(st, items, None, true, [], p);
  }

  /** An object in the patch ends as an object, whatever was in its place. */
  lemma {:induction false} ObjectWins(st: State, items: seq<Item>, stamp: Option<Time>, retained: bool, prefix: string,
      p: Path)
    requires Keyed(items) && p != [] && In(items, p) == Some(IsDict)
    ensures At(MergeItems(st, items, stamp, retained, prefix).m, p) == Some(IsDict)
    decreases items, 0
  {
    var n := |items| - 1;
    KeyedFront(items);
    FrontIn(items, p);
    var mid := MergeItems(st, items[..n], stamp, retained, prefix);
    if p[0] != items[n].key {
      hide Keyed, In, Find, At, MergeItem;
      ObjectWins(st, items[..n], stamp, retained, prefix, p);
      OtherKeyStays(mid, items[n], stamp, retained, prefix, p);
    } else {
      LastItemIn(items, p);
      if |p| > 1 {
        var room := State(Room(mid.m, p[0]), mid.s);
        ObjectWins(room, items[n].value.items, stamp, retained, Sub(prefix, p[0]), p[1..]);
      }
    }
  }

  /** What is there stays in a replay, object or value, if no replayed object meets a value. */
  lemma {:induction false} PresentStays(st: State, items: seq<Item>, stamp: Option<Time>, prefix: string, p: Path)
    requires Keyed(items) && Fits(st.m, items, true) && p != [] && At(st.m, p).Some?
    ensures At(MergeItems(st, items, stamp, true, prefix).m, p) == At(st.m, p)
    decreases items, 0
  {
    if items != [] {
      var n := |items| - 1;
      var mid := MergeItems(st, items[..n], stamp, true, prefix);
      KeyedFront(items);
      if p[0] != items[n].key {
        FitsFront(st.m, items, true);
        hide Fits, Keyed, In, Find, At, MergeItem;
        PresentStays(st, items[..n], stamp, prefix, p);
        OtherKeyStays(mid, items[n], stamp, true, prefix, p);
      } else {
        FitsInner(st.m, items, n, true);
        hide Fits, Keyed, In, Find, At, MergeItem;
        StillThere(st, items[..n], stamp, true, prefix, items[n].key);
        SameMember(st.m, mid.m, p);
        ItemPresent(mid, items[n], stamp, prefix, p);
      }
    }
  }

  lemma {:induction false} ItemPresent(st: State, item: Item, stamp: Option<Time>, prefix: string, p: Path)
    requires KeyedItem(item) && FitsItem(st.m, item, true) && p != [] && p[0] == item.key && At(st.m, p).Some?
    requires item.value.Object? ==> Fits(Room(st.m, item.key), item.value.items, true)
    ensures At(MergeItem(st, item, stamp, true, prefix).m, p) == At(st.m, p)
    decreases item, 1
  {
    hide Fits, Keyed, MergeItems, In;
    if item.value.Object? && |p| > 1 {
      var room := State(Room(st.m, item.key), st.s);
      PresentStays(room, item.value.items, stamp, Sub(prefix, item.key), p[1..]);
    }
  }

  /** The path where a replayed object meets a leaf. */
  ghost predicate Clash(m: map<string, Tree>, items: seq<Item>, p: Path)
    requires p != []
  {
    At(m, p).Some? && At(m, p).value.IsLeaf? && In(items, p) == Some(IsDict)
  }

  lemma {:induction false} NoClashFits(m: map<string, Tree>, items: seq<Item>)
    requires !exists p: Path :: p != [] && Clash(m, items, p)
    ensures Fits(m, items, true)
  {
    forall p: Path | p != [] && In(items, p).Some? && At(m, p).Some?
      ensures In(items, p) == Some(IsDict) ==> At(m, p) == Some(IsDict)
    {
      assert !Clash(m, items, p);
    }
  }

  /** A retained message, whatever its keys, leaves every value as it is exactly when it has no object where one is. */
  lemma {:induction false} ReplayKeepsValues(st: State, items: seq<Item>)
    requires Keyed(items)
    ensures (forall p: Path | p != [] && At(st.m, p).Some? && At(st.m, p).value.IsLeaf? ::
        At(Apply(st, Replayed(items)).m, p) == At(st.m, p))
      <==> !exists p: Path :: p != [] && Clash(st.m, items, p)
  {
    if p: Path :| p != [] && Clash(st.m, items, p) {
      ObjectWins(st, items, None, true, "", p);
    } else {
      NoClashFits(st.m, items);
      hide Fits, Keyed, MergeItems, At, In;
      forall p: Path | p != [] && At(st.m, p).Some? && At(st.m, p).value.IsLeaf?
        ensures At(Apply(st, Replayed(items)).m, p) == At(st.m, p)
      {
        PresentStays(st, items, None, "", p);
      }
    }
  }

  /** The case in which it does not: a retained object destroys a live value. */
  lemma {:induction false} ReplayDestroysValue(a: Atom, stamp: Time) returns (st: State, items: seq<Item>)
    ensures At(st.m, ["x"]) == Some(IsLeaf(a)) && StampOf(st.s, "x") == Some(stamp)
    ensures At(Apply(st, Replayed(items)).m, ["x"]) == Some(IsDict)
  {
    st := State(map["x" := Leaf(a)], map["x" := Some(stamp)]);
    items := [Item("x", Object([]))];
    assert items[..0] == [] && Find(items, "x") == Some(Object([]));
    ObjectWins(st, items, None, true, "", ["x"]);
  }

  // ----------------------------------------------------------------- the stamps of objects

  /** Message `i` is the last live one that names the path, whatever its stamp. */
  predicate LastToSay(ms: seq<Msg>, p: Path, i: nat)
    requires p != []
  {
    && i < |ms| && ms[i].Live? && Says(ms[i], p)
    && forall k | i < k < |ms| :: !(ms[k].Live? && Says(ms[k], p))
  }

  lemma {:induction false} ObjectStep(st: State, ms: seq<Msg>, dicts: iset<Path>, p: Path)
    requires Shaped(st, ms, dicts) && ms != [] && p != [] && PathOk(p) && p in dicts
    ensures var front, last := ms[..|ms| - 1], ms[|ms| - 1];
      StampOf(Run(st, ms).s, Name(p)) ==
        if last.Live? && Says(last, p) then Some(last.stamp) else StampOf(Run(st, front).s, Name(p))
  {
    var n := |ms| - 1;
    RunStep(st, ms, dicts, p);
    RunShaped(st, ms[..n], dicts);
    DictSaid(Run(st, ms[..n]).m, ms[n].items, dicts, p);
    hide Shaped, Run, In, At, Name;
  }

  /** Unlike that of a leaf, the stamp of an object is that of the last live message to name it, newest or not. */
  lemma {:induction false} ObjectStampIsLast(st: State, ms: seq<Msg>, dicts: iset<Path>, p: Path, i: nat)
    requires Shaped(st, ms, dicts) && p != [] && PathOk(p) && p in dicts && LastToSay(ms, p, i)
    ensures StampOf(Run(st, ms).s, Name(p)) == Some(ms[i].stamp)
  {
    ObjectStep(st, ms, dicts, p);
    var n := |ms| - 1;
    if i < n {
      assert LastToSay(ms[..n], p, i);
      ObjectStampIsLast(st, ms[..n], dicts, p, i);
    }
  }

  /** So two histories agree on an object's stamp exactly when the messages that name it last have the same stamp. */
  lemma {:induction false} ObjectStampsConverge(st: State, ms: seq<Msg>, ns: seq<Msg>, dicts: iset<Path>, p: Path,
      i: nat, j: nat)
    requires Shaped(st, ms, dicts) && Shaped(st, ns, dicts) && p != [] && PathOk(p) && p in dicts
    requires LastToSay(ms, p, i) && LastToSay(ns, p, j)
    ensures StampOf(Run(st, ms).s, Name(p)) == StampOf(Run(st, ns).s, Name(p)) <==> ms[i].stamp == ns[j].stamp
  {
    ObjectStampIsLast(st, ms, dicts, p, i);
    ObjectStampIsLast(st, ns, dicts, p, j);
  }

  /** A case in which two orders of the same messages leave different stamps. */
  lemma {:induction false} ObjectStampsDoNotConverge() returns (st: State, a: Msg, b: Msg)
    ensures a.Live? && b.Live? && a.stamp < b.stamp
    ensures StampOf(Run(st, [a, b]).s, "x") == Some(b.stamp) && StampOf(Run(st, [b, a]).s, "x") == Some(a.stamp)
  {
    st := State(map[], map[]);
    a := Live([Item("x", Object([]))], 1);
    b := Live([Item("x", Object([]))], 2);
    RunTwo(st, a, b);
    RunTwo(st, b, a);
    ObjectStamped(Apply(st, a), b);
    ObjectStamped(Apply(st, b), a);
  }

  lemma {:induction false} RunTwo(st: State, a: Msg, b: Msg)
    ensures Run(st, [a, b]) == Apply(Apply(st, a), b)
  {
    assert [a, b][..1] == [a] && [a][..0] == [];
    assert Run(st, [a]) == Apply(Run(st, []), a);
  }

  lemma {:induction false} ObjectStamped(st: State, msg: Msg)
    requires msg.Live? && msg.items == [Item("x", Object([]))]
    ensures StampOf(Apply(st, msg).s, "x") == Some(msg.stamp)
  {
    var item, stamp := msg.items[0], Some(msg.stamp);
    assert msg.items[..0] == [] && MergeItems(st, [], stamp, false, "") == st;
    assert Apply(st, msg) == MergeItem(st, item, stamp, false, "");
    var room := State(Room(st.m, "x"), st.s);
    assert MergeItems(room, [], stamp, false, "x") == room;
  }
}
