/**
 Which sequences of writer calls write a document. The writer itself counts containers and remembers a waiting
 key; it does not check which bracket closes which, or that a key stands in an object, or that there is one value.
 The reading here does, with a stack, and accepts exactly the calls of a document.
 */
module JsonCalls {
  import opened Options
  import opened JsonText
  import opened JsonWriter
  import Seqs

  /** An open container; `Member` is an object with a key that waits for its value. */
  datatype Kind = Array | Object | Member

  /** What a strict reader has seen: the open containers, and whether the document is complete. */
  datatype Shape = Shape(open: seq<Kind>, whole: bool)

  predicate TakesValue(s: Shape) {
    if s.open == [] then !s.whole else !s.open[|s.open| - 1].Object?
  }

  function Under(s: Shape): Shape
    requires s.open != []
  {
    s.(open := s.open[..|s.open| - 1])
  }

  function ValueDone(s: Shape): Shape {
    if s.open == [] then s.(whole := true)
    else if s.open[|s.open| - 1].Member? then s.(open := s.open[..|s.open| - 1] + [Object])
    else s
  }

  predicate On(s: Shape, k: Kind) {
    s.open != [] && s.open[|s.open| - 1] == k
  }

  function Keyed(s: Shape): Shape
    requires s.open != []
  {
    s.(open := s.open[..|s.open| - 1] + [Member])
  }

  function Next(s: Shape, c: Call): Option<Shape> {
    match c
    case ObjBegin => if TakesValue(s) then Some(s.(open := s.open + [Object])) else None
    case ArrBegin => if TakesValue(s) then Some(s.(open := s.open + [Array])) else None
    case ObjEnd => if On(s, Object) then Some(ValueDone(Under(s))) else None
    case ArrEnd => if On(s, Array) then Some(ValueDone(Under(s))) else None
    case Key(_) => if On(s, Object) then Some(Keyed(s)) else None
    case _ => if TakesValue(s) then Some(ValueDone(s)) else None
  }

  function Read(s: Shape, cs: seq<Call>): Option<Shape> {
    if cs == [] then Some(s)
    else
      var r := Read(s, cs[..|cs| - 1]);
      if r.None? then None else Next(r.value, cs[|cs| - 1])
  }

  /** One value, every key in an object and with its value, and every container closed by its own bracket. */
  predicate WellFormed(cs: seq<Call>) {
    Read(Shape([], false), cs) == Some(Shape([], true))
  }

  // ----------------------------------------------------------------- a document's calls are well formed

  lemma {:induction false} ReadOn(s: Shape, a: seq<Call>, b: seq<Call>)
    ensures Read(s, a + b) == if Read(s, a).Some? then Read(Read(s, a).value, b) else None
    decreases |b|
  {
    hide Next;
    if b == [] {
      assert a + b == a;
    } else {
      ReadOn(s, a, b[..|b| - 1]);
      assert (a + b)[..|a + b| - 1] == a + b[..|b| - 1];
    }
  }

  lemma {:induction false} ReadOne(s: Shape, c: Call)
    ensures Read(s, [c]) == Next(s, c)
  {
    assert [c][..0] == [];
    assert Read(s, []) == Some(s);
  }

  lemma {:induction false} ReadContainer(s: Shape, begin: Call, k: Kind, cs: seq<Call>, end: Call)
    requires TakesValue(s)
    requires (begin == ArrBegin && k == Array && end == ArrEnd) || (begin == ObjBegin && k == Object && end == ObjEnd)
    requires Read(s.(open := s.open + [k]), cs) == Some(s.(open := s.open + [k]))
    ensures Read(s, [begin] + cs + [end]) == Some(ValueDone(s))
  {
    var inner := s.(open := s.open + [k]);
    ReadOne(s, begin);
    ReadOn(s, [begin], cs);
    ReadOn(s, [begin] + cs, [end]);
    ReadOne(inner, end);
    assert Under(inner) == s;
  }

  lemma {:induction false} ReadValue(s: Shape, v: Json)
    requires TakesValue(s)
    ensures Read(s, Calls(v)) == Some(ValueDone(s))
    decreases v, 1
  {
    match v
    case Null => ReadOne(s, PutNull);
    case Bool(b) => ReadOne(s, PutBool(b));
    case Int(n) => ReadOne(s, PutInt(n));
    case Str(t) => ReadOne(s, PutStr(t));
    case Blob(data) => ReadOne(s, PutBlob(data));
    case Arr(items) =>
      ReadItems(s.(open := s.open + [Array]), items);
      ReadContainer(s, ArrBegin, Array, ItemCalls(items), ArrEnd);
    case Obj(members) =>
      ReadMembers(s.(open := s.open + [Object]), members);
      ReadContainer(s, ObjBegin, Object, MemberCalls(members), ObjEnd);
  }

  lemma {:induction false} ReadItems(s: Shape, items: seq<Json>)
    requires On(s, Array)
    ensures Read(s, ItemCalls(items)) == Some(s)
    decreases items, 0
  {
    if items != [] {
      ReadValue(s, items[0]);
      ReadItems(s, items[1..]);
      ReadOn(s, Calls(items[0]), ItemCalls(items[1..]));
    }
  }

  lemma {:induction false} KeyThenValue(s: Shape, key: string)
    requires On(s, Object)
    ensures Next(s, Key(key)) == Some(Keyed(s)) && TakesValue(Keyed(s)) && ValueDone(Keyed(s)) == s
  {
  }

  lemma {:induction false} ReadMember(s: Shape, m: (string, Json))
    requires On(s, Object)
    ensures Read(s, CallsOfMember(m)) == Some(s)
    decreases m, 2
  {
    KeyThenValue(s, m.0);
    hide Next, ValueDone, TakesValue, Calls, Read, Keyed;
    ReadOne(s, Key(m.0));
    ReadValue(Keyed(s), m.1);
    ReadOn(s, [Key(m.0)], Calls(m.1));
  }

  lemma {:induction false} ReadMembers(s: Shape, members: seq<(string, Json)>)
    requires On(s, Object)
    ensures Read(s, MemberCalls(members)) == Some(s)
    decreases members, 0
  {
    if members != [] {
      ReadMember(s, members[0]);
      ReadMembers(s, members[1..]);
      ReadOn(s, CallsOfMember(members[0]), MemberCalls(members[1..]));
    }
  }

  // ----------------------------------------------------------------- and nothing else is

  /** A container that is still open, with what was written into it. */
  datatype Frame =
    | InArray(items: seq<Json>)
    | InObject(members: seq<(string, Json)>)
    | InMember(members: seq<(string, Json)>, key: string)

  function KindOf(f: Frame): Kind {
    match f case InArray(_) => Array case InObject(_) => Object case InMember(_, _) => Member
  }

  function FrameCalls(f: Frame): seq<Call> {
    match f
    case InArray(items) => [ArrBegin] + ItemCalls(items)
    case InObject(members) => [ObjBegin] + MemberCalls(members)
    case InMember(members, key) => [ObjBegin] + MemberCalls(members) + [Key(key)]
  }

  function Kinds(fs: seq<Frame>): seq<Kind> {
    seq(|fs|, i requires 0 <= i < |fs| => KindOf(fs[i]))
  }

  function StackCalls(fs: seq<Frame>): seq<Call> {
    if fs == [] then [] else StackCalls(fs[..|fs| - 1]) + FrameCalls(fs[|fs| - 1])
  }

  /** A container stands in an array or behind a key. */
  predicate Nested(open: seq<Kind>) {
    forall i | 0 <= i < |open| - 1 :: !open[i].Object?
  }

  /** The calls so far: what the open containers hold, or a whole document. */
  ghost predicate Made(cs: seq<Call>, s: Shape, fs: seq<Frame>, v: Json) {
    && Kinds(fs) == s.open && Nested(s.open)
    && cs == (if s.whole then Calls(v) else StackCalls(fs))
    && (s.whole ==> fs == [])
  }

  lemma {:induction false} ItemsMore(items: seq<Json>, v: Json)
    ensures ItemCalls(items + [v]) == ItemCalls(items) + Calls(v)
    decreases |items|
  {
    hide Calls;
    var more := items + [v];
    if items == [] {
      assert more == [v] && more[1..] == [];
      assert ItemCalls([]) == [];
      Seqs.Empty(Calls(v));
    } else {
      ItemsMore(items[1..], v);
      assert more[1..] == items[1..] + [v];
      Seqs.Assoc(Calls(items[0]), ItemCalls(items[1..]), Calls(v));
    }
  }

  lemma {:induction false} MembersMore(members: seq<(string, Json)>, m: (string, Json))
    ensures MemberCalls(members + [m]) == MemberCalls(members) + CallsOfMember(m)
    decreases |members|
  {
    hide CallsOfMember;
    var more := members + [m];
    if members == [] {
      assert more == [m] && more[1..] == [];
      assert MemberCalls([]) == [];
      Seqs.Empty(CallsOfMember(m));
    } else {
      MembersMore(members[1..], m);
      assert more[1..] == members[1..] + [m];
      Seqs.Assoc(CallsOfMember(members[0]), MemberCalls(members[1..]), CallsOfMember(m));
    }
  }

  lemma {:induction false} Pushed(fs: seq<Frame>, f: Frame)
    ensures StackCalls(fs + [f]) == StackCalls(fs) + FrameCalls(f)
    ensures Kinds(fs + [f]) == Kinds(fs) + [KindOf(f)]
  {
    assert (fs + [f])[..|fs|] == fs;
  }

  lemma {:induction false} TopOf(fs: seq<Frame>)
    requires fs != []
    ensures var under, top := fs[..|fs| - 1], fs[|fs| - 1];
      && fs == under + [top] && StackCalls(fs) == StackCalls(under) + FrameCalls(top)
      && Kinds(fs) == Kinds(under) + [KindOf(top)]
  {
    assert fs == fs[..|fs| - 1] + [fs[|fs| - 1]];
    Pushed(fs[..|fs| - 1], fs[|fs| - 1]);
  }

  /** What a finished value does to the innermost open container. */
  function WithValue(f: Frame, v: Json): Frame
    requires !f.InObject?
  {
    if f.InArray? then InArray(f.items + [v]) else InObject(f.members + [(f.key, v)])
  }

  lemma {:induction false} FrameMore(f: Frame, v: Json)
    requires !f.InObject?
    ensures FrameCalls(WithValue(f, v)) == FrameCalls(f) + Calls(v)
  {
    hide Calls, ItemCalls, MemberCalls;
    match f
    case InArray(items) =>
      ItemsMore(items, v);
      Seqs.Assoc([ArrBegin], ItemCalls(items), Calls(v));
    case InMember(members, key) =>
      MembersMore(members, (key, v));
      Seqs.Assoc([ObjBegin], MemberCalls(members), [Key(key)] + Calls(v));
      Seqs.Assoc([ObjBegin] + MemberCalls(members), [Key(key)], Calls(v));
  }

  lemma {:induction false} ValueMade(cs: seq<Call>, s: Shape, fs: seq<Frame>, v: Json) returns (gs: seq<Frame>)
    requires cs == StackCalls(fs) + Calls(v) && Kinds(fs) == s.open && Nested(s.open) && !s.whole && TakesValue(s)
    ensures Made(cs, ValueDone(s), gs, v)
  {
    hide Calls, FrameCalls;
    if fs == [] {
      gs := [];
      Seqs.Empty(Calls(v));
    } else {
      TopOf(fs);
      var under, top := fs[..|fs| - 1], fs[|fs| - 1];
      gs := under + [WithValue(top, v)];
      FrameMore(top, v);
      Pushed(under, WithValue(top, v));
      Seqs.Assoc(StackCalls(under), FrameCalls(top), Calls(v));
      assert Kinds(under) == s.open[..|s.open| - 1];
    }
  }

  function Scalar(c: Call): Json
    requires !c.ObjBegin? && !c.ObjEnd? && !c.ArrBegin? && !c.ArrEnd? && !c.Key?
  {
    match c
    case PutNull => Null
    case PutBool(b) => Bool(b)
    case PutInt(n) => Int(n)
    case PutStr(s) => Str(s)
    case PutBlob(data) => Blob(data)
  }

  /** The value that a closing bracket completes. */
  function Complete(f: Frame): Json
    requires !f.InMember?
  {
    if f.InArray? then Arr(f.items) else Obj(f.members)
  }

  lemma {:induction false} CompleteCalls(f: Frame)
    requires !f.InMember?
    ensures Calls(Complete(f)) == FrameCalls(f) + [if f.InArray? then ArrEnd else ObjEnd]
  {
  }

  lemma {:induction false} OpenMade(cs: seq<Call>, s: Shape, fs: seq<Frame>, v: Json, c: Call, f: Frame)
    requires Made(cs, s, fs, v) && TakesValue(s)
    requires (c.ObjBegin? && f == InObject([])) || (c.ArrBegin? && f == InArray([]))
    ensures Made(cs + [c], s.(open := s.open + [KindOf(f)]), fs + [f], v)
  {
    hide Calls, ItemCalls, MemberCalls, StackCalls, FrameCalls;
    Pushed(fs, f);
    NoMembers();
  }

  lemma {:induction false} KeyMade(cs: seq<Call>, s: Shape, fs: seq<Frame>, v: Json, key: string)
    returns (gs: seq<Frame>)
    requires Made(cs, s, fs, v) && On(s, Object)
    ensures Made(cs + [Key(key)], Keyed(s), gs, v)
  {
    hide Calls, ItemCalls, MemberCalls, StackCalls;
    TopOf(fs);
    var under, top := fs[..|fs| - 1], fs[|fs| - 1];
    gs := under + [InMember(top.members, key)];
    Pushed(under, InMember(top.members, key));
    Seqs.Assoc(StackCalls(under), FrameCalls(top), [Key(key)]);
    assert Kinds(under) == s.open[..|s.open| - 1];
  }

  lemma {:induction false} ScalarMade(cs: seq<Call>, s: Shape, fs: seq<Frame>, v: Json, c: Call)
    returns (gs: seq<Frame>, w: Json)
    requires Made(cs, s, fs, v) && TakesValue(s)
    requires !c.ObjBegin? && !c.ObjEnd? && !c.ArrBegin? && !c.ArrEnd? && !c.Key?
    ensures Made(cs + [c], ValueDone(s), gs, w)
  {
    hide Calls, StackCalls, ValueDone, Nested;
    w := Scalar(c);
    ScalarCalls(c);
    gs := ValueMade(cs + [c], s, fs, w);
  }

  lemma {:induction false} CallMade(cs: seq<Call>, s: Shape, fs: seq<Frame>, v: Json, c: Call)
    returns (gs: seq<Frame>, w: Json)
    requires Made(cs, s, fs, v) && Next(s, c).Some?
    ensures Made(cs + [c], Next(s, c).value, gs, w)
  {
    hide Made, ValueDone, Keyed, TakesValue, On;
    w := v;
    match c
    case ObjBegin =>
      gs := fs + [InObject([])];
      OpenMade(cs, s, fs, v, c, InObject([]));
    case ArrBegin =>
      gs := fs + [InArray([])];
      OpenMade(cs, s, fs, v, c, InArray([]));
    case Key(key) => gs := KeyMade(cs, s, fs, v, key);
    case ObjEnd => gs, w := EndMade(cs, s, fs, v, c);
    case ArrEnd => gs, w := EndMade(cs, s, fs, v, c);
    case _ => gs, w := ScalarMade(cs, s, fs, v, c);
  }

  lemma {:induction false} ScalarCalls(c: Call)
    requires !c.ObjBegin? && !c.ObjEnd? && !c.ArrBegin? && !c.ArrEnd? && !c.Key?
    ensures Calls(Scalar(c)) == [c]
  {
  }

  lemma {:induction false} NoMembers()
    ensures FrameCalls(InObject([])) == [ObjBegin] && FrameCalls(InArray([])) == [ArrBegin]
  {
  }

  lemma {:induction false} UnderTakesValue(s: Shape)
    requires s.open != [] && Nested(s.open) && !s.whole
    ensures TakesValue(Under(s)) && Nested(Under(s).open)
  {
  }

  lemma {:induction false} EndMade(cs: seq<Call>, s: Shape, fs: seq<Frame>, v: Json, c: Call)
    returns (gs: seq<Frame>, w: Json)
    requires Made(cs, s, fs, v) && (c.ObjEnd? || c.ArrEnd?) && Next(s, c).Some?
    ensures Made(cs + [c], Next(s, c).value, gs, w)
  {
    hide Calls, StackCalls, ValueDone, TakesValue;
    TopOf(fs);
    var under, top := fs[..|fs| - 1], fs[|fs| - 1];
    w := Complete(top);
    CompleteCalls(top);
    Seqs.Assoc(StackCalls(under), FrameCalls(top), [c]);
    assert Kinds(under) == Under(s).open;
    UnderTakesValue(s);
    gs := ValueMade(cs + [c], Under(s), under, w);
  }

  lemma {:induction false} NothingMade()
    ensures Made([], Shape([], false), [], Null)
  {
  }

  lemma {:induction false} ReadLast(s: Shape, cs: seq<Call>)
    requires cs != [] && Read(s, cs).Some?
    ensures var n := |cs| - 1;
      && Read(s, cs[..n]).Some? && Next(Read(s, cs[..n]).value, cs[n]) == Read(s, cs)
      && cs[..n] + [cs[n]] == cs
  {
    hide Next;
  }

  lemma {:induction false} ReadMade(cs: seq<Call>) returns (fs: seq<Frame>, v: Json)
    requires Read(Shape([], false), cs).Some?
    ensures Made(cs, Read(Shape([], false), cs).value, fs, v)
    decreases |cs|
  {
    hide Made, Next;
    if cs == [] {
      fs, v := [], Null;
      NothingMade();
    } else {
      hide Read;
      var n := |cs| - 1;
      ReadLast(Shape([], false), cs);
      fs, v := ReadMade(cs[..n]);
      fs, v := CallMade(cs[..n], Read(Shape([], false), cs[..n]).value, fs, v, cs[n]);
    }
  }

  /** A sequence of calls writes a document exactly when it is well formed. */
  lemma {:induction false} WellFormedIsDocument(cs: seq<Call>)
    ensures WellFormed(cs) <==> exists v :: Calls(v) == cs
  {
    if WellFormed(cs) {
      var fs, v := ReadMade(cs);
      assert Calls(v) == cs;
    }
    if v :| Calls(v) == cs {
      ReadValue(Shape([], false), v);
    }
  }

  /**
   Then what finish returns is settled by that document: the length of its text, unless it is too deep or too long.
   */
  lemma {:induction false} FinishOfDocument(cs: seq<Call>, cap: nat) returns (v: Json)
    requires WellFormed(cs)
    ensures Calls(v) == cs
    ensures Finished(Run(START, cs).0, |Run(START, cs).1|, cap) ==
      if Nesting(v) <= MAX_DEPTH && |Text(v)| + 1 <= cap then |Text(v)| else 0
  {
    WellFormedIsDocument(cs);
    v :| Calls(v) == cs;
    DocumentWritten(v, cap);
  }

  lemma {:induction false} TwoCalls(a: Call, b: Call)
    ensures var s := Next(Shape([], false), a);
      Read(Shape([], false), [a, b]) == if s.None? then None else Next(s.value, b)
    ensures Run(START, [a, b]).0 == Emit(Emit(START, a).0, b).0
  {
    hide Next, Emit;
    assert [a, b][..1] == [a] && [a, b][1..] == [b];
    ReadOne(Shape([], false), a);
    RunOne(Emit(START, a).0, b);
  }

  /** Finish accepts what is none as well: two documents in a row, and an object closed as an array. */
  lemma {:induction false} FinishIsNotValidation()
    ensures !WellFormed([PutNull, PutNull]) && Run(START, [PutNull, PutNull]).0 == START
    ensures !WellFormed([ObjBegin, ArrEnd]) && Run(START, [ObjBegin, ArrEnd]).0 == START
  {
    TwoCalls(PutNull, PutNull);
    TwoCalls(ObjBegin, ArrEnd);
    hide Run, Read;
    assert Emit(START, ObjBegin).0 == Place([true], false, false);
  }
}
