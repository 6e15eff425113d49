/**
 The streaming JSON writer: no heap, no recursion, a buffer of fixed capacity. Each call appends its
 piece of text or, once a piece did not fit or the nesting was wrong, nothing ever again.

 `Emit` says what one call means without a buffer; the writer is `Emit` as far as the buffer reaches.
 */
module JsonWriter {
  import opened Bytes
  import opened Options
  import opened JsonText

  const MAX_DEPTH := 8

  datatype Call =
    | ObjBegin | ObjEnd | ArrBegin | ArrEnd
    | Key(key: string)
    | PutStr(s: string) | PutInt(n: int) | PutBool(b: bool) | PutNull | PutBlob(data: seq<byte>)

  /** Where the writer stands: for each open container whether it is still empty, whether a key waits
      for its value, and whether containers were opened too deep or closed once too often. */
  datatype Place = Place(first: seq<bool>, afterKey: bool, bad: bool)

  const START := Place([], false, false)

  /** The comma before a value or key. */
  function Comma(p: Place): string {
    if !p.afterKey && p.first != [] && !p.first[|p.first| - 1] then "," else ""
  }

  function AfterComma(p: Place): Place {
    if p.afterKey then p.(afterKey := false)
    else if p.first == [] then p
    else p.(first := p.first[|p.first| - 1 := false])
  }

  function Opened(p: Place): Place {
    if |p.first| >= MAX_DEPTH then p.(bad := true) else p.(first := p.first + [true])
  }

  /** One call: where the writer stands afterwards and what it adds to the text. */
  function Emit(p: Place, c: Call): (Place, string) {
    match c
    case ObjBegin => (Opened(AfterComma(p)), Comma(p) + "{")
    case ArrBegin => (Opened(AfterComma(p)), Comma(p) + "[")
    case ObjEnd => if p.first == [] then (p.(bad := true), "") else (p.(first := p.first[..|p.first| - 1]), "}")
    case ArrEnd => if p.first == [] then (p.(bad := true), "") else (p.(first := p.first[..|p.first| - 1]), "]")
    case Key(k) => (AfterComma(p).(afterKey := true), Comma(p) + Quoted(k) + ":")
    case PutStr(s) => (AfterComma(p), Comma(p) + Quoted(s))
    case PutInt(n) => (AfterComma(p), Comma(p) + Decimal(n))
    case PutBool(b) => (AfterComma(p), Comma(p) + if b then "true" else "false")
    case PutNull => (AfterComma(p), Comma(p) + "null")
    case PutBlob(data) => (AfterComma(p), Comma(p) + ("\"" + Base64(data) + "\""))
  }

  function Run(p: Place, cs: seq<Call>): (Place, string)
    decreases |cs|
  {
    if cs == [] then (p, "")
    else
      var (q, t) := Emit(p, cs[0]);
      var (r, u) := Run(q, cs[1..]);
      (r, t + u)
  }

  /** What finish returns for a text of `len` characters: its length, if it is whole and fits with its NUL. */
  function Finished(p: Place, len: nat, cap: nat): nat {
    if p.bad || p.first != [] || p.afterKey || len + 1 > cap then 0 else len
  }

  // ----------------------------------------------------------------- documents

  /** The calls that write a document. */
  function Calls(v: Json): seq<Call>
    decreases v, 1
  {
    match v
    case Null => [PutNull]
    case Bool(b) => [PutBool(b)]
    case Int(n) => [PutInt(n)]
    case Str(s) => [PutStr(s)]
    case Blob(data) => [PutBlob(data)]
    case Arr(items) => [ArrBegin] + ItemCalls(items) + [ArrEnd]
    case Obj(members) => [ObjBegin] + MemberCalls(members) + [ObjEnd]
  }

  function ItemCalls(items: seq<Json>): seq<Call>
    decreases items, 0
  {
    if items == [] then [] else Calls(items[0]) + ItemCalls(items[1..])
  }

  function CallsOfMember(m: (string, Json)): seq<Call>
    decreases m, 2
  {
    [Key(m.0)] + Calls(m.1)
  }

  function MemberCalls(members: seq<(string, Json)>): seq<Call>
    decreases members, 0
  {
    if members == [] then [] else CallsOfMember(members[0]) + MemberCalls(members[1..])
  }

  lemma {:induction false} RunAppend(p: Place, a: seq<Call>, b: seq<Call>)
    ensures var (q, t) := Run(p, a);
      var (r, u) := Run(q, b);
      Run(p, a + b) == (r, t + u)
    decreases |a|
  {
    hide Emit;
    if a == [] {
      assert a + b == b && "" + Run(p, b).1 == Run(p, b).1;
    } else {
      var (q, t) := Emit(p, a[0]);
      RunAppend(q, a[1..], b);
      assert (a + b)[1..] == a[1..] + b;
      var u, w := Run(q, a[1..]).1, Run(Run(q, a[1..]).0, b).1;
      assert t + (u + w) == (t + u) + w;
    }
  }

  lemma {:induction false} RunOne(p: Place, c: Call)
    ensures Run(p, [c]) == Emit(p, c)
  {
    hide Emit;
    var (q, t) := Emit(p, c);
    assert Run(q, []) == (q, "");
    assert t + "" == t;
  }

  /** Once the nesting went wrong, it stays wrong. */
  lemma {:induction false} BadStays(p: Place, cs: seq<Call>)
    requires p.bad
    ensures Run(p, cs).0.bad
    decreases |cs|
  {
    hide Quoted, Decimal, Base64, Comma;
    if cs != [] {
      BadStays(Emit(p, cs[0]).0, cs[1..]);
    }
  }

  /** A document inside `depth` open containers comes out as its text, in its place, if it nests no deeper than
      the writer can; otherwise the nesting is flagged. */
  ghost predicate Written(p: Place, cs: seq<Call>, nesting: nat, text: string, q: Place) {
    if |p.first| + nesting <= MAX_DEPTH then Run(p, cs) == (q, text) else Run(p, cs).0.bad
  }

  lemma {:induction false} WrittenThen(p: Place, a: seq<Call>, m: nat, t: string, q: Place, b: seq<Call>, n: nat,
      u: string, r: Place)
    requires Written(p, a, m, t, q) && Written(q, b, n, u, r) && |q.first| == |p.first|
    ensures Written(p, a + b, Max(m, n), t + u, r)
  {
    RunAppend(p, a, b);
    if |p.first| + m > MAX_DEPTH {
      BadStays(Run(p, a).0, b);
    }
  }

  lemma {:induction false} WrittenContainer(p: Place, open: Call, close: Call, cs: seq<Call>, nesting: nat,
      text: string, empty: bool)
    requires !p.bad && |p.first| <= MAX_DEPTH
    requires (open == ArrBegin && close == ArrEnd) || (open == ObjBegin && close == ObjEnd)
    requires |p.first| < MAX_DEPTH ==>
      Written(Opened(AfterComma(p)), cs, nesting, text, AfterComma(p).(first := AfterComma(p).first + [empty]))
    ensures Written(p, [open] + cs + [close], 1 + nesting,
                    Comma(p) + (if open == ArrBegin then "[" else "{") + text + (if open == ArrBegin then "]" else "}"),
                    AfterComma(p))
  {
    var q := Opened(AfterComma(p));
    var r := AfterComma(p).(first := AfterComma(p).first + [empty]);
    RunOne(p, open);
    RunAppend(p, [open], cs);
    RunAppend(p, [open] + cs, [close]);
    if |p.first| + 1 + nesting <= MAX_DEPTH {
      RunOne(r, close);
      assert r.first[..|r.first| - 1] == AfterComma(p).first;
    } else {
      if |p.first| >= MAX_DEPTH {
        BadStays(q, cs);
      }
      BadStays(Run(p, [open] + cs).0, [close]);
    }
  }

  /** One value, in its place: behind a comma if something stands before it. */
  lemma {:induction false} WriteValue(p: Place, v: Json)
    requires !p.bad && |p.first| <= MAX_DEPTH
    ensures Written(p, Calls(v), Nesting(v), Comma(p) + Text(v), AfterComma(p))
    decreases v, 1
  {
    hide Written, Text, Nesting, Calls, AllItems, AllMembers, ItemCalls, MemberCalls;
    match v
    case Arr(items) =>
      var q := Opened(AfterComma(p));
      if |p.first| < MAX_DEPTH {
        WriteItems(q, items);
        assert AfterAll(q, items == []).first == AfterComma(p).first + [items == []];
      }
      WrittenContainer(p, ArrBegin, ArrEnd, ItemCalls(items), NestingOfItems(items), AllItems(true, items),
          items == []);
      ArrParts(items, Comma(p));
    case Obj(members) =>
      var q := Opened(AfterComma(p));
      if |p.first| < MAX_DEPTH {
        WriteMembers(q, members);
        assert AfterAll(q, members == []).first == AfterComma(p).first + [members == []];
      }
      WrittenContainer(p, ObjBegin, ObjEnd, MemberCalls(members), NestingOfMembers(members),
                       AllMembers(true, members), members == []);
      ObjParts(members, Comma(p));
    case _ => WriteScalar(p, v);
  }

  lemma {:induction false} ArrParts(items: seq<Json>, comma: string)
    ensures Calls(Arr(items)) == [ArrBegin] + ItemCalls(items) + [ArrEnd]
    ensures Nesting(Arr(items)) == 1 + NestingOfItems(items)
    ensures comma + "[" + AllItems(true, items) + "]" == comma + Text(Arr(items))
  {
    ArrText(items);
    hide AllItems, Text;
    Bracketed(comma, "[", AllItems(true, items), "]");
  }

  lemma {:induction false} ArrText(items: seq<Json>)
    ensures Text(Arr(items)) == "[" + AllItems(true, items) + "]"
  {
    hide MoreItems;
    if items != [] {
      NoCommaYet(Text(items[0]), MoreItems(items[1..]));
    }
  }

  lemma {:induction false} ObjParts(members: seq<(string, Json)>, comma: string)
    ensures Calls(Obj(members)) == [ObjBegin] + MemberCalls(members) + [ObjEnd]
    ensures Nesting(Obj(members)) == 1 + NestingOfMembers(members)
    ensures comma + "{" + AllMembers(true, members) + "}" == comma + Text(Obj(members))
  {
    ObjText(members);
    hide AllMembers, Text;
    Bracketed(comma, "{", AllMembers(true, members), "}");
  }

  lemma {:induction false} ObjText(members: seq<(string, Json)>)
    ensures Text(Obj(members)) == "{" + AllMembers(true, members) + "}"
  {
    hide MoreMembers, MemberText;
    if members != [] {
      NoCommaYet(MemberText(members[0]), MoreMembers(members[1..]));
    }
  }

  lemma {:induction false} NoCommaYet(first: string, more: string)
    ensures "" + first + more == first + more
  {
    assert "" + first == first;
  }

  lemma {:induction false} Bracketed(comma: string, open: string, inner: string, close: string)
    ensures comma + open + inner + close == comma + (open + inner + close)
  {
  }

  lemma {:induction false} WriteScalar(p: Place, v: Json)
    requires !p.bad && |p.first| <= MAX_DEPTH && !v.Arr? && !v.Obj?
    ensures Written(p, Calls(v), Nesting(v), Comma(p) + Text(v), AfterComma(p))
  {
    hide Quoted, Decimal, Base64, Comma, AfterComma;
    match v
    case Null => RunOne(p, PutNull);
    case Bool(b) => RunOne(p, PutBool(b));
    case Int(n) => RunOne(p, PutInt(n));
    case Str(s) => RunOne(p, PutStr(s));
    case Blob(data) => RunOne(p, PutBlob(data));
  }

  function AllItems(empty: bool, items: seq<Json>): string {
    if items == [] then "" else (if empty then "" else ",") + Text(items[0]) + MoreItems(items[1..])
  }

  function AllMembers(empty: bool, members: seq<(string, Json)>): string {
    if members == [] then "" else (if empty then "" else ",") + MemberText(members[0]) + MoreMembers(members[1..])
  }

  /** Inside a container, after `none` or some of its elements. */
  function AfterAll(p: Place, none: bool): Place {
    if none then p else AfterComma(p)
  }

  lemma {:induction false} WriteItems(p: Place, items: seq<Json>)
    requires !p.bad && 0 < |p.first| <= MAX_DEPTH && !p.afterKey
    ensures Written(p, ItemCalls(items), NestingOfItems(items), AllItems(p.first[|p.first| - 1], items),
                    AfterAll(p, items == []))
    decreases items, 0
  {
    hide Text, Nesting, Emit;
    if items != [] {
      var q := AfterComma(p);
      WriteValue(p, items[0]);
      WriteItems(q, items[1..]);
      assert AllItems(false, items[1..]) == MoreItems(items[1..]);
      assert AfterAll(q, items[1..] == []) == q;
      WrittenThen(p, Calls(items[0]), Nesting(items[0]), Comma(p) + Text(items[0]), q,
                  ItemCalls(items[1..]), NestingOfItems(items[1..]), MoreItems(items[1..]), q);
    }
  }

  lemma {:induction false} BehindKey(p: Place)
    ensures var q := AfterComma(p).(afterKey := true);
      Comma(q) == "" && AfterComma(q) == AfterComma(p) && |q.first| == |p.first| && q.bad == p.bad
  {
  }

  lemma {:induction false} MemberParts(m: (string, Json), comma: string)
    ensures NestingOfMember(m) == Nesting(m.1) && CallsOfMember(m) == [Key(m.0)] + Calls(m.1)
    ensures comma + (Quoted(m.0) + ":") + ("" + Text(m.1)) == comma + MemberText(m)
  {
    hide Quoted, Text;
    assert "" + Text(m.1) == Text(m.1);
    assert comma + (Quoted(m.0) + ":") + Text(m.1) == comma + (Quoted(m.0) + ":" + Text(m.1));
  }

  lemma {:induction false} WriteKeyOnly(p: Place, key: string)
    requires !p.bad && |p.first| <= MAX_DEPTH
    ensures Written(p, [Key(key)], 0, Comma(p) + (Quoted(key) + ":"), AfterComma(p).(afterKey := true))
  {
    hide Emit, Comma, AfterComma, Quoted;
    RunOne(p, Key(key));
    EmitKey(p, key);
  }

  lemma {:induction false} WriteMember(p: Place, m: (string, Json))
    requires !p.bad && |p.first| <= MAX_DEPTH
    ensures Written(p, CallsOfMember(m), NestingOfMember(m), Comma(p) + MemberText(m), AfterComma(p))
    decreases m, 2
  {
    hide Written, CallsOfMember, NestingOfMember, Comma, MemberText, AfterComma, Text, Nesting, Quoted, Calls;
    var q := AfterComma(p).(afterKey := true);
    var key := Comma(p) + (Quoted(m.0) + ":");
    BehindKey(p);
    WriteKeyOnly(p, m.0);
    WriteValue(q, m.1);
    WrittenThen(p, [Key(m.0)], 0, key, q, Calls(m.1), Nesting(m.1), "" + Text(m.1), AfterComma(p));
    MemberParts(m, Comma(p));
  }

  lemma {:induction false} WriteMembers(p: Place, members: seq<(string, Json)>)
    requires !p.bad && 0 < |p.first| <= MAX_DEPTH && !p.afterKey
    ensures Written(p, MemberCalls(members), NestingOfMembers(members), AllMembers(p.first[|p.first| - 1], members),
                    AfterAll(p, members == []))
    decreases members, 0
  {
    hide MemberText, Nesting, Emit;
    if members != [] {
      var q := AfterComma(p);
      WriteMember(p, members[0]);
      WriteMembers(q, members[1..]);
      assert AllMembers(false, members[1..]) == MoreMembers(members[1..]);
      assert AfterAll(q, members[1..] == []) == q;
      WrittenThen(p, CallsOfMember(members[0]), NestingOfMember(members[0]), Comma(p) + MemberText(members[0]), q,
                  MemberCalls(members[1..]), NestingOfMembers(members[1..]), MoreMembers(members[1..]), q);
    }
  }

  /**
   A document written from the start: finish returns the length of its compact text, and 0 exactly if the
   document nests deeper than 8 or its text and the NUL do not fit.
   */
  lemma {:induction false} DocumentWritten(v: Json, cap: nat)
    ensures var (p, t) := Run(START, Calls(v));
      && Finished(p, |t|, cap) == (if Nesting(v) <= MAX_DEPTH && |Text(v)| + 1 <= cap then |Text(v)| else 0)
      && (Nesting(v) <= MAX_DEPTH ==> t == Text(v))
  {
    WriteValue(START, v);
    assert "" + Text(v) == Text(v);
  }

  // ----------------------------------------------------------------- any sequence of calls

  /** Containers opened minus containers closed. */
  function Depth(cs: seq<Call>): int {
    if cs == [] then 0
    else
      var c := cs[|cs| - 1];
      Depth(cs[..|cs| - 1]) + if c.ObjBegin? || c.ArrBegin? then 1 else if c.ObjEnd? || c.ArrEnd? then -1 else 0
  }

  /** The last call that is not a closing one is a key, so that its value is missing. */
  predicate DanglingKey(cs: seq<Call>) {
    if cs == [] then false
    else
      var c := cs[|cs| - 1];
      if c.ObjEnd? || c.ArrEnd? then DanglingKey(cs[..|cs| - 1]) else c.Key?
  }

  predicate DepthInRange(cs: seq<Call>) {
    forall k | 0 <= k <= |cs| :: 0 <= Depth(cs[..k]) <= MAX_DEPTH
  }

  lemma {:induction false} DepthInRangeStep(cs: seq<Call>)
    requires cs != []
    ensures DepthInRange(cs) <==> DepthInRange(cs[..|cs| - 1]) && 0 <= Depth(cs) <= MAX_DEPTH
  {
    hide Depth;
    var n := |cs| - 1;
    assert forall k | 0 <= k <= n :: cs[..n][..k] == cs[..k];
    assert cs[..n + 1] == cs;
    if DepthInRange(cs) {
      forall k | 0 <= k <= n ensures 0 <= Depth(cs[..n][..k]) <= MAX_DEPTH {
        assert cs[..n][..k] == cs[..k];
      }
    }
  }

  /** What one call does to the number of open containers and to a waiting key. */
  lemma {:induction false} PlaceStep(p: Place, c: Call)
    requires |p.first| <= MAX_DEPTH
    ensures var q := Emit(p, c).0;
      var d := |p.first| + if c.ObjBegin? || c.ArrBegin? then 1 else if c.ObjEnd? || c.ArrEnd? then -1 else 0;
      && |q.first| <= MAX_DEPTH
      && q.bad == (p.bad || !(0 <= d <= MAX_DEPTH))
      && (!q.bad ==> |q.first| == d)
      && q.afterKey == if c.ObjEnd? || c.ArrEnd? then p.afterKey else c.Key?
  {
    hide Quoted, Decimal, Base64;
  }

  lemma {:induction false} PlaceOfCalls(cs: seq<Call>)
    ensures var p := Run(START, cs).0;
      && |p.first| <= MAX_DEPTH
      && p.bad == !DepthInRange(cs)
      && (!p.bad ==> |p.first| == Depth(cs))
      && p.afterKey == DanglingKey(cs)
    decreases |cs|
  {
    hide Emit, DepthInRange;
    if cs == [] {
      NoCallsInRange();
    } else {
      var n := |cs| - 1;
      PlaceOfCalls(cs[..n]);
      var p := Run(START, cs[..n]).0;
      RunAppend(START, cs[..n], [cs[n]]);
      RunOne(p, cs[n]);
      assert cs[..n] + [cs[n]] == cs;
      PlaceStep(p, cs[n]);
      DepthInRangeStep(cs);
    }
  }

  lemma {:induction false} NoCallsInRange()
    ensures DepthInRange([])
  {
  }

  /**
   Whatever is called, finish returns the length of the whole text if no container was opened beyond depth 8
   or closed without being open, all are closed, no key waits for its value and the text fits; and 0 otherwise.
   */
  lemma {:induction false} FinishOfCalls(cs: seq<Call>, cap: nat)
    ensures var (p, t) := Run(START, cs);
      Finished(p, |t|, cap) ==
        if DepthInRange(cs) && Depth(cs) == 0 && !DanglingKey(cs) && |t| + 1 <= cap then |t| else 0
  {
    PlaceOfCalls(cs);
  }

  // ----------------------------------------------------------------- the code

  /** The bytes from `i` on. */
  function From(data: seq<byte>, i: nat): seq<byte> {
    if i <= |data| then data[i..] else []
  }

  /** Up to three bytes from `i` on, as four letters. */
  method QuadAt(data: seq<byte>, i: nat) returns (quad: string)
    requires i < |data|
    ensures Base64(From(data, i)) == quad + Base64(From(data, i + 3))
  {
    hide Letter;
    var b0: nat := data[i];
    var b1: nat := if i + 1 < |data| then data[i + 1] else 0;
    var b2: nat := if i + 2 < |data| then data[i + 2] else 0;
    var triple: nat := 0x1_0000 * b0 + 0x100 * b1 + b2;
    quad := [Letter(triple / 0x4_0000 % 64), Letter(triple / 0x1000 % 64),
             if i + 1 < |data| then Letter(triple / 0x40 % 64) else '=',
             if i + 2 < |data| then Letter(triple % 64) else '='];
    ghost var d := data[i..];
    assert triple == NextTriple(d) && quad == Quad(GroupSize(d), NextTriple(d));
    assert d[GroupSize(d)..] == From(data, i + 3);
  }

  lemma {:induction false} EmitKey(p: Place, key: string)
    ensures Emit(p, Key(key)) == (AfterComma(p).(afterKey := true), Comma(p) + (Quoted(key) + ":"))
  {
    assert Comma(p) + Quoted(key) + ":" == Comma(p) + (Quoted(key) + ":");
  }

  lemma {:induction false} EmitStr(p: Place, s: string)
    ensures Emit(p, PutStr(s)) == (AfterComma(p), Comma(p) + Quoted(s))
  {
  }

  lemma {:induction false} EmitBlob(p: Place, data: seq<byte>)
    ensures Emit(p, PutBlob(data)) == (AfterComma(p), Comma(p) + ("\"" + Base64(data) + "\""))
  {
  }

  lemma {:induction false} Quotes(before: string, inner: string)
    ensures before + "\"" + inner + "\"" == before + ("\"" + inner + "\"")
  {
  }

  class Writer {
    const buf: array<char>
    const cap: nat
    var len: nat
    var overflow: bool
    var depth: nat
    const first: array<bool>
    var afterKey: bool

    /** The text of all calls so far, as if the buffer had no end, and whether the nesting went wrong. */
    ghost var text: string
    ghost var bad: bool

    ghost predicate Valid()
      reads this, buf, first
    {
      && first.Length == MAX_DEPTH && depth <= MAX_DEPTH
      && cap <= buf.Length && len <= cap
      && (cap > 0 ==> len < cap && buf[len] == '\0')
      && overflow == (bad || |text| + 1 > cap)
      && (!overflow ==> buf[..len] == text)
      && buf[..len] <= text
    }

    ghost function Where(): Place
      requires depth <= first.Length
      reads this, first
    {
      Place(first[..depth], afterKey, bad)
    }

    /** Only the text below `cap` was written, and it grew by `t`. */
    twostate predicate Appended(t: string)
      requires cap <= buf.Length
      reads this, buf
    {
      text == old(text) + t && buf[cap..] == old(buf[cap..])
    }

    constructor (buf: array<char>, cap: nat)
      requires cap <= buf.Length
      modifies buf
      ensures Valid() && this.buf == buf && this.cap == cap
      ensures Where() == START && text == ""
      ensures fresh(first) && forall i | 0 < i < buf.Length :: buf[i] == old(buf[i])
      ensures cap == 0 ==> buf[..] == old(buf[..])
    {
      this.buf, this.cap, len, overflow, depth, afterKey := buf, cap, 0, false, 0, false;
      first := new bool[MAX_DEPTH];
      text, bad := "", false;
      new;
      if cap > 0 {
        buf[0] := '\0';
      } else {
        overflow := true;
      }
    }

    method PutRaw(s: string)
      requires Valid()
      modifies this`len, this`overflow, this`text, buf
      ensures Valid() && Appended(s)
      ensures overflow ==> len == old(len) && buf[..] == old(buf[..])
      ensures old(overflow) ==> overflow
    {
      ghost var was := buf[..len];
      text := text + s;
      if overflow || len + |s| + 1 > cap {
        overflow := true;
        return;
      }
      forall k | 0 <= k < |s| {
        buf[len + k] := s[k];
      }
      len := len + |s|;
      buf[len] := '\0';
      assert buf[..len] == was + s;
    }

    /** Sets what comes next apart from what stands before it in its container. */
    method Separator()
      requires Valid()
      modifies this`len, this`overflow, this`text, this`afterKey, buf, first
      ensures Valid() && Appended(Comma(old(Where()))) && Where() == AfterComma(old(Where()))
    {
      if afterKey {
        afterKey := false;
        return;
      }
      if depth > 0 {
        if !first[depth - 1] {
          PutRaw(",");
        }
        first[depth - 1] := false;
      }
    }

    method Open(bracket: char)
      requires Valid()
      modifies this, buf, first
      ensures Valid() && Appended(Comma(old(Where())) + [bracket]) && Where() == Opened(AfterComma(old(Where())))
    {
      Separator();
      PutRaw([bracket]);
      if depth >= MAX_DEPTH {
        overflow, bad := true, true;
        return;
      }
      first[depth] := true;
      depth := depth + 1;
    }

    method Close(bracket: char)
      requires Valid()
      modifies this, buf
      ensures Valid()
      ensures Appended(if old(depth) == 0 then "" else [bracket])
      ensures Where() == if old(depth) == 0 then old(Where()).(bad := true)
                         else old(Where()).(first := old(Where()).first[..old(depth) - 1])
    {
      if depth == 0 {
        overflow, bad := true, true;
        return;
      }
      depth := depth - 1;
      PutRaw([bracket]);
    }

    method PutEscapedChar(c: char)
      requires Valid()
      modifies this`len, this`overflow, this`text, buf
      ensures Valid() && Appended(EscapeChar(c))
    {
      hide HexDigit;
      if c == '"' {
        PutRaw("\\\"");
      } else if c == '\\' {
        PutRaw("\\\\");
      } else if c == '\n' {
        PutRaw("\\n");
      } else if c == '\r' {
        PutRaw("\\r");
      } else if c == '\t' {
        PutRaw("\\t");
      } else if c < ' ' {
        PutRaw(['\\', 'u', '0', '0', HexDigit(c as int / 16), HexDigit(c as int % 16)]);
      } else {
        PutRaw([c]);
      }
    }

    /** A quoted string, escaped. C strings end at their NUL, so there is none inside. */
    method PutEscaped(s: string)
      requires Valid() && '\0' !in s
      modifies this`len, this`overflow, this`text, buf
      ensures Valid() && Appended(Quoted(s))
    {
      hide EscapeChar;
      PutRaw("\"");
      for i := 0 to |s|
        invariant Valid() && Appended("\"" + Escape(s[..i]))
      {
        assert s[..i + 1][..i] == s[..i];
        PutEscapedChar(s[i]);
      }
      assert s[..|s|] == s;
      PutRaw("\"");
    }

    /** The effect of one call is what `Emit` says. */
    twostate predicate Did(c: Call)
      requires cap <= buf.Length && depth <= first.Length && old(depth) <= first.Length
      reads this, buf, first
    {
      Where() == Emit(old(Where()), c).0 && Appended(Emit(old(Where()), c).1)
    }

    method BeginObj()
      requires Valid()
      modifies this, buf, first
      ensures Valid() && Did(ObjBegin)
    {
      Open('{');
    }

    method EndObj()
      requires Valid()
      modifies this, buf
      ensures Valid() && Did(ObjEnd)
    {
      Close('}');
    }

    method BeginArr()
      requires Valid()
      modifies this, buf, first
      ensures Valid() && Did(ArrBegin)
    {
      Open('[');
    }

    method EndArr()
      requires Valid()
      modifies this, buf
      ensures Valid() && Did(ArrEnd)
    {
      Close(']');
    }

    method PutKey(key: string)
      requires Valid() && '\0' !in key
      modifies this`len, this`overflow, this`text, buf
      ensures Valid() && Appended(Quoted(key) + ":")
    {
      hide Quoted;
      ghost var before := text;
      PutEscaped(key);
      PutRaw(":");
      assert text == before + (Quoted(key) + ":");
    }

    method WriteKey(key: string)
      requires Valid() && '\0' !in key
      modifies this, buf, first
      ensures Valid() && Did(Key(key))
    {
      hide Emit, Comma, AfterComma, Quoted;
      EmitKey(Where(), key);
      Separator();
      PutKey(key);
      afterKey := true;
    }

    /** A string, or null when there is none. */
    method WriteStr(value: Option<string>)
      requires Valid() && (value.Some? ==> '\0' !in value.value)
      modifies this, buf, first
      ensures Valid() && Did(if value.Some? then PutStr(value.value) else PutNull)
    {
      hide Emit, Comma, AfterComma, Quoted;
      if value == None {
        WriteNull();
        return;
      }
      EmitStr(Where(), value.value);
      Separator();
      PutEscaped(value.value);
    }

    /** A 64-bit integer; 20 characters at most, so the 24-byte scratch buffer never cuts it. */
    method WriteInt(value: int)
      requires Valid() && -0x8000_0000_0000_0000 <= value < 0x8000_0000_0000_0000
      modifies this, buf, first
      ensures Valid() && Did(PutInt(value)) && |Decimal(value)| <= 20
    {
      hide Decimal;
      DecimalFits(value);
      Separator();
      PutRaw(Decimal(value));
    }

    method WriteBool(value: bool)
      requires Valid()
      modifies this, buf, first
      ensures Valid() && Did(PutBool(value))
    {
      Separator();
      PutRaw(if value then "true" else "false");
    }

    method WriteNull()
      requires Valid()
      modifies this, buf, first
      ensures Valid() && Did(PutNull)
    {
      Separator();
      PutRaw("null");
    }

    method PutBase64(data: seq<byte>)
      requires Valid()
      modifies this`len, this`overflow, this`text, buf
      ensures Valid() && Appended(Base64(data))
    {
      hide Base64;
      var i := 0;
      ghost var done := "";
      while i < |data|
        invariant Valid() && Appended(done)
        invariant done + Base64(From(data, i)) == Base64(data)
      {
        var quad := QuadAt(data, i);
        PutRaw(quad);
        ghost var rest := Base64(From(data, i + 3));
        assert done + (quad + rest) == (done + quad) + rest;
        done := done + quad;
        i := i + 3;
      }
      NothingReadBack();
      assert done == Base64(data);
    }

    method PutQuotedBase64(data: seq<byte>)
      requires Valid()
      modifies this`len, this`overflow, this`text, buf
      ensures Valid() && Appended("\"" + Base64(data) + "\"")
    {
      hide Base64;
      ghost var before := text;
      PutRaw("\"");
      PutBase64(data);
      PutRaw("\"");
      Quotes(before, Base64(data));
    }

    method WriteBase64(data: seq<byte>)
      requires Valid()
      modifies this, buf, first
      ensures Valid() && Did(PutBlob(data))
    {
      hide Emit, Comma, AfterComma, Base64;
      EmitBlob(Where(), data);
      Separator();
      PutQuotedBase64(data);
    }

    /** The length of the finished document, or 0. */
    method Finish() returns (n: nat)
      requires Valid()
      ensures n == Finished(Where(), |text|, cap)
      ensures n > 0 ==> buf[..n] == text && buf[n] == '\0'
    {
      n := if overflow || depth != 0 || afterKey then 0 else len;
    }
  }

  /** Calls that C can make: strings end at their first NUL, integers have 64 bits. */
  predicate Callable(c: Call) {
    match c
    case Key(k) => '\0' !in k
    case PutStr(t) => '\0' !in t
    case PutInt(n) => -0x8000_0000_0000_0000 <= n < 0x8000_0000_0000_0000
    case _ => true
  }

  method Perform(w: Writer, c: Call)
    requires w.Valid() && Callable(c)
    modifies w, w.buf, w.first
    ensures w.Valid() && w.Did(c)
  {
    hide Emit;
    match c
    case ObjBegin => w.BeginObj();
    case ObjEnd => w.EndObj();
    case ArrBegin => w.BeginArr();
    case ArrEnd => w.EndArr();
    case Key(k) => w.WriteKey(k);
    case PutStr(t) => w.WriteStr(Some(t));
    case PutInt(n) => w.WriteInt(n);
    case PutBool(b) => w.WriteBool(b);
    case PutNull => w.WriteNull();
    case PutBlob(data) => w.WriteBase64(data);
  }

  lemma {:induction false} RunOneMore(p: Place, cs: seq<Call>, i: nat)
    requires i < |cs|
    ensures var (q, t) := Run(p, cs[..i]);
      Run(p, cs[..i + 1]) == (Emit(q, cs[i]).0, t + Emit(q, cs[i]).1)
  {
    hide Emit;
    assert cs[..i + 1] == cs[..i] + [cs[i]];
    RunAppend(p, cs[..i], [cs[i]]);
    RunOne(Run(p, cs[..i]).0, cs[i]);
  }

  method PerformAll(w: Writer, cs: seq<Call>)
    requires w.Valid() && w.Where() == START && w.text == "" && forall c | c in cs :: Callable(c)
    modifies w, w.buf, w.first
    ensures w.Valid() && (w.Where(), w.text) == Run(START, cs) && w.buf[w.cap..] == old(w.buf[w.cap..])
  {
    hide Emit, Run;
    RunNone(START);
    for i := 0 to |cs|
      invariant w.Valid() && (w.Where(), w.text) == Run(START, cs[..i])
      invariant w.buf[w.cap..] == old(w.buf[w.cap..])
    {
      assert cs[i] in cs;
      RunOneMore(START, cs, i);
      Perform(w, cs[i]);
    }
    assert cs[..|cs|] == cs;
  }

  lemma {:induction false} RunNone(p: Place)
    ensures Run(p, []) == (p, "")
  {
  }

  /** Drives a writer with the calls of a document and finishes it. */
  method WriteDocument(v: Json, buf: array<char>, cap: nat) returns (n: nat)
    requires cap <= buf.Length && forall c | c in Calls(v) :: Callable(c)
    modifies buf
    ensures n == if Nesting(v) <= MAX_DEPTH && |Text(v)| + 1 <= cap then |Text(v)| else 0
    ensures n > 0 ==> buf[..n] == Text(v) && buf[n] == '\0'
    ensures buf[cap..] == old(buf[cap..])
  {
    hide Emit, Run, Calls, Text, Nesting;
    var w := new Writer(buf, cap);
    PerformAll(w, Calls(v));
    DocumentWritten(v, cap);
    n := w.Finish();
  }

  lemma {:induction false} DecimalFits(value: int)
    requires -0x8000_0000_0000_0000 <= value < 0x8000_0000_0000_0000
    ensures |Decimal(value)| <= 20
  {
    assert Pow10(2) == 100 && Pow10(4) == 10000 && Pow10(6) == 1000000 && Pow10(8) == 100000000;
    assert Pow10(10) == 10000000000 && Pow10(12) == 1000000000000 && Pow10(14) == 100000000000000;
    assert Pow10(16) == 10000000000000000 && Pow10(18) == 1000000000000000000;
    assert Pow10(19) == 10000000000000000000;
    DigitsFit(if value < 0 then -value else value, 19);
  }
}
