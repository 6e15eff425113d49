/**
 Copying the controller's log: pieces of text are put together to lines in a small buffer, and finished lines
 go into a ring that drops the oldest when it is full.
 */
module LogCapture {
  import opened Options
  import Seqs

  const LINE_BUF := 192
  const NL := '\n'

  // ----------------------------------------------------------------- cutting text at newlines

  function Newline(t: string): (i: nat)
    ensures i <= |t| && (i < |t| ==> t[i] == NL) && forall k | 0 <= k < i :: t[k] != NL
  {
    if t == "" then 0 else if t[0] == NL then 0 else Newline(t[1..]) + 1
  }

  /** The finished lines of a text, and what is left after the last newline. */
  function Lines(t: string): seq<string>
    decreases |t|
  {
    var i := Newline(t);
    if i == |t| then [] else [t[..i]] + Lines(t[i + 1..])
  }

  function Rest(t: string): (r: string)
    ensures |r| <= |t| && forall k | 0 <= k < |r| :: r[k] != NL
    decreases |t|
  {
    var i := Newline(t);
    if i == |t| then t else Rest(t[i + 1..])
  }

  predicate NoNewline(t: string) {
    forall k | 0 <= k < |t| :: t[k] != NL
  }

  /** The text that lines and a rest are cut from. */
  function Joined(lines: seq<string>, rest: string): string {
    if lines == [] then rest else lines[0] + [NL] + Joined(lines[1..], rest)
  }

  lemma {:induction false} CutAndJoined(t: string)
    ensures Joined(Lines(t), Rest(t)) == t
    ensures forall k | 0 <= k < |Lines(t)| :: NoNewline(Lines(t)[k])
    decreases |t|
  {
    var i := Newline(t);
    if i < |t| {
      var line, more := t[..i], t[i + 1..];
      assert t == line + [NL] + more;
      CutAndJoined(more);
      FirstLine(line, more);
      hide Lines, Rest;
      assert Lines(t)[1..] == Lines(more);
      assert forall k | 1 <= k < |Lines(t)| :: Lines(t)[k] == Lines(more)[k - 1];
    }
  }

  lemma {:induction false} NewlineAt(a: string, b: string)
    requires NoNewline(a)
    ensures Newline(a + [NL] + b) == |a| && Newline(a) == |a|
  {
    var t := a + [NL] + b;
    assert t[|a|] == NL && forall k | 0 <= k < |a| :: t[k] == a[k];
  }

  lemma {:induction false} FirstLine(a: string, b: string)
    requires NoNewline(a)
    ensures Lines(a + [NL] + b) == [a] + Lines(b) && Rest(a + [NL] + b) == Rest(b)
  {
    NewlineAt(a, b);
    assert (a + [NL] + b)[..|a|] == a && (a + [NL] + b)[|a| + 1..] == b;
  }

  /** And the only lines and rest it can be cut into. */
  lemma {:induction false} CutIsUnique(lines: seq<string>, rest: string)
    requires NoNewline(rest) && forall k | 0 <= k < |lines| :: NoNewline(lines[k])
    ensures Lines(Joined(lines, rest)) == lines && Rest(Joined(lines, rest)) == rest
  {
    if lines == [] {
      NewlineAt(rest, "");
    } else {
      var t := Joined(lines, rest);
      NewlineAt(lines[0], Joined(lines[1..], rest));
      CutIsUnique(lines[1..], rest);
      assert t[..|lines[0]|] == lines[0] && t[|lines[0]| + 1..] == Joined(lines[1..], rest);
      assert lines == [lines[0]] + lines[1..];
    }
  }

  /** Text may be cut before its end is there. */
  lemma {:induction false} CutInParts(a: string, b: string)
    ensures Lines(a + b) == Lines(a) + Lines(Rest(a) + b)
    ensures Rest(a + b) == Rest(Rest(a) + b)
    decreases |a|
  {
    var i := Newline(a);
    if i == |a| {
      Seqs.Empty(Lines(a + b));
    } else {
      var line, more := a[..i], a[i + 1..];
      assert a == line + [NL] + more && a + b == line + [NL] + (more + b);
      hide Lines, Rest;
      CutInParts(more, b);
      FirstLine(line, more);
      FirstLine(line, more + b);
      Seqs.Assoc([line], Lines(more), Lines(Rest(more) + b));
    }
  }

  // ----------------------------------------------------------------- one piece

  function Min(a: nat, b: nat): nat { if a < b then a else b }

  /** What the buffer holds of pending text and a new piece: 191 characters at most. */
  function Held(pending: string, piece: string): string {
    (pending + piece)[..Min(|pending + piece|, LINE_BUF - 1)]
  }

  /** The lines that a piece finishes and the text then pending. A full buffer without a newline becomes a line. */
  function Feed(pending: string, piece: string): (seq<string>, string) {
    var t := Held(pending, piece);
    if |t| == LINE_BUF - 1 && NoNewline(t) then ([t], "") else (Lines(t), Rest(t))
  }

  lemma {:induction false} FeedLeavesRoom(pending: string, piece: string)
    ensures |Feed(pending, piece).1| < 191 && NoNewline(Feed(pending, piece).1)
  {
    var t := Held(pending, piece);
    CutAndJoined(t);
    if Lines(t) != [] {
      RestShorter(t);
    }
  }

  lemma {:induction false} RestShorter(t: string)
    requires Newline(t) < |t|
    ensures |Rest(t)| < |t|
  {
  }

  /**
   A piece is cut as if the buffer had no end exactly if everything fits in 190 characters, or in 191 with a
   newline among them, or is 191 characters and then the newline that ends them.
   */
  lemma {:induction false} FeedIsCutting(pending: string, piece: string)
    ensures var t := pending + piece;
      Feed(pending, piece) == (Lines(t), Rest(t)) <==>
        || |t| < LINE_BUF - 1
        || (|t| == LINE_BUF - 1 && !NoNewline(t))
        || (|t| == LINE_BUF && NoNewline(t[..LINE_BUF - 1]) && t[LINE_BUF - 1] == NL)
  {
    var t, u := pending + piece, Held(pending, piece);
    hide Lines, Rest, Joined;
    CutAndJoined(t);
    CutAndJoined(u);
    if |t| < LINE_BUF {
      assert u == t;
      OneLineIf(t);
    } else {
      assert u == t[..LINE_BUF - 1] && u != t;
      if NoNewline(u) {
        OneLine(u);
        assert |t| == LINE_BUF && t[LINE_BUF - 1] == NL ==> t == u + [NL];
      }
    }
  }

  /** What is cut otherwise: the text beyond 191 characters is lost, and a full buffer without a newline is a line. */
  lemma {:induction false} FeedLoses(pending: string, piece: string)
    ensures var t := pending + piece;
      && (|t| > 191 ==> Feed(pending, piece) == Feed("", t[..191]))
      && (|t| == 191 && NoNewline(t) ==> Feed(pending, piece) == ([t], ""))
  {
    var t := pending + piece;
    if |t| > 191 {
      Seqs.Empty(t[..191]);
      assert t[..191][..191] == t[..191];
      assert Held("", t[..191]) == Held(pending, piece);
    } else {
      assert t[..|t|] == t;
    }
    hide Lines, Rest;
  }

  lemma {:induction false} OneLineIf(u: string)
    requires |u| < LINE_BUF
    ensures NoNewline(u) && u != "" ==> ([u], "") != (Lines(u), Rest(u))
  {
    if NoNewline(u) {
      OneLine(u);
    }
  }

  lemma {:induction false} OneLine(u: string)
    requires NoNewline(u)
    ensures Joined([u], "") == u + [NL]
    ensures Lines(u + [NL]) == [u] && Rest(u + [NL]) == ""
    ensures u != "" ==> Lines(u) == [] && Rest(u) == u
  {
    assert [u][1..] == [] && u + [NL] + "" == u + [NL];
    CutIsUnique([u], "");
    NewlineAt(u, "");
  }

  // ----------------------------------------------------------------- all pieces

  function FeedAll(ps: seq<string>): (seq<string>, string) {
    if ps == [] then ([], "")
    else
      var (lines, rest) := FeedAll(ps[..|ps| - 1]);
      var (more, pending) := Feed(rest, ps[|ps| - 1]);
      (lines + more, pending)
  }

  function Concat(ps: seq<string>): string {
    if ps == [] then "" else Concat(ps[..|ps| - 1]) + ps[|ps| - 1]
  }

  /** At every piece, what is pending and the piece come to at most 190 characters. */
  predicate Fits(ps: seq<string>) {
    ps == [] || (Fits(ps[..|ps| - 1]) && |FeedAll(ps[..|ps| - 1]).1| + |ps[|ps| - 1]| < LINE_BUF - 1)
  }

  /** Then the lines do not depend on how the text was cut into pieces: they are those of the whole text. */
  lemma {:induction false} PiecesDoNotMatter(ps: seq<string>)
    requires Fits(ps)
    ensures FeedAll(ps) == (Lines(Concat(ps)), Rest(Concat(ps)))
  {
    if ps != [] {
      var front, p := ps[..|ps| - 1], ps[|ps| - 1];
      PiecesDoNotMatter(front);
      FeedIsCutting(Rest(Concat(front)), p);
      CutInParts(Concat(front), p);
    } else {
      assert Lines("") == [] && Rest("") == "";
    }
  }

  lemma {:induction false} FeedMore(ps: seq<string>, p: string)
    ensures FeedAll(ps + [p]) == (FeedAll(ps).0 + Feed(FeedAll(ps).1, p).0, Feed(FeedAll(ps).1, p).1)
  {
    assert (ps + [p])[..|ps|] == ps;
  }

  lemma {:induction false} FeedFirst(p: string)
    ensures FeedAll([p]) == Feed("", p)
  {
    FeedMore([], p);
    assert [] + [p] == [p] && [] + Feed("", p).0 == Feed("", p).0;
  }

  lemma {:induction false} FeedFull(line: string, more: string)
    requires |line| == LINE_BUF - 1 && NoNewline(line)
    ensures Feed("", line + more) == ([line], "")
  {
    assert "" + (line + more) == line + more && (line + more)[..LINE_BUF - 1] == line;
    assert Held("", line + more) == line;
  }

  /** Beyond that they do: a full line that is cut before its newline is followed by an empty one. */
  lemma {:induction false} CutBeforeNewline(line: string)
    requires |line| == LINE_BUF - 1 && NoNewline(line)
    ensures FeedAll([line, [NL]]) == ([line, ""], "") && FeedAll([line + [NL]]) == ([line], "")
  {
    FeedFull(line, [NL]);
    FeedFull(line, "");
    FeedFirst(line + [NL]);
    FeedFirst(line);
    FeedMore([line], [NL]);
    FeedIsCutting("", [NL]);
    OneLine("");
    hide Feed, FeedAll, Lines, Rest, Held;
    Seqs.Empty(line);
    Seqs.Empty([NL]);
    assert [line] + [[NL]] == [line, [NL]] && [line] + [""] == [line, ""];
  }

  // ----------------------------------------------------------------- the ring

  datatype Line = Line(tag: string, text: string)

  /** The lines held, oldest first, and the record of all lines put in, taken out and overwritten. */
  datatype Ring = Ring(held: seq<Line>, put: seq<Line>, taken: seq<Line>, overwritten: nat)

  const NEW_RING := Ring([], [], [], 0)

  function Put(r: Ring, line: Line, cap: nat): Ring
    requires cap > 0
  {
    var full := |r.held| >= cap;
    Ring((if full then r.held[1..] else r.held) + [line], r.put + [line], r.taken,
         r.overwritten + if full then 1 else 0)
  }

  function Take(r: Ring, max: nat): Ring {
    var n := Min(|r.held|, max);
    Ring(r.held[n..], r.put, r.taken + r.held[..n], r.overwritten)
  }

  /** A text is put in if it parses as a line whose tag is not skipped. */
  function StoreText(r: Ring, text: string, cap: nat, parse: string -> Option<Line>): Ring
    requires cap > 0
  {
    if parse(text).Some? then Put(r, parse(text).value, cap) else r
  }

  function StoreAll(r: Ring, texts: seq<string>, cap: nat, parse: string -> Option<Line>): Ring
    requires cap > 0
    decreases |texts|
  {
    if texts == [] then r else StoreAll(StoreText(r, texts[0], cap, parse), texts[1..], cap, parse)
  }

  lemma {:induction false} StoreMore(r: Ring, a: seq<string>, b: seq<string>, cap: nat, parse: string -> Option<Line>)
    requires cap > 0
    ensures StoreAll(r, a + b, cap, parse) == StoreAll(StoreAll(r, a, cap, parse), b, cap, parse)
    decreases |a|
  {
    if a == [] {
      assert a + b == b;
    } else {
      assert (a + b)[1..] == a[1..] + b;
      StoreMore(StoreText(r, a[0], cap, parse), a[1..], b, cap, parse);
    }
  }

  /** The lines that the texts parse to, in their order. */
  function Parsed(texts: seq<string>, parse: string -> Option<Line>): seq<Line> {
    if texts == [] then []
    else
      var line := parse(texts[|texts| - 1]);
      Parsed(texts[..|texts| - 1], parse) + if line.Some? then [line.value] else []
  }

  /** All of them are put in, and none is taken out. */
  lemma {:induction false} AllParsedStored(r: Ring, texts: seq<string>, cap: nat, parse: string -> Option<Line>)
    requires cap > 0
    ensures var t := StoreAll(r, texts, cap, parse);
      t.put == r.put + Parsed(texts, parse) && t.taken == r.taken
  {
    if texts == [] {
      Seqs.Empty(r.put);
    } else {
      var n := |texts| - 1;
      var last := texts[n];
      assert texts == texts[..n] + [last];
      AllParsedStored(r, texts[..n], cap, parse);
      StoreMore(r, texts[..n], [last], cap, parse);
      StoreFew(StoreAll(r, texts[..n], cap, parse), last, cap, parse);
      hide StoreAll;
      Seqs.Empty(Parsed(texts[..n], parse));
    }
  }

  /** Ring and pending text after all pieces of a log. */
  function CopyAll(ps: seq<string>, cap: nat, parse: string -> Option<Line>): (Ring, string)
    requires cap > 0
  {
    if ps == [] then (NEW_RING, "")
    else
      var (r, pending) := CopyAll(ps[..|ps| - 1], cap, parse);
      var (lines, rest) := Feed(pending, ps[|ps| - 1]);
      (StoreAll(r, lines, cap, parse), rest)
  }

  lemma {:induction false} CopiedInTurn(ps: seq<string>, cap: nat, parse: string -> Option<Line>)
    requires cap > 0
    ensures CopyAll(ps, cap, parse) == (StoreAll(NEW_RING, FeedAll(ps).0, cap, parse), FeedAll(ps).1)
  {
    if ps != [] {
      var n := |ps| - 1;
      CopiedInTurn(ps[..n], cap, parse);
      StoreMore(NEW_RING, FeedAll(ps[..n]).0, Feed(FeedAll(ps[..n]).1, ps[n]).0, cap, parse);
      hide StoreAll, Feed;
    }
  }

  /** While every piece fits, what is put in are the lines of the whole log that parse, however it was cut. */
  lemma {:induction false} LogIsStored(ps: seq<string>, cap: nat, parse: string -> Option<Line>)
    requires cap > 0 && Fits(ps)
    ensures var (r, pending) := CopyAll(ps, cap, parse);
      r.put == Parsed(Lines(Concat(ps)), parse) && pending == Rest(Concat(ps))
  {
    CopiedInTurn(ps, cap, parse);
    PiecesDoNotMatter(ps);
    AllParsedStored(NEW_RING, FeedAll(ps).0, cap, parse);
    Seqs.Empty(Parsed(FeedAll(ps).0, parse));
    hide StoreAll, FeedAll, Fits, CopyAll, Lines, Rest;
  }

  datatype Op = PutOne(line: Line) | TakeUpTo(max: nat)

  function After(ops: seq<Op>, cap: nat): Ring
    requires cap > 0
  {
    if ops == [] then NEW_RING
    else
      var r := After(ops[..|ops| - 1], cap);
      match ops[|ops| - 1]
      case PutOne(line) => Put(r, line, cap)
      case TakeUpTo(max) => Take(r, max)
  }

  /** The number of lines gone: taken or overwritten. */
  function Gone(r: Ring): nat {
    |r.taken| + r.overwritten
  }

  /** The ring holds the newest lines, at most `cap`, and every line is accounted for. */
  predicate Balanced(r: Ring, cap: nat) {
    |r.held| <= cap && |r.put| == |r.taken| + |r.held| + r.overwritten && r.held == r.put[Gone(r)..]
  }

  lemma {:induction false} PutBalanced(r: Ring, line: Line, cap: nat)
    requires cap > 0 && Balanced(r, cap)
    ensures Balanced(Put(r, line, cap), cap)
  {
    var all := r.put + [line];
    assert all[Gone(r)..] == r.held + [line];
    if |r.held| == cap {
      assert all[Gone(r) + 1..] == r.held[1..] + [line];
    }
  }

  lemma {:induction false} TakeBalanced(r: Ring, max: nat, cap: nat)
    requires Balanced(r, cap)
    ensures Balanced(Take(r, max), cap)
  {
    var n := Min(|r.held|, max);
    assert r.put[Gone(r)..][n..] == r.put[Gone(r) + n..];
  }

  /**
   Whatever is put and taken: the ring holds the newest lines in the order they were put in, at most as many as it
   has room for, and every line put in was taken, is still held, or was overwritten.
   */
  lemma {:induction false} LinesConserved(ops: seq<Op>, cap: nat)
    requires cap > 0
    ensures var r := After(ops, cap);
      |r.held| <= cap && |r.put| == |r.taken| + |r.held| + r.overwritten && r.held == r.put[Gone(r)..]
  {
    if ops != [] {
      LinesConserved(ops[..|ops| - 1], cap);
      var r := After(ops[..|ops| - 1], cap);
      hide Put, Take;
      match ops[|ops| - 1]
      case PutOne(line) => PutBalanced(r, line, cap);
      case TakeUpTo(max) => TakeBalanced(r, max, cap);
    }
  }

  /** A take hands out the next lines in the order they were put in, skipping none but those overwritten. */
  lemma {:induction false} TakenInOrder(ops: seq<Op>, cap: nat, max: nat)
    requires cap > 0
    ensures var r, t := After(ops, cap), After(ops + [TakeUpTo(max)], cap);
      && |r.taken| <= |t.taken| && Gone(t) <= |r.put|
      && t.taken == r.taken + r.put[Gone(r)..Gone(t)]
      && (|t.taken| - |r.taken| == max || t.held == [])
  {
    var more := ops + [TakeUpTo(max)];
    assert more[..|ops|] == ops;
    LinesConserved(ops, cap);
    var r := After(ops, cap);
    var n := Min(|r.held|, max);
    assert r.put[Gone(r)..][..n] == r.put[Gone(r)..Gone(r) + n];
  }

  /** A line put in is the newest, and another is overwritten only when there is no room. */
  lemma {:induction false} PutIsHeld(ops: seq<Op>, cap: nat, line: Line)
    requires cap > 0
    ensures var r, t := After(ops, cap), After(ops + [PutOne(line)], cap);
      && t.put == r.put + [line] && t.taken == r.taken
      && |t.held| == (if |r.held| == cap then cap else |r.held| + 1) && t.held[|t.held| - 1] == line
  {
    assert (ops + [PutOne(line)])[..|ops|] == ops;
    LinesConserved(ops, cap);
    hide After;
  }

  // ----------------------------------------------------------------- the buffers

  /** `(head + i) % cap` for indices within the ring. */
  function Place(head: nat, i: nat, cap: nat): (p: nat)
    requires cap > 0
    ensures p < cap
  {
    (head + i) % cap
  }

  lemma {:induction false} PlaceWraps(head: nat, i: nat, cap: nat)
    requires head < cap && i <= cap
    ensures Place(head, i, cap) == if head + i < cap then head + i else head + i - cap
  {
    var sum := head + i;
    if sum < cap {
      Small(sum, cap);
    } else {
      Wrap(sum - cap, cap);
    }
  }

  lemma {:induction false} Small(a: nat, cap: nat)
    requires a < cap
    ensures a % cap == a
  {
  }

  lemma {:induction false} Wrap(a: nat, cap: nat)
    requires a < cap
    ensures (a + cap) % cap == a
  {
  }

  /** The lines lie in the slots from `head` on, around the end. */
  ghost predicate Laid(held: seq<Line>, s: seq<Line>, head: nat) {
    |held| <= |s| && head < |s| && forall i | 0 <= i < |held| :: held[i] == s[Place(head, i, |s|)]
  }

  lemma {:induction false} LaidDrop(held: seq<Line>, s: seq<Line>, head: nat)
    requires Laid(held, s, head) && held != []
    ensures Laid(held[1..], s, Place(head, 1, |s|)) && held[0] == s[head]
  {
    hide Place;
    var next := Place(head, 1, |s|);
    PlaceWraps(head, 0, |s|);
    PlaceWraps(head, 1, |s|);
    forall i | 0 <= i < |held| - 1 ensures held[1..][i] == s[Place(next, i, |s|)] {
      PlaceWraps(next, i, |s|);
      PlaceWraps(head, i + 1, |s|);
    }
  }

  lemma {:induction false} LaidAppend(held: seq<Line>, s: seq<Line>, head: nat, line: Line)
    requires Laid(held, s, head) && |held| < |s|
    ensures Place(head, |held|, |s|) < |s| && Laid(held + [line], s[Place(head, |held|, |s|) := line], head)
  {
    hide Place;
    PlaceWraps(head, |held|, |s|);
    forall i | 0 <= i < |held| ensures Place(head, i, |s|) < |s| && Place(head, i, |s|) != Place(head, |held|, |s|) {
      PlaceWraps(head, i, |s|);
    }
  }

  lemma {:induction false} FirstAt(t: string, i: nat)
    requires i <= |t| && (i < |t| ==> t[i] == NL) && forall k | 0 <= k < i :: t[k] != NL
    ensures Newline(t) == i
  {
  }

  lemma {:induction false} StoreFew(r: Ring, text: string, cap: nat, parse: string -> Option<Line>)
    requires cap > 0
    ensures StoreAll(r, [], cap, parse) == r
    ensures StoreAll(r, [text], cap, parse) == StoreText(r, text, cap, parse)
  {
    assert [text][1..] == [];
  }

  /** The line that ends at `nl` taken off what is left of the text. */
  lemma {:induction false} LineOff(t: string, start: nat, nl: nat)
    requires start <= nl < |t| && nl == start + Newline(t[start..])
    ensures Lines(t[start..]) == [t[start..nl]] + Lines(t[nl + 1..]) && Rest(t[start..]) == Rest(t[nl + 1..])
    ensures |Rest(t[start..])| < |t|
  {
    var u := t[start..];
    assert u[..nl - start] == t[start..nl] && u[nl - start + 1..] == t[nl + 1..];
  }

  lemma {:induction false} NoneLeft(t: string)
    requires Newline(t) == |t| || NoNewline(t)
    ensures Lines(t) == [] && Rest(t) == t && NoNewline(t)
  {
  }

  class Capture {
    const parse: string -> Option<Line>
    const slots: array<Line>
    const buf: array<char>
    var head: nat
    var count: nat
    var len: nat
    var dropped: nat
    ghost var ring: Ring

    ghost predicate Valid()
      reads this, slots, buf
    {
      && slots.Length > 0 && buf.Length == LINE_BUF && len < LINE_BUF - 1
      && |ring.held| == count && Laid(ring.held, slots[..], head)
    }

    /** The text of a line that is not finished yet. */
    function Pending(): string
      requires len <= buf.Length
      reads this, buf
    {
      buf[..len]
    }

    constructor (lines: nat, filter: string -> Option<Line>)
      requires lines > 0
      ensures Valid() && Pending() == "" && ring == NEW_RING && dropped == 0 && parse == filter && slots.Length == lines
      ensures fresh(slots) && fresh(buf)
    {
      parse := filter;
      slots := new Line[lines](i => Line("", ""));
      buf := new char[LINE_BUF](i => ' ');
      head, count, len, dropped, ring := 0, 0, 0, 0, NEW_RING;
    }

    /** Behind the lines held, where there is room. */
    method Lay(line: Line, ghost held: seq<Line>)
      requires Laid(held, slots[..], head) && |held| == count < slots.Length
      modifies this`count, slots
      ensures Laid(held + [line], slots[..], head) && count == old(count) + 1
    {
      hide Laid;
      LaidAppend(held, slots[..], head, line);
      ghost var before := slots[..];
      slots[(head + count) % slots.Length] := line;
      assert slots[..] == before[Place(head, count, slots.Length) := line];
      count := count + 1;
    }

    method Store(text: string)
      requires Valid()
      modifies this`head, this`count, this`dropped, this`ring, slots
      ensures Valid() && ring == StoreText(old(ring), text, slots.Length, parse)
      ensures dropped - old(dropped) == ring.overwritten - old(ring.overwritten)
    {
      var line := parse(text);
      if line.None? {
        return;
      }
      hide Laid;
      Room();
      ghost var held := ring.held;
      ring := Put(ring, line.value, slots.Length);
      if count == slots.Length {
        LaidDrop(held, slots[..], head);
        held := held[1..];
        head := (head + 1) % slots.Length;
        count := count - 1;
        dropped := dropped + 1;
      }
      Lay(line.value, held);
    }

    lemma {:induction false} Room()
      requires Valid()
      ensures count <= slots.Length && head < slots.Length
    {
    }

    /** Up to `max` lines, oldest first. */
    method TakeLines(max: nat) returns (out: seq<Line>)
      requires Valid()
      modifies this`head, this`count, this`ring
      ensures Valid() && ring == Take(old(ring), max) && ring.taken == old(ring.taken) + out
    {
      hide Laid;
      ghost var r := ring;
      out := [];
      while |out| < max && count > 0
        invariant Valid() && |out| <= max && |out| + count == |r.held|
        invariant out == r.held[..|out|] && ring.held == r.held[|out|..]
        invariant ring == Ring(ring.held, r.put, r.taken, r.overwritten)
        decreases count
      {
        Room();
        LaidDrop(ring.held, slots[..], head);
        out := out + [slots[head]];
        ring := ring.(held := ring.held[1..]);
        head := (head + 1) % slots.Length;
        count := count - 1;
      }
      ring := ring.(taken := r.taken + out);
    }

    method FindNewline(start: nat, end: nat) returns (i: nat)
      requires start <= end <= buf.Length
      ensures i == start + Newline(buf[start..end]) && start <= i <= end
    {
      i := start;
      while i < end && buf[i] != NL
        invariant start <= i <= end && forall k | start <= k < i :: buf[k] != NL
      {
        i := i + 1;
      }
      FirstAt(buf[start..end], i - start);
    }

    /** The piece behind the pending text, as far as there is room; `size` is the length of both. */
    method Append(piece: string) returns (size: nat)
      requires buf.Length == LINE_BUF && len < LINE_BUF - 1
      modifies buf
      ensures size < LINE_BUF && buf[..size] == Held(old(Pending()), piece)
    {
      var room := LINE_BUF - len;
      var n := if |piece| < room then |piece| else room - 1;
      ghost var pending := Pending();
      var k := 0;
      while k < n
        invariant 0 <= k <= n && buf[..len + k] == pending + piece[..k]
      {
        buf[len + k] := piece[k];
        k := k + 1;
      }
      size := len + n;
      assert pending + piece[..n] == (pending + piece)[..size];
    }

    method MoveDown(start: nat, rest: nat)
      requires start + rest <= buf.Length
      modifies buf
      ensures buf[..rest] == old(buf[start..start + rest])
    {
      ghost var was := buf[..];
      var j := 0;
      while j < rest
        invariant 0 <= j <= rest
        invariant forall k | 0 <= k < j :: buf[k] == was[start + k]
        invariant forall k | j <= k < buf.Length :: buf[k] == was[k]
      {
        buf[j] := buf[start + j];
        j := j + 1;
      }
    }

    /** Stores every finished line of the first `size` characters; what is left of them begins at `start`. */
    method StoreLines(size: nat) returns (start: nat)
      requires Valid() && size < LINE_BUF
      modifies this`head, this`count, this`dropped, this`ring, slots
      ensures Valid() && start <= size
      ensures var t := buf[..size];
        && ring == StoreAll(old(ring), Lines(t), slots.Length, parse)
        && Rest(t) == t[start..]
        && (start == 0 ==> NoNewline(t) && Lines(t) == [])
        && (start > 0 ==> |Rest(t)| < |t|)
      ensures dropped - old(dropped) == ring.overwritten - old(ring.overwritten)
    {
      hide Laid, Lines, Rest, StoreAll, StoreText, Place;
      ghost var t, r := buf[..size], ring;
      ghost var done: seq<string> := [];
      StoreFew(r, "", slots.Length, parse);
      start := 0;
      var nl := FindNewline(start, size);
      Seqs.Empty(Lines(t));
      assert t[0..] == t;
      while nl < size
        invariant Valid() && start <= nl <= size && nl == start + Newline(t[start..])
        invariant ring == StoreAll(r, done, slots.Length, parse)
        invariant Lines(t) == done + Lines(t[start..]) && Rest(t) == Rest(t[start..])
        invariant if start > 0 then |Rest(t)| < |t| else done == []
        invariant dropped - old(dropped) == ring.overwritten - old(ring.overwritten)
        decreases size - start
      {
        ghost var line := t[start..nl];
        LineOff(t, start, nl);
        StoreMore(r, done, [line], slots.Length, parse);
        StoreFew(StoreAll(r, done, slots.Length, parse), line, slots.Length, parse);
        Seqs.Assoc(done, [line], Lines(t[nl + 1..]));
        done := done + [line];
        Seqs.SliceOfFront(buf[..], size, start, nl);
        Seqs.SliceOfFront(buf[..], size, nl + 1, size);
        Store(buf[start..nl]);
        start := nl + 1;
        nl := FindNewline(start, size);
      }
      NoneLeft(t[start..]);
      Seqs.Empty(done);
    }

    /** One piece of log text: every line it finishes is stored. */
    method Collect(piece: string)
      requires Valid()
      modifies this`head, this`count, this`dropped, this`ring, this`len, slots, buf
      ensures Valid()
      ensures var (lines, rest) := Feed(old(Pending()), piece);
        Pending() == rest && ring == StoreAll(old(ring), lines, slots.Length, parse)
      ensures dropped - old(dropped) == ring.overwritten - old(ring.overwritten)
    {
      hide Laid, Lines, Rest, StoreAll, StoreText, Place;
      var size := Append(piece);
      ghost var t, r := buf[..size], ring;
      var start := StoreLines(size);
      var rest := size - start;
      if rest == LINE_BUF - 1 {
        StoreFew(r, t, slots.Length, parse);
        Store(buf[..rest]);
        len := 0;
      } else {
        if NoNewline(t) {
          NoneLeft(t);
        }
        assert buf[start..start + rest] == t[start..];
        MoveDown(start, rest);
        len := rest;
      }
    }
  }
}
