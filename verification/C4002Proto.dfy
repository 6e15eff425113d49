/**
 The UART frame codec of the C4002 radar: a byte-at-a-time parser that resynchronises on the
 four-byte header, and the frame builder.

 The parser is proved against `Scan`, which looks at a whole recording at once.
 */
module C4002Proto {
  import opened Bytes

  const HEADER: seq<byte> := [0xFA, 0xF5, 0xAA, 0xA5]
  const FRAME_MIN := 14
  const MAX_DATA := 64
  const MAX_FRAME := 78
  const RESP_REQUEST: byte := 0

  datatype Frame = Frame(frameType: byte, cmd: byte, resp: byte, data: seq<byte>)

  datatype Status = None | Complete(frame: Frame) | BadChecksum | BadLength

  /** What the parser reported, and at which byte of the recording. */
  datatype Event = Event(pos: nat, status: Status)

  /** The verdict on one whole frame. */
  function Judge(f: seq<byte>): (st: Status)
    requires |f| >= FRAME_MIN
    ensures st != None
  {
    if Sum(f[..|f| - 2]) % 0x1_0000 != U16(f[|f| - 2], f[|f| - 1]) then BadChecksum
    else
      var payload := U16(f[10], f[11]);
      if payload < 4 || payload > |f| - 10 || payload - 4 > MAX_DATA then BadLength
      else Complete(Frame(f[7], f[8], f[9], f[12..8 + payload]))
  }

  predicate LengthOk(total: nat) {
    FRAME_MIN <= total <= MAX_FRAME
  }

  // ----------------------------------------------------------------- the reference scanner

  /** The header stands at position `i` of `s`. */
  predicate HeaderAt(s: seq<byte>, i: nat) {
    && i + 4 <= |s|
    && s[i] == HEADER[0] && s[i + 1] == HEADER[1] && s[i + 2] == HEADER[2] && s[i + 3] == HEADER[3]
  }

  /** The first place at or after `i` where the header stands in `s`, or |s|. */
  function NextHeader(s: seq<byte>, i: nat): (k: nat)
    requires i <= |s|
    ensures i <= k <= |s|
    ensures k < |s| ==> HeaderAt(s, k)
    ensures forall j | i <= j < k :: !HeaderAt(s, j)
    decreases |s| - i
  {
    if i == |s| || HeaderAt(s, i) then i else NextHeader(s, i + 1)
  }

  /**
   Reads a recording from position `i` on: find the next header, take the length behind it, judge
   that many bytes, go on behind them. A length out of range gives up the six bytes read so far.
   */
  function Scan(s: seq<byte>, i: nat): seq<Event>
    requires i <= |s|
    decreases |s| - i
  {
    var k := NextHeader(s, i);
    if k + 6 > |s| then []
    else
      var total := U16(s[k + 4], s[k + 5]);
      if !LengthOk(total) then [Event(k + 5, BadLength)] + Scan(s, k + 6)
      else if k + total > |s| then []
      else [Event(k + total - 1, Judge(s[k..k + total]))] + Scan(s, k + total)
  }

  // ----------------------------------------------------------------- the parser

  /** The bytes a parser can be holding between two calls. */
  predicate Held(h: seq<byte>) {
    && (|h| >= 1 ==> h[0] == HEADER[0])
    && (|h| >= 2 ==> h[1] == HEADER[1])
    && (|h| >= 3 ==> h[2] == HEADER[2])
    && (|h| >= 4 ==> h[3] == HEADER[3])
    && (|h| >= 6 ==> LengthOk(U16(h[4], h[5])) && |h| < U16(h[4], h[5]))
  }

  /** One received byte: what is held afterwards, and what is reported. */
  function Step(h: seq<byte>, b: byte): (r: (seq<byte>, Status))
    requires Held(h)
    ensures Held(r.0)
  {
    if |h| < 4 then
      if b == HEADER[|h|] then (h + [b], None)
      else if b == HEADER[0] then ([b], None)
      else ([], None)
    else
      var g := h + [b];
      if |g| < 6 then (g, None)
      else if !LengthOk(U16(g[4], g[5])) then ([], BadLength)
      else if |g| < U16(g[4], g[5]) then (g, None)
      else ([], Judge(g))
  }

  /** Everything a parser that holds `h` reports while it is fed the bytes of `s` from `n` on. */
  function Run(h: seq<byte>, s: seq<byte>, n: nat): seq<Event>
    requires Held(h) && n <= |s|
    decreases |s| - n
  {
    if n == |s| then []
    else
      var (g, st) := Step(h, s[n]);
      (if st == None then [] else [Event(n, st)]) + Run(g, s, n + 1)
  }

  /** Only the first byte of the header equals its first byte: no header starts inside another. */
  lemma {:induction false} NextHeaderSkips(s: seq<byte>, i: nat, j: nat)
    requires i <= j <= |s|
    requires forall k | i <= k < j :: !HeaderAt(s, k)
    ensures NextHeader(s, i) == NextHeader(s, j)
    decreases j - i
  {
    if i < j {
      NextHeaderSkips(s, i + 1, j);
    }
  }

  /** Skipping places where no header stands does not change what is found. */
  lemma {:induction false} ScanSkips(s: seq<byte>, i: nat, j: nat)
    requires i <= j <= |s|
    requires forall k | i <= k < j :: !HeaderAt(s, k)
    ensures Scan(s, i) == Scan(s, j)
  {
    hide Judge, HeaderAt, U16, LengthOk;
    NextHeaderSkips(s, i, j);
  }

  /** What the scanner does at the next header. */
  lemma {:induction false} ScanFromHeader(s: seq<byte>, i: nat)
    requires i <= |s|
    ensures var k := NextHeader(s, i);
      if k + 6 > |s| then Scan(s, i) == []
      else
        var total := U16(s[k + 4], s[k + 5]);
        if !LengthOk(total) then Scan(s, i) == [Event(k + 5, BadLength)] + Scan(s, k + 6)
        else if k + total > |s| then Scan(s, i) == []
        else Scan(s, i) == [Event(k + total - 1, Judge(s[k..k + total]))] + Scan(s, k + total)
  {
    hide Judge, HeaderAt;
  }

  /** The parser behind a header that stands at `i`, taking the byte at `n`. */
  lemma {:induction false} StepBehindHeader(s: seq<byte>, i: nat, n: nat)
    requires i + 4 <= n < |s| && Held(s[i..n])
    ensures HeaderAt(s, i)
    ensures n < i + 5 ==> Step(s[i..n], s[n]) == (s[i..n + 1], None)
    ensures n >= i + 5 ==>
      var total := U16(s[i + 4], s[i + 5]);
      && (!LengthOk(total) ==> n == i + 5 && Step(s[i..n], s[n]) == ([], BadLength))
      && (LengthOk(total) && n + 1 < i + total ==> Step(s[i..n], s[n]) == (s[i..n + 1], None))
      && (LengthOk(total) && n + 1 >= i + total ==>
            n + 1 == i + total && Step(s[i..n], s[n]) == ([], Judge(s[i..n + 1])))
  {
    assert s[i..n + 1] == s[i..n] + [s[n]];
  }

  /** While the header is being matched, a byte that does not continue it loses no header. */
  lemma {:induction false} StepInHeader(s: seq<byte>, i: nat, n: nat)
    requires i <= n < |s| && n < i + 4 && Held(s[i..n])
    ensures var g := Step(s[i..n], s[n]).0;
      && Step(s[i..n], s[n]).1 == None
      && |g| <= n + 1 - i
      && g == s[n + 1 - |g|..n + 1]
      && forall j | i <= j < n + 1 - |g| :: !HeaderAt(s, j)
  {
    assert s[i..n + 1] == s[i..n] + [s[n]];
    assert s[n..n + 1] == [s[n]];
    assert s[n + 1..n + 1] == [];
  }

  lemma {:induction false} RunUnfold(h: seq<byte>, s: seq<byte>, n: nat)
    requires Held(h) && n < |s|
    ensures var (g, st) := Step(h, s[n]);
      Run(h, s, n) == (if st == None then Run(g, s, n + 1) else [Event(n, st)] + Run(g, s, n + 1))
  {
    hide Step, Held;
  }

  lemma {:induction false} RunAtEnd(s: seq<byte>, i: nat)
    requires i <= |s| && Held(s[i..|s|])
    ensures Run(s[i..|s|], s, |s|) == Scan(s, i)
  {
    if i + 4 <= |s| {
      assert HeaderAt(s, i);
      ScanFromHeader(s, i);
    }
  }

  /** A parser that has taken the bytes of `s` up to `n` and holds the last of them reports what the scanner finds. */
  lemma {:induction false} RunIsScan(s: seq<byte>, i: nat, n: nat)
    requires i <= n <= |s| && Held(s[i..n])
    ensures Run(s[i..n], s, n) == Scan(s, i)
    decreases |s| - n
  {
    hide Run, Scan, Step, Held, Judge, HeaderAt, LengthOk;
    if n == |s| {
      RunAtEnd(s, i);
    } else {
      RunUnfold(s[i..n], s, n);
      var (g, st) := Step(s[i..n], s[n]);
      if n < i + 4 {
        StepInHeader(s, i, n);
        ScanSkips(s, i, n + 1 - |g|);
        RunIsScan(s, n + 1 - |g|, n + 1);
      } else {
        StepBehindHeader(s, i, n);
        ScanFromHeader(s, i);
        assert st != None ==> g == s[n + 1..n + 1];
        RunIsScan(s, if st == None then i else n + 1, n + 1);
      }
    }
  }

  /** From reset, the parser reports exactly what the scanner finds in the recording. */
  lemma {:induction false} ParserIsScanner(s: seq<byte>)
    ensures Run([], s, 0) == Scan(s, 0)
  {
    RunIsScan(s, 0, 0);
  }

  /** What justifies report `e`: the bytes from the header at `i` up to the one at which it was made. */
  predicate Grounds(s: seq<byte>, i: nat, e: Event) {
    && i + 5 <= e.pos < |s| && s[i] == 0xFA && s[i + 1] == 0xF5 && s[i + 2] == 0xAA && s[i + 3] == 0xA5
    && var total := U16(s[i + 4], s[i + 5]);
       if !(14 <= total <= 78) then e == Event(i + 5, BadLength)
       else
         && e.pos + 1 - i == total
         && var payload := U16(s[i + 10], s[i + 11]);
            match e.status
            case None => false
            case BadChecksum => Sum(s[i..e.pos - 1]) % 0x1_0000 != U16(s[e.pos - 1], s[e.pos])
            case BadLength =>
              && Sum(s[i..e.pos - 1]) % 0x1_0000 == U16(s[e.pos - 1], s[e.pos])
              && !(4 <= payload <= total - 10)
            case Complete(f) =>
              && Sum(s[i..e.pos - 1]) % 0x1_0000 == U16(s[e.pos - 1], s[e.pos])
              && 4 <= payload <= total - 10
              && f == Frame(s[i + 7], s[i + 8], s[i + 9], s[i + 12..i + 8 + payload])
  }

  lemma {:induction false} HeaderMeans(s: seq<byte>, i: nat)
    requires HeaderAt(s, i)
    ensures i + 4 <= |s| && s[i] == 0xFA && s[i + 1] == 0xF5 && s[i + 2] == 0xAA && s[i + 3] == 0xA5
  {
  }

  lemma {:induction false} JudgeHasGrounds(s: seq<byte>, i: nat, total: nat)
    requires HeaderAt(s, i) && i + total <= |s| && LengthOk(total) && U16(s[i + 4], s[i + 5]) == total
    ensures Grounds(s, i, Event(i + total - 1, Judge(s[i..i + total])))
  {
    hide Sum, HeaderAt;
    var f := s[i..i + total];
    HeaderMeans(s, i);
    SliceOfSlice(s, i, i + total, 0, total - 2);
    var payload := U16(f[10], f[11]);
    if 4 <= payload <= total - 10 {
      SliceOfSlice(s, i, i + total, 12, 8 + payload);
    }
  }

  lemma {:induction false} BadLengthHasGrounds(s: seq<byte>, i: nat)
    requires HeaderAt(s, i) && i + 6 <= |s| && !LengthOk(U16(s[i + 4], s[i + 5]))
    ensures Grounds(s, i, Event(i + 5, BadLength))
  {
  }

  ghost predicate Justified(s: seq<byte>, from: nat, e: Event) {
    exists i: nat :: from <= i && Grounds(s, i, e)
  }

  /** Every report has its grounds, behind the byte at which the one before it was made. */
  ghost predicate AllJustified(s: seq<byte>, from: nat, es: seq<Event>)
    decreases |es|
  {
    es == [] || (Justified(s, from, es[0]) && AllJustified(s, es[0].pos + 1, es[1..]))
  }

  lemma {:induction false} ScanIsJustified(s: seq<byte>, i: nat)
    requires i <= |s|
    ensures AllJustified(s, i, Scan(s, i))
    decreases |s| - i
  {
    hide Scan, Judge, Grounds, HeaderAt, AllJustified;
    var k := NextHeader(s, i);
    ScanFromHeader(s, i);
    if k + 6 > |s| {
      NothingToJustify(s, i);
    } else {
      var total := U16(s[k + 4], s[k + 5]);
      if !LengthOk(total) {
        BadLengthHasGrounds(s, k);
        ScanIsJustified(s, k + 6);
        Justify(s, i, k, Event(k + 5, BadLength), Scan(s, k + 6));
      } else if k + total <= |s| {
        JudgeHasGrounds(s, k, total);
        ScanIsJustified(s, k + total);
        Justify(s, i, k, Event(k + total - 1, Judge(s[k..k + total])), Scan(s, k + total));
      } else {
        NothingToJustify(s, i);
      }
    }
  }

  lemma {:induction false} NothingToJustify(s: seq<byte>, from: nat)
    ensures AllJustified(s, from, [])
  {
  }

  lemma {:induction false} Justify(s: seq<byte>, from: nat, i: nat, e: Event, rest: seq<Event>)
    requires from <= i && Grounds(s, i, e) && AllJustified(s, e.pos + 1, rest)
    ensures AllJustified(s, from, [e] + rest)
  {
    hide Grounds;
    assert ([e] + rest)[1..] == rest;
  }

  /**
   Whatever was received, a frame is only reported on the last byte of one, an error only where a
   rule is broken, and no byte serves two reports.
   */
  lemma {:induction false} ParserIsJustified(s: seq<byte>)
    ensures AllJustified(s, 0, Run([], s, 0))
  {
    hide Run, Scan, AllJustified;
    ParserIsScanner(s);
    ScanIsJustified(s, 0);
  }

  /** Behind a completed header (4 bytes held) a verdict comes within 78 - 4 = 74 bytes, whatever they are. */
  lemma {:induction false} VerdictWithinFrame(h: seq<byte>, s: seq<byte>, n: nat)
    requires Held(h) && 4 <= |h| && n <= |s| && |s| - n >= 78 - |h|
    ensures Run(h, s, n) != [] && Run(h, s, n)[0].pos < n + 78 - |h|
    decreases |s| - n
  {
    var (g, st) := Step(h, s[n]);
    if st == None {
      VerdictWithinFrame(g, s, n + 1);
    }
  }

  // ----------------------------------------------------------------- the frame builder

  /** The frame for a request, as the header, the two length fields, the data and the 16-bit sum. */
  function Encode(frameType: byte, cmd: byte, data: seq<byte>): (f: seq<byte>)
    requires |data| <= 0xFFFF
    ensures |f| == |data| + 14
  {
    var body := Body(frameType, cmd, data);
    body + Le16(Sum(body))
  }

  function Body(frameType: byte, cmd: byte, data: seq<byte>): (f: seq<byte>)
    requires |data| <= 0xFFFF
    ensures |f| == |data| + 12
  {
    HEADER + Le16(|data| + 14) + [0, frameType, cmd, RESP_REQUEST] + Le16(|data| + 4) + data
  }

  lemma {:induction false} QuotientUnique(v: nat, q: nat, r: nat)
    requires v == 0x1_0000 * q + r && r < 0x1_0000
    ensures v / 0x1_0000 == q && v % 0x1_0000 == r
  {
  }

  lemma {:induction false} LowBytes(v: nat)
    ensures v % 0x1_0000 == v % 256 + 256 * (v / 256 % 256)
  {
    var h := v / 256;
    QuotientUnique(v, h / 256, v % 256 + 256 * (h % 256));
  }

  /** The low 16 bits of `v`, low byte first. */
  function Le16(v: nat): (r: seq<byte>)
    ensures |r| == 2 && U16(r[0], r[1]) == v % 0x1_0000
  {
    LowBytes(v);
    [v % 256, v / 256 % 256]
  }

  /** A built frame byte by byte: where everything stands, lengths and sum with the low byte first. */
  lemma {:induction false} EncodedByBytes(frameType: byte, cmd: byte, data: seq<byte>)
    requires |data| <= 0xFFFF
    ensures var f, n := Encode(frameType, cmd, data), |data|;
      && f[..4] == [0xFA, 0xF5, 0xAA, 0xA5] && f[6..10] == [0, frameType, cmd, 0] && f[12..12 + n] == data
      && U16(f[4], f[5]) == (n + 14) % 0x1_0000 && U16(f[10], f[11]) == (n + 4) % 0x1_0000
      && U16(f[n + 12], f[n + 13]) == Sum(f[..n + 12]) % 0x1_0000
  {
    hide Le16, Sum, U16;
    var body := Body(frameType, cmd, data);
    var f := Encode(frameType, cmd, data);
    var a, b, c := Le16(|data| + 14), Le16(|data| + 4), Le16(Sum(body));
    assert f[..|data| + 12] == body;
    assert f[4] == a[0] && f[5] == a[1] && f[10] == b[0] && f[11] == b[1];
    assert f[|data| + 12] == c[0] && f[|data| + 13] == c[1];
  }

  lemma {:induction false} JudgeEncode(frameType: byte, cmd: byte, data: seq<byte>)
    requires |data| <= MAX_DATA
    ensures Judge(Encode(frameType, cmd, data)) == Complete(Frame(frameType, cmd, RESP_REQUEST, data))
  {
    hide Encode, Judge, Sum, U16;
    EncodedByBytes(frameType, cmd, data);
    var f := Encode(frameType, cmd, data);
    assert f[7] == f[6..10][1] && f[8] == f[6..10][2] && f[9] == f[6..10][3];
    JudgeGood(f, frameType, cmd, data);
  }

  lemma {:induction false} JudgeGood(f: seq<byte>, frameType: byte, cmd: byte, data: seq<byte>)
    requires |data| <= MAX_DATA && |f| == |data| + 14
    requires Sum(f[..|f| - 2]) % 0x1_0000 == U16(f[|f| - 2], f[|f| - 1]) && U16(f[10], f[11]) == |data| + 4
    requires f[7] == frameType && f[8] == cmd && f[9] == RESP_REQUEST && f[12..12 + |data|] == data
    ensures Judge(f) == Complete(Frame(frameType, cmd, RESP_REQUEST, data))
  {
    hide Sum, U16;
  }

  lemma {:induction false} EncodeLayout(frameType: byte, cmd: byte, data: seq<byte>)
    requires |data| <= 0xFFFF
    ensures var f := Encode(frameType, cmd, data);
      HeaderAt(f, 0) && U16(f[4], f[5]) == (|data| + 14) % 0x1_0000
  {
    var f := Encode(frameType, cmd, data);
    assert f[4] == Le16(|data| + 14)[0] && f[5] == Le16(|data| + 14)[1];
  }

  lemma {:induction false} HeaderInSlice(s: seq<byte>, i: nat, n: nat, j: nat)
    requires i <= n <= |s| && j + 4 <= n - i
    ensures HeaderAt(s[i..n], j) <==> HeaderAt(s, i + j)
  {
  }

  /**
   Where a recording contains a built frame, the scanner reads it back on its last byte if its data
   fits the parser, and refuses it on its sixth byte otherwise (also when the length field wrapped).
   */
  lemma {:induction false} BuiltFrameReadBack(s: seq<byte>, i: nat, frameType: byte, cmd: byte, data: seq<byte>)
    requires |data| <= 0xFFFF && i + |data| + 14 <= |s|
    requires s[i..i + |data| + 14] == Encode(frameType, cmd, data)
    ensures |data| <= 64 ==>
      Scan(s, i) == [Event(i + |data| + 13, Complete(Frame(frameType, cmd, 0, data)))] + Scan(s, i + |data| + 14)
    ensures |data| > 64 ==> Scan(s, i) == [Event(i + 5, BadLength)] + Scan(s, i + 6)
  {
    hide Scan, Encode, Judge;
    var f := Encode(frameType, cmd, data);
    EncodeLayout(frameType, cmd, data);
    if |data| <= MAX_DATA {
      JudgeEncode(frameType, cmd, data);
    }
    ScanOfFrame(s, i, f);
  }

  lemma {:induction false} ScanOfFrame(s: seq<byte>, i: nat, f: seq<byte>)
    requires 14 <= |f| <= 0xFFFF + 14 && i + |f| <= |s| && s[i..i + |f|] == f
    requires HeaderAt(f, 0) && U16(f[4], f[5]) == |f| % 0x1_0000
    ensures |f| <= MAX_FRAME ==> Scan(s, i) == [Event(i + |f| - 1, Judge(f))] + Scan(s, i + |f|)
    ensures |f| > MAX_FRAME ==> Scan(s, i) == [Event(i + 5, BadLength)] + Scan(s, i + 6)
  {
    hide Scan, Judge, HeaderAt;
    assert f[4] == s[i + 4] && f[5] == s[i + 5];
    HeaderInSlice(s, i, i + |f|, 0);
    ScanFromHeader(s, i);
  }

  // ----------------------------------------------------------------- whole recordings

  /** Line noise and the request frame after it. */
  datatype Chunk = Chunk(noise: seq<byte>, frameType: byte, cmd: byte, data: seq<byte>)

  /** No header stands in `x`. */
  predicate Quiet(x: seq<byte>) {
    forall j | 0 <= j < |x| :: !HeaderAt(x, j)
  }

  predicate Receivable(c: Chunk) {
    Quiet(c.noise) && |c.data| <= MAX_DATA
  }

  /** The recording of the chunks, with `tail` after the last frame. */
  function Recording(cs: seq<Chunk>, tail: seq<byte>): seq<byte>
    requires forall c | c in cs :: Receivable(c)
  {
    if cs == [] then tail
    else
      assert Receivable(cs[0]);
      cs[0].noise + Encode(cs[0].frameType, cs[0].cmd, cs[0].data) + Recording(cs[1..], tail)
  }

  /** One report for each chunk: its frame, at its last byte. */
  function Frames(cs: seq<Chunk>, at: nat): (es: seq<Event>)
    ensures |es| == |cs|
  {
    if cs == [] then []
    else
      var end := at + |cs[0].noise| + |cs[0].data| + 14;
      [Event(end - 1, Complete(Frame(cs[0].frameType, cs[0].cmd, RESP_REQUEST, cs[0].data)))] + Frames(cs[1..], end)
  }

  lemma {:induction false} NoiseHasNoHeader(s: seq<byte>, i: nat, q: nat)
    requires i <= q <= |s| && Quiet(s[i..q]) && (q == |s| || HeaderAt(s, q))
    ensures forall j | i <= j < q :: !HeaderAt(s, j)
  {
    forall j | i <= j < q
      ensures !HeaderAt(s, j)
    {
      if j + 4 <= q {
        HeaderInSlice(s, i, q, j - i);
      }
    }
  }

  lemma {:induction false} QuietTail(s: seq<byte>, i: nat)
    requires i <= |s| && Quiet(s[i..])
    ensures Scan(s, i) == []
  {
    assert s[i..|s|] == s[i..];
    NoiseHasNoHeader(s, i, |s|);
    ScanSkips(s, i, |s|);
  }

  lemma {:induction false} ScanOfRecording(s: seq<byte>, i: nat, cs: seq<Chunk>, tail: seq<byte>)
    requires forall c | c in cs :: Receivable(c)
    requires Quiet(tail) && i <= |s| && s[i..] == Recording(cs, tail)
    ensures Scan(s, i) == Frames(cs, i)
    decreases |cs|
  {
    hide Scan, Encode, Judge, HeaderAt, Quiet, U16, LengthOk;
    if cs == [] {
      QuietTail(s, i);
    } else {
      var c := cs[0];
      assert Receivable(c);
      var f := Encode(c.frameType, c.cmd, c.data);
      var q := i + |c.noise|;
      SplitThree(s, i, c.noise, f, Recording(cs[1..], tail));
      EncodeLayout(c.frameType, c.cmd, c.data);
      HeaderInSlice(s, q, q + |f|, 0);
      NoiseHasNoHeader(s, i, q);
      ScanSkips(s, i, q);
      BuiltFrameReadBack(s, q, c.frameType, c.cmd, c.data);
      ScanOfRecording(s, q + |f|, cs[1..], tail);
    }
  }

  /**
   Built frames with any noise between them that does not contain the header, fed byte by byte from
   reset, come out in order, each on its last byte, and nothing else is reported.
   */
  lemma {:induction false} FramesSurviveNoise(cs: seq<Chunk>, tail: seq<byte>)
    requires forall c | c in cs :: Receivable(c)
    requires Quiet(tail)
    ensures Run([], Recording(cs, tail), 0) == Frames(cs, 0)
  {
    var s := Recording(cs, tail);
    ParserIsScanner(s);
    assert s[0..] == s;
    ScanOfRecording(s, 0, cs, tail);
  }

  // ----------------------------------------------------------------- the code

  /** The 16-bit running sum of the first `len` bytes of a buffer. */
  method Checksum(p: array<byte>, len: nat) returns (sum: nat)
    requires len <= p.Length
    ensures sum == Sum(p[..len]) % 0x1_0000
  {
    sum := 0;
    for i := 0 to len
      invariant sum == Sum(p[..i]) % 0x1_0000
    {
      assert p[..i + 1][..i] == p[..i];
      sum := (sum + p[i]) % 0x1_0000;
    }
  }

  class Parser {
    const buf: array<byte>
    var len: nat
    var expected: nat

    ghost predicate Valid()
      reads this, buf
    {
      && buf.Length == MAX_FRAME
      && len < MAX_FRAME
      && Held(buf[..len])
      && expected == if len >= 6 then U16(buf[4], buf[5]) else 0
    }

    ghost function Contents(): seq<byte>
      requires len <= buf.Length
      reads this, buf
    {
      buf[..len]
    }

    constructor ()
      ensures Valid() && Contents() == [] && fresh(buf)
    {
      buf := new byte[MAX_FRAME];
      len := 0;
      expected := 0;
    }

    method Reset()
      requires buf.Length == MAX_FRAME
      modifies this
      ensures Valid() && Contents() == []
    {
      len := 0;
      expected := 0;
    }

    /** A byte where the header is still expected. */
    method FeedHeader(b: byte)
      requires Valid() && len < 4
      modifies this, buf
      ensures Valid() && (Contents(), None) == Step(old(Contents()), b)
    {
      ghost var held := Contents();
      if b == HEADER[len] {
        buf[len] := b;
        len := len + 1;
        assert Contents() == held + [b];
      } else {
        len := 0;
        if b == HEADER[0] {
          buf[len] := b;
          len := len + 1;
          assert Contents() == [b];
        }
      }
    }

    /** Takes one received byte. `out` is only written when a frame is complete. */
    method Feed(b: byte, previous: Frame) returns (status: Status, out: Frame)
      requires Valid()
      modifies this, buf
      ensures Valid()
      ensures (Contents(), status) == Step(old(Contents()), b)
      ensures out == if status.Complete? then status.frame else previous
    {
      hide Judge;
      out := previous;
      ghost var held := Contents();
      if len < 4 {
        FeedHeader(b);
        return None, out;
      }
      buf[len] := b;
      len := len + 1;
      ghost var g := held + [b];
      assert buf[..len] == g;
      if len == 6 {
        expected := U16(buf[4], buf[5]);
        if expected < FRAME_MIN || expected > buf.Length {
          Reset();
          return BadLength, out;
        }
      }
      if len < 6 || len < expected {
        return None, out;
      }
      var total := expected;
      Reset();
      assert buf[..total] == g;
      status := Check(total);
      if status.Complete? {
        out := status.frame;
      }
    }

    /** A complete frame of `total` bytes: sum, payload length, then its fields. */
    method Check(total: nat) returns (status: Status)
      requires buf.Length == MAX_FRAME && LengthOk(total)
      ensures status == Judge(buf[..total])
    {
      hide Sum;
      ghost var f := buf[..total];
      assert f[..total - 2] == buf[..total - 2];
      var sum := Checksum(buf, total - 2);
      if sum != U16(buf[total - 2], buf[total - 1]) {
        return BadChecksum;
      }
      var payload := U16(buf[10], buf[11]);
      if payload < 4 || payload > total - 10 || payload - 4 > MAX_DATA {
        return BadLength;
      }
      assert f[12..8 + payload] == buf[12..8 + payload];
      return Complete(Frame(buf[7], buf[8], buf[9], buf[12..8 + payload]));
    }
  }

  function Head(frameType: byte, cmd: byte, total: nat, payload: nat): (h: seq<byte>)
    ensures |h| == 12
  {
    HEADER + Le16(total) + [0, frameType, cmd, RESP_REQUEST] + Le16(payload)
  }

  lemma {:induction false} EncodeParts(frameType: byte, cmd: byte, data: seq<byte>)
    requires |data| <= 0xFFFF
    ensures var head := Head(frameType, cmd, |data| + 14, (|data| + 4) % 0x1_0000);
      Encode(frameType, cmd, data) == head + data + Le16(Sum(head + data))
  {
    Le16Wraps(|data| + 4);
    hide Le16, Sum;
  }

  /** The fixed part of a frame: header, total length, frame type, command, response code, payload length. */
  method WriteHead(frameType: byte, cmd: byte, total: nat, payload: nat, out: array<byte>)
    requires out.Length >= 12 && payload <= 0xFFFF
    modifies out
    ensures out[..12] == Head(frameType, cmd, total, payload)
    ensures out[12..] == old(out[12..])
  {
    out[0], out[1], out[2], out[3] := HEADER[0], HEADER[1], HEADER[2], HEADER[3];
    out[4], out[5], out[6] := total % 256, total / 256 % 256, 0;
    out[7], out[8], out[9] := frameType, cmd, RESP_REQUEST;
    out[10], out[11] := payload % 256, payload / 256;
  }

  /** Behind `n` bytes: `data`, and the sum of everything before it. */
  method WriteDataAndSum(n: nat, data: seq<byte>, out: array<byte>) returns (end: nat)
    requires n + |data| + 2 <= out.Length
    modifies out
    ensures end == n + |data| + 2
    ensures out[..] == old(out[..])[..n] + data + Le16(Sum(old(out[..])[..n] + data)) + old(out[..])[end..]
  {
    hide Sum;
    ghost var was := out[..];
    forall k | 0 <= k < |data| {
      out[n + k] := data[k];
    }
    end := n + |data|;
    ghost var body := out[..end];
    assert body == was[..n] + data;
    var sum := Checksum(out, end);
    out[end], out[end + 1] := sum % 256, sum / 256;
    assert out[..end] == body;
    end := end + 2;
  }

  lemma {:induction false} FrameInFront(head: seq<byte>, data: seq<byte>, sum: seq<byte>, was: seq<byte>, end: nat)
    requires |sum| == 2 && end == |head| + |data| + 2 <= |was|
    ensures var mid := head + was[|head|..];
      var all := mid[..|head|] + data + sum + mid[end..];
      mid[..|head|] == head && all[..end] == head + data + sum && all[end..] == was[end..]
  {
    var mid := head + was[|head|..];
    assert mid[..|head|] == head;
    assert mid[end..] == was[end..];
  }

  /**
   Writes a request frame to the front of `out`. Returns its length, or 0 (and writes nothing) when
   it does not fit or there is a length without data.
   */
  method BuildFrame(frameType: byte, cmd: byte, data: array?<byte>, dataLen: nat, out: array?<byte>) returns (n: nat)
    requires dataLen <= 0xFFFF && (data != null ==> dataLen <= data.Length && data != out)
    modifies out
    ensures n == if out == null || out.Length < dataLen + 14 || (dataLen > 0 && data == null) then 0 else dataLen + 14
    ensures n == 0 && out != null ==> out[..] == old(out[..])
    ensures n > 0 ==>
      && out[..n] == Encode(frameType, cmd, if dataLen > 0 then old(data[..dataLen]) else [])
      && out[n..] == old(out[n..])
  {
    var total := dataLen + 14;
    if out == null || out.Length < total || (dataLen > 0 && data == null) {
      return 0;
    }
    hide Sum, Le16, Encode, Head;
    ghost var was := out[..];
    ghost var d := if dataLen > 0 then data[..dataLen] else [];
    var payload := (dataLen + 4) % 0x1_0000;
    EncodeParts(frameType, cmd, d);
    WriteHead(frameType, cmd, total, payload, out);
    ghost var head := Head(frameType, cmd, total, payload);
    assert out[..] == out[..12] + out[12..];
    assert out[..] == head + was[12..];
    n := WriteDataAndSum(12, if dataLen > 0 then data[..dataLen] else [], out);
    FrameInFront(head, d, Le16(Sum(head + d)), was, n);
    assert out[..n] == out[..][..n] && out[n..] == out[..][n..] && was[n..] == old(out[n..]);
  }

  lemma {:induction false} Le16Wraps(v: nat)
    ensures Le16(v % 0x1_0000) == Le16(v)
  {
    var h := v / 256;
    LowBytes(v);
    assert v % 0x1_0000 / 256 == h % 256;
  }
}
