/**
 Keeping the database from growing: which stored messages one run of the pruning job removes, and that it removes
 exactly those, in batches, whether or not it was only asked to count them.
 */
module Retention {
  import Numbers

  type Time = int

  const BATCH: nat := 2000

  /**
   A stored message; `event` says that a safety event hangs on it. Times are in microseconds. The order of messages
   received at one instant is the database's: `tie` is the place it gives a message, and can be anything.
   */
  datatype Row = Row(id: nat, device: nat, topic: string, at: Time, event: bool, tie: int)

  datatype LogLine = LogLine(at: Time)

  datatype Policy = Policy(live: nat, full: nat, thinSeconds: nat, days: nat, other: nat, log: nat)

  const HIGH_RATE := ["/c4002_live", "/controller/heartbeat", "/presence", "/thermal"]
  const TELEMETRY := "/controller/state"

  predicate EndsWith(t: string, suffix: string) {
    |suffix| <= |t| && t[|t| - |suffix|..] == suffix
  }

  predicate IsHighRate(t: string) {
    exists i :: 0 <= i < |HIGH_RATE| && EndsWith(t, HIGH_RATE[i])
  }

  predicate IsTelemetry(t: string) {
    EndsWith(t, TELEMETRY)
  }

  lemma {:induction false} EndsWithMeans(t: string, suffix: string)
    ensures EndsWith(t, suffix) <==> exists front :: t == front + suffix
  {
    if EndsWith(t, suffix) {
      assert t == t[..|t| - |suffix|] + suffix;
    }
    if front :| t == front + suffix {
      assert t[|t| - |suffix|..] == suffix;
    }
  }

  lemma {:induction false} SuffixesMean(t: string)
    ensures IsHighRate(t) <==>
      EndsWith(t, "/c4002_live") || EndsWith(t, "/controller/heartbeat") || EndsWith(t, "/presence")
      || EndsWith(t, "/thermal")
    ensures IsTelemetry(t) <==> EndsWith(t, "/controller/state")
  {
    hide EndsWith;
    assert HIGH_RATE[0] == "/c4002_live" && HIGH_RATE[1] == "/controller/heartbeat";
    assert HIGH_RATE[2] == "/presence" && HIGH_RATE[3] == "/thermal";
  }

  lemma {:induction false} EndsAlike(t: string, suffix: string, k: nat)
    requires EndsWith(t, suffix) && k < |suffix|
    ensures t[|t| - 1 - k] == suffix[|suffix| - 1 - k]
  {
    assert t[|t| - |suffix|..][|suffix| - 1 - k] == t[|t| - 1 - k];
  }

  /** No topic is both. */
  lemma {:induction false} SuffixesDisjoint(t: string)
    ensures !(IsHighRate(t) && IsTelemetry(t))
  {
    if IsHighRate(t) && IsTelemetry(t) {
      var i :| 0 <= i < |HIGH_RATE| && EndsWith(t, HIGH_RATE[i]);
      EndsAlike(t, HIGH_RATE[i], 0);
      EndsAlike(t, HIGH_RATE[i], 1);
      EndsAlike(t, TELEMETRY, 0);
      EndsAlike(t, TELEMETRY, 1);
      LastTwo(i);
    }
  }

  lemma {:induction false} LastTwo(i: nat)
    requires i < |HIGH_RATE|
    ensures |HIGH_RATE[i]| >= 2
    ensures HIGH_RATE[i][|HIGH_RATE[i]| - 1] != TELEMETRY[|TELEMETRY| - 1]
        || HIGH_RATE[i][|HIGH_RATE[i]| - 2] != TELEMETRY[|TELEMETRY| - 2]
  {
  }

  // ----------------------------------------------------------------- the rules

  predicate HighRate(r: Row, now: Time, p: Policy) {
    !r.event && IsHighRate(r.topic) && r.at < now - p.live
  }

  predicate Expired(r: Row, now: Time, p: Policy) {
    !r.event && IsTelemetry(r.topic) && r.at < now - p.days
  }

  predicate InWindow(r: Row, now: Time, p: Policy) {
    !r.event && IsTelemetry(r.topic) && now - p.days <= r.at < now - p.full
  }

  predicate Other(r: Row, now: Time, p: Policy) {
    !r.event && !IsHighRate(r.topic) && !IsTelemetry(r.topic) && r.at < now - p.other
  }

  /** The thinning interval, one second at least. */
  function Width(p: Policy): (w: nat)
    ensures w > 0
  {
    if p.thinSeconds > 1 then 1_000_000 * p.thinSeconds else 1_000_000
  }

  /** One bucket per controller and `thinSeconds`. */
  function Bucket(r: Row, p: Policy): (nat, int) {
    (r.device, r.at / Width(p))
  }

  /** A bucket is one controller and one interval of the thinning seconds, one second at least. */
  lemma {:induction false} BucketMeans(r: Row, p: Policy, device: nat, k: int)
    ensures var w := 1_000_000 * if p.thinSeconds == 0 then 1 else p.thinSeconds;
      Bucket(r, p) == (device, k) <==> r.device == device && k * w <= r.at < k * w + w
  {
    Numbers.Quotient(r.at, Width(p), k);
  }

  /** Messages in one bucket are of one controller and lie less than the thinning interval apart. */
  lemma {:induction false} BucketSpan(a: Row, b: Row, p: Policy)
    requires Bucket(a, p) == Bucket(b, p)
    ensures a.device == b.device
    ensures var w := 1_000_000 * if p.thinSeconds == 0 then 1 else p.thinSeconds; a.at - b.at < w && b.at - a.at < w
  {
    var k := Bucket(b, p).1;
    BucketMeans(a, p, b.device, k);
    BucketMeans(b, p, b.device, k);
    assert Bucket(b, p) == (b.device, k);
    hide Bucket, Width;
  }

  predicate Earlier(a: Row, b: Row) {
    a.at < b.at || (a.at == b.at && a.tie < b.tie)
  }

  /** In the window, and not the earliest of its bucket. */
  ghost predicate Thinned(rows: seq<Row>, r: Row, now: Time, p: Policy) {
    InWindow(r, now, p) && exists q :: q in rows && InWindow(q, now, p) && Bucket(q, p) == Bucket(r, p) && Earlier(q, r)
  }

  /** The rules never meet in one message. */
  lemma {:induction false} RulesDisjoint(r: Row, now: Time, p: Policy)
    ensures !(HighRate(r, now, p) && (Expired(r, now, p) || InWindow(r, now, p) || Other(r, now, p)))
    ensures !(Expired(r, now, p) && (InWindow(r, now, p) || Other(r, now, p)))
    ensures !(InWindow(r, now, p) && Other(r, now, p))
  {
    SuffixesDisjoint(r.topic);
  }

  // ----------------------------------------------------------------- selecting rows

  ghost function Select(rows: seq<Row>, keep: Row -> bool): seq<Row> {
    if rows == [] then []
    else Select(rows[..|rows| - 1], keep) + if keep(rows[|rows| - 1]) then [rows[|rows| - 1]] else []
  }

  lemma {:induction false} SelectMeans(rows: seq<Row>, keep: Row -> bool, r: Row)
    ensures r in Select(rows, keep) <==> r in rows && keep(r)
  {
    if rows != [] {
      SelectMeans(rows[..|rows| - 1], keep, r);
      assert rows == rows[..|rows| - 1] + [rows[|rows| - 1]];
    }
  }

  lemma {:induction false} SelectSame(rows: seq<Row>, a: Row -> bool, b: Row -> bool)
    requires forall r | r in rows :: a(r) == b(r)
    ensures Select(rows, a) == Select(rows, b)
  {
    if rows != [] {
      assert rows == rows[..|rows| - 1] + [rows[|rows| - 1]];
      SelectSame(rows[..|rows| - 1], a, b);
    }
  }

  lemma {:induction false} SelectTwice(rows: seq<Row>, a: Row -> bool, b: Row -> bool, both: Row -> bool)
    requires forall r | r in rows :: both(r) == (a(r) && b(r))
    ensures Select(Select(rows, a), b) == Select(rows, both)
  {
    if rows != [] {
      var n := |rows| - 1;
      assert rows == rows[..n] + [rows[n]];
      SelectTwice(rows[..n], a, b, both);
      var kept := Select(rows[..n], a);
      assert kept + [] == kept;
      if a(rows[n]) {
        assert (kept + [rows[n]])[..|kept|] == kept;
      }
    }
  }

  lemma {:induction false} SelectAll(rows: seq<Row>, keep: Row -> bool)
    requires forall r | r in rows :: keep(r)
    ensures Select(rows, keep) == rows
  {
    if rows != [] {
      assert rows == rows[..|rows| - 1] + [rows[|rows| - 1]];
      SelectAll(rows[..|rows| - 1], keep);
    }
  }

  // ----------------------------------------------------------------- one run of the job

  ghost predicate Removed(rows: seq<Row>, r: Row, now: Time, p: Policy) {
    HighRate(r, now, p) || Expired(r, now, p) || Thinned(rows, r, now, p) || Other(r, now, p)
  }

  /** What is left. */
  ghost function Pruned(rows: seq<Row>, now: Time, p: Policy): seq<Row> {
    Select(rows, r => !Removed(rows, r, now, p))
  }

  datatype Counts = Counts(highRate: nat, expired: nat, thinned: nat, other: nat, logLines: nat)

  ghost function CountsOf(rows: seq<Row>, lines: nat, now: Time, p: Policy): Counts {
    Counts(|Select(rows, r => HighRate(r, now, p))|, |Select(rows, r => Expired(r, now, p))|,
           |Select(rows, r => Thinned(rows, r, now, p))|, |Select(rows, r => Other(r, now, p))|, lines)
  }

  predicate Distinct(rows: seq<Row>) {
    forall i, j | 0 <= i < j < |rows| :: rows[i].id != rows[j].id && rows[i].tie != rows[j].tie
  }

  /** A message that carries a safety event stays. */
  lemma {:induction false} EventsStay(rows: seq<Row>, now: Time, p: Policy, r: Row)
    requires r in rows && r.event
    ensures r in Pruned(rows, now, p)
  {
    SelectMeans(rows, x => !Removed(rows, x, now, p), r);
  }

  /**
   A message stays exactly if it carries a safety event, or is young enough for its topic; telemetry past its full
   resolution stays only as the earliest of its bucket.
   */
  lemma {:induction false} StaysExactly(rows: seq<Row>, now: Time, p: Policy, r: Row)
    ensures r in Pruned(rows, now, p) <==>
      r in rows && (
        if r.event then true
        else if IsHighRate(r.topic) then r.at >= now - p.live
        else if !IsTelemetry(r.topic) then r.at >= now - p.other
        else r.at >= now - p.days && (r.at >= now - p.full || IsEarliest(rows, r, now, p)))
  {
    SelectMeans(rows, x => !Removed(rows, x, now, p), r);
    SuffixesDisjoint(r.topic);
    hide IsHighRate, IsTelemetry;
  }

  /** No telemetry between the two cut-offs, and in its bucket, came before it. */
  ghost predicate IsEarliest(rows: seq<Row>, r: Row, now: Time, p: Policy) {
    forall q | q in rows && !q.event && IsTelemetry(q.topic) && Bucket(q, p) == Bucket(r, p) ::
      now - p.days <= q.at < now - p.full ==> q.at > r.at || (q.at == r.at && q.tie >= r.tie)
  }

  /** Under which rule a message is counted. */
  lemma {:induction false} CountsMean(rows: seq<Row>, lines: nat, now: Time, p: Policy)
    ensures var c := CountsOf(rows, lines, now, p);
      && c.highRate == |Select(rows, (r: Row) => !r.event && IsHighRate(r.topic) && r.at < now - p.live)|
      && c.expired == |Select(rows, (r: Row) => !r.event && IsTelemetry(r.topic) && r.at < now - p.days)|
      && c.thinned == |Select(rows, (r: Row) =>
          !r.event && IsTelemetry(r.topic) && now - p.days <= r.at < now - p.full && !IsEarliest(rows, r, now, p))|
      && c.other ==
        |Select(rows, (r: Row) => !r.event && !IsHighRate(r.topic) && !IsTelemetry(r.topic) && r.at < now - p.other)|
      && c.logLines == lines
  {
    hide IsHighRate, IsTelemetry, Bucket;
    SelectSame(rows, r => HighRate(r, now, p), (r: Row) => !r.event && IsHighRate(r.topic) && r.at < now - p.live);
    SelectSame(rows, r => Expired(r, now, p), (r: Row) => !r.event && IsTelemetry(r.topic) && r.at < now - p.days);
    SelectSame(rows, r => Thinned(rows, r, now, p), (r: Row) =>
        !r.event && IsTelemetry(r.topic) && now - p.days <= r.at < now - p.full && !IsEarliest(rows, r, now, p));
    SelectSame(rows, r => Other(r, now, p), (r: Row) =>
        !r.event && !IsHighRate(r.topic) && !IsTelemetry(r.topic) && r.at < now - p.other);
  }

  ghost predicate InBucket(rows: seq<Row>, q: Row, now: Time, p: Policy, b: (nat, int)) {
    q in rows && InWindow(q, now, p) && Bucket(q, p) == b
  }

  /** Of every bucket in the thinning window one message stays, and it is the earliest. */
  lemma {:induction false} EarliestStays(rows: seq<Row>, now: Time, p: Policy, r: Row)
    requires InWindow(r, now, p)
    ensures r in Pruned(rows, now, p) <==>
      r in rows && forall q | InBucket(rows, q, now, p, Bucket(r, p)) :: !Earlier(q, r)
  {
    RulesDisjoint(r, now, p);
    SelectMeans(rows, x => !Removed(rows, x, now, p), r);
    if r in rows && !Thinned(rows, r, now, p) {
      forall q | InBucket(rows, q, now, p, Bucket(r, p)) ensures !Earlier(q, r) {
      }
    }
  }

  lemma {:induction false} BucketHasEarliest(rows: seq<Row>, now: Time, p: Policy, b: (nat, int), some: Row)
    returns (r: Row)
    requires InBucket(rows, some, now, p, b)
    ensures InBucket(rows, r, now, p, b) && forall q | InBucket(rows, q, now, p, b) :: !Earlier(q, r)
    decreases |rows|
  {
    hide InWindow, Bucket;
    var n := |rows| - 1;
    var front := rows[..n];
    assert rows == front + [rows[n]];
    forall q
      ensures InBucket(rows, q, now, p, b) <==>
        InBucket(front, q, now, p, b) || (q == rows[n] && InBucket([q], q, now, p, b))
    {
    }
    if q: Row :| InBucket(front, q, now, p, b) {
      r := BucketHasEarliest(front, now, p, b, q);
      if InBucket([rows[n]], rows[n], now, p, b) && Earlier(rows[n], r) {
        r := rows[n];
      }
    } else {
      r := rows[n];
    }
  }

  /** Running the job again at the same time removes nothing more. */
  lemma {:induction false} PruningIsIdempotent(rows: seq<Row>, now: Time, p: Policy)
    ensures Pruned(Pruned(rows, now, p), now, p) == Pruned(rows, now, p)
  {
    var left := Pruned(rows, now, p);
    forall r | r in left ensures !Removed(left, r, now, p) {
      SelectMeans(rows, x => !Removed(rows, x, now, p), r);
      forall q | q in left ensures q in rows {
        SelectMeans(rows, x => !Removed(rows, x, now, p), q);
      }
    }
    SelectAll(left, r => !Removed(left, r, now, p));
  }

  /** Every message is kept or counted under exactly one rule. */
  lemma {:induction false} EveryRowCounted(rows: seq<Row>, now: Time, p: Policy)
    ensures var c := CountsOf(rows, 0, now, p);
      |rows| == |Pruned(rows, now, p)| + c.highRate + c.expired + c.thinned + c.other
  {
    var h, e := (r: Row) => HighRate(r, now, p), (r: Row) => Expired(r, now, p);
    var t, o := (r: Row) => Thinned(rows, r, now, p), (r: Row) => Other(r, now, p);
    forall r | r in rows ensures !(h(r) && (e(r) || t(r) || o(r))) && !(e(r) && (t(r) || o(r))) && !(t(r) && o(r)) {
      RulesDisjoint(r, now, p);
    }
    FourRules(rows, h, e, t, o, r => !Removed(rows, r, now, p));
  }

  lemma {:induction false} FourRules(rows: seq<Row>, a: Row -> bool, b: Row -> bool, c: Row -> bool, d: Row -> bool,
      none: Row -> bool)
    requires forall r | r in rows :: !(a(r) && (b(r) || c(r) || d(r))) && !(b(r) && (c(r) || d(r))) && !(c(r) && d(r))
    requires forall r | r in rows :: none(r) == !(a(r) || b(r) || c(r) || d(r))
    ensures |rows| ==
      |Select(rows, none)| + |Select(rows, a)| + |Select(rows, b)| + |Select(rows, c)| + |Select(rows, d)|
  {
    if rows != [] {
      assert rows == rows[..|rows| - 1] + [rows[|rows| - 1]];
      FourRules(rows[..|rows| - 1], a, b, c, d, none);
    }
  }

  // ----------------------------------------------------------------- the rules in turn, on what the earlier ones left

  ghost predicate Rule(k: nat, table: seq<Row>, r: Row, now: Time, p: Policy) {
    if k == 0 then HighRate(r, now, p)
    else if k == 1 then Expired(r, now, p)
    else if k == 2 then Thinned(table, r, now, p)
    else Other(r, now, p)
  }

  ghost predicate Gone(k: nat, rows: seq<Row>, r: Row, now: Time, p: Policy) {
    exists j: nat :: j < k && Rule(j, rows, r, now, p)
  }

  /** What the first `k` rules leave. */
  ghost function Left(k: nat, rows: seq<Row>, now: Time, p: Policy): seq<Row> {
    Select(rows, r => !Gone(k, rows, r, now, p))
  }

  lemma {:induction false} GoneMore(k: nat, rows: seq<Row>, r: Row, now: Time, p: Policy)
    requires k < 4
    ensures Gone(k + 1, rows, r, now, p) <==> Gone(k, rows, r, now, p) || Rule(k, rows, r, now, p)
    ensures Rule(k, rows, r, now, p) ==> !Gone(k, rows, r, now, p)
    ensures Gone(4, rows, r, now, p) <==> Removed(rows, r, now, p)
  {
    RulesDisjoint(r, now, p);
    hide HighRate, Expired, InWindow, Other;
    assert Rule(0, rows, r, now, p) <==> HighRate(r, now, p);
    assert Rule(1, rows, r, now, p) <==> Expired(r, now, p);
    assert Rule(2, rows, r, now, p) <==> Thinned(rows, r, now, p);
    assert Rule(3, rows, r, now, p) <==> Other(r, now, p);
  }

  /** A rule finds the same rows whether or not the rules before it have already deleted theirs. */
  lemma {:induction false} RuleUndisturbed(k: nat, rows: seq<Row>, r: Row, now: Time, p: Policy)
    requires k < 4
    ensures Rule(k, Left(k, rows, now, p), r, now, p) == Rule(k, rows, r, now, p)
  {
    if k == 2 {
      var table := Left(k, rows, now, p);
      forall q ensures q in table && InWindow(q, now, p) <==> q in rows && InWindow(q, now, p) {
        SelectMeans(rows, x => !Gone(k, rows, x, now, p), q);
        RulesDisjoint(q, now, p);
      }
      WindowAlike(table, rows, r, now, p);
    }
  }

  lemma {:induction false} WindowAlike(a: seq<Row>, b: seq<Row>, r: Row, now: Time, p: Policy)
    requires forall q :: q in a && InWindow(q, now, p) <==> q in b && InWindow(q, now, p)
    ensures Thinned(a, r, now, p) == Thinned(b, r, now, p)
  {
    hide Bucket;
  }

  /** So it counts the same in a dry run as in a real one. */
  lemma {:induction false} CountUndisturbed(k: nat, rows: seq<Row>, now: Time, p: Policy)
    requires k < 4
    ensures var table := Left(k, rows, now, p);
      |Select(table, r => Rule(k, table, r, now, p))| == |Select(rows, r => Rule(k, rows, r, now, p))|
  {
    var table := Left(k, rows, now, p);
    forall r
      ensures Rule(k, table, r, now, p) == Rule(k, rows, r, now, p)
      ensures Rule(k, rows, r, now, p) ==> !Gone(k, rows, r, now, p)
    {
      RuleUndisturbed(k, rows, r, now, p);
      GoneMore(k, rows, r, now, p);
    }
    SelectTwice(rows, r => !Gone(k, rows, r, now, p), r => Rule(k, table, r, now, p), r => Rule(k, rows, r, now, p));
  }

  // ----------------------------------------------------------------- deleting by id

  function Without(rows: seq<Row>, ids: seq<nat>): seq<Row> {
    if rows == [] then []
    else Without(rows[..|rows| - 1], ids) + if rows[|rows| - 1].id in ids then [] else [rows[|rows| - 1]]
  }

  lemma {:induction false} WithoutIsSelect(rows: seq<Row>, ids: seq<nat>, keep: Row -> bool)
    requires forall r | r in rows :: r.id in ids <==> !keep(r)
    ensures Without(rows, ids) == Select(rows, keep)
  {
    if rows != [] {
      assert rows == rows[..|rows| - 1] + [rows[|rows| - 1]];
      WithoutIsSelect(rows[..|rows| - 1], ids, keep);
    }
  }

  lemma {:induction false} WithoutTwice(rows: seq<Row>, a: seq<nat>, b: seq<nat>)
    ensures Without(Without(rows, a), b) == Without(rows, a + b)
  {
    if rows != [] {
      var n := |rows| - 1;
      WithoutTwice(rows[..n], a, b);
      var kept := Without(rows[..n], a);
      assert kept + [] == kept;
      assert (kept + [rows[n]])[..|kept|] == kept;
    }
  }

  lemma {:induction false} WithoutNone(rows: seq<Row>)
    ensures Without(rows, []) == rows
  {
    if rows != [] {
      WithoutNone(rows[..|rows| - 1]);
      assert rows == rows[..|rows| - 1] + [rows[|rows| - 1]];
    }
  }

  lemma {:induction false} WithoutDistinct(rows: seq<Row>, ids: seq<nat>)
    requires Distinct(rows)
    ensures Distinct(Without(rows, ids)) && forall r | r in Without(rows, ids) :: r in rows
  {
    if rows != [] {
      var n := |rows| - 1;
      assert rows == rows[..n] + [rows[n]];
      WithoutDistinct(rows[..n], ids);
      var kept := Without(rows[..n], ids);
      forall i | 0 <= i < |kept| ensures kept[i].id != rows[n].id && kept[i].tie != rows[n].tie {
        assert kept[i] in rows[..n];
      }
    }
  }

  /** The ids of exactly the rows that a rule takes, once each. */
  ghost predicate Picked(ids: seq<nat>, rows: seq<Row>, rule: Row -> bool) {
    && NoRepeats(ids)
    && (forall r | r in rows :: r.id in ids <==> rule(r))
    && (forall x | x in ids :: exists r :: r in rows && r.id == x)
  }

  predicate NoRepeats(ids: seq<nat>) {
    forall i, j | 0 <= i < j < |ids| :: ids[i] != ids[j]
  }

  lemma {:induction false} TakeOut(ids: seq<nat>, x: nat) returns (others: seq<nat>)
    requires NoRepeats(ids) && x in ids
    ensures NoRepeats(others) && |others| == |ids| - 1
    ensures forall y :: y in others <==> y in ids && y != x
  {
    var k :| 0 <= k < |ids| && ids[k] == x;
    others := ids[..k] + ids[k + 1..];
    forall y | y in ids && y != x ensures y in others {
      var i :| 0 <= i < |ids| && ids[i] == y;
      assert if i < k then others[i] == y else others[i - 1] == y;
    }
  }

  lemma {:induction false} FirstIn(ids: seq<nat>)
    requires ids != []
    ensures ids[0] in ids
  {
  }

  lemma {:induction false} PickedCount(ids: seq<nat>, rows: seq<Row>, rule: Row -> bool)
    requires Picked(ids, rows, rule) && Distinct(rows)
    ensures |ids| == |Select(rows, rule)|
    decreases |rows|
  {
    if rows == [] {
      if ids != [] {
        FirstIn(ids);
      }
    } else {
      var n := |rows| - 1;
      var front, r := rows[..n], rows[n];
      assert rows == front + [r];
      OthersDiffer(front, r);
      if rule(r) {
        var others := TakeOut(ids, r.id);
        PickedCount(others, front, rule);
      } else {
        PickedCount(ids, front, rule);
      }
    }
  }

  lemma {:induction false} OthersDiffer(front: seq<Row>, r: Row)
    requires Distinct(front + [r])
    ensures Distinct(front) && forall q | q in front :: q.id != r.id
  {
    var rows := front + [r];
    assert forall i | 0 <= i < |front| :: rows[i] == front[i];
    assert rows[|front|] == r;
  }

  ghost predicate PicksRule(k: nat, ids: seq<nat>, rows: seq<Row>, now: Time, p: Policy) {
    Picked(ids, rows, r => Rule(k, rows, r, now, p))
  }

  /** One rule done: it has counted what it would count on the whole table, and left what the rules so far leave. */
  lemma {:induction false} RuleDone(k: nat, rows: seq<Row>, table: seq<Row>, ids: seq<nat>, dryRun: bool, now: Time,
      p: Policy)
    requires k < 4 && Distinct(rows) && Distinct(table)
    requires table == if dryRun then rows else Left(k, rows, now, p)
    requires PicksRule(k, ids, table, now, p)
    ensures |ids| == |Select(rows, r => Rule(k, rows, r, now, p))|
    ensures !dryRun ==> Without(table, ids) == Left(k + 1, rows, now, p)
  {
    hide Rule, Gone;
    PickedCount(ids, table, r => Rule(k, table, r, now, p));
    if !dryRun {
      CountUndisturbed(k, rows, now, p);
      forall r ensures Gone(k + 1, rows, r, now, p) <==> Gone(k, rows, r, now, p) || Rule(k, table, r, now, p) {
        GoneMore(k, rows, r, now, p);
        RuleUndisturbed(k, rows, r, now, p);
      }
      WithoutIsSelect(table, ids, r => !Rule(k, table, r, now, p));
      SelectTwice(rows, r => !Gone(k, rows, r, now, p), r => !Rule(k, table, r, now, p),
          r => !Gone(k + 1, rows, r, now, p));
    }
  }

  lemma {:induction false} RulesBegin(rows: seq<Row>, now: Time, p: Policy)
    ensures Left(0, rows, now, p) == rows
  {
    SelectAll(rows, r => !Gone(0, rows, r, now, p));
  }

  lemma {:induction false} RulesEnd(rows: seq<Row>, now: Time, p: Policy)
    ensures Left(4, rows, now, p) == Pruned(rows, now, p)
  {
    forall r ensures Gone(4, rows, r, now, p) == Removed(rows, r, now, p) {
      GoneMore(3, rows, r, now, p);
    }
    SelectSame(rows, r => !Gone(4, rows, r, now, p), r => !Removed(rows, r, now, p));
  }

  lemma {:induction false} RuleCounts(rows: seq<Row>, lines: nat, now: Time, p: Policy)
    ensures CountsOf(rows, lines, now, p) == Counts(
      |Select(rows, r => Rule(0, rows, r, now, p))|, |Select(rows, r => Rule(1, rows, r, now, p))|,
      |Select(rows, r => Rule(2, rows, r, now, p))|, |Select(rows, r => Rule(3, rows, r, now, p))|, lines)
  {
    SelectSame(rows, r => HighRate(r, now, p), r => Rule(0, rows, r, now, p));
    SelectSame(rows, r => Expired(r, now, p), r => Rule(1, rows, r, now, p));
    SelectSame(rows, r => Thinned(rows, r, now, p), r => Rule(2, rows, r, now, p));
    SelectSame(rows, r => Other(r, now, p), r => Rule(3, rows, r, now, p));
  }

  /** The log lines that are not too old. */
  function KeptLines(lines: seq<LogLine>, from: Time): (kept: seq<LogLine>)
    ensures |kept| <= |lines|
  {
    if lines == [] then []
    else KeptLines(lines[..|lines| - 1], from) + if lines[|lines| - 1].at >= from then [lines[|lines| - 1]] else []
  }

  /** A line is kept, as often as it is there, exactly if it is not from before the cut-off. */
  lemma {:induction false} KeptLinesMean(lines: seq<LogLine>, from: Time, line: LogLine)
    ensures multiset(KeptLines(lines, from))[line] == if line.at < from then 0 else multiset(lines)[line]
  {
    if lines != [] {
      var n := |lines| - 1;
      KeptLinesMean(lines[..n], from, line);
      assert lines == lines[..n] + [lines[n]];
    }
  }

  // ----------------------------------------------------------------- the job

  predicate Ordered(rows: seq<Row>) {
    forall i, j | 0 <= i < j < |rows| :: Earlier(rows[i], rows[j])
  }

  lemma {:induction false} Inserted(sorted: seq<Row>, k: nat, r: Row)
    requires Ordered(sorted) && k <= |sorted| && forall q | q in sorted :: q.tie != r.tie
    requires forall j | 0 <= j < k :: Earlier(sorted[j], r)
    requires k < |sorted| ==> !Earlier(sorted[k], r)
    ensures Ordered(sorted[..k] + [r] + sorted[k..])
  {
    var out := sorted[..k] + [r] + sorted[k..];
    forall i, j | 0 <= i < j < |out| ensures Earlier(out[i], out[j]) {
      if j > k {
        assert out[j] == sorted[j - 1] && sorted[j - 1] in sorted;
      }
    }
  }

  class Database {
    var rows: seq<Row>
    var lines: seq<LogLine>

    ghost predicate Valid()
      reads this
    {
      Distinct(rows)
    }

    constructor (messages: seq<Row>, log: seq<LogLine>)
      requires Distinct(messages)
      ensures Valid() && rows == messages && lines == log
    {
      rows, lines := messages, log;
    }

    /** The rows whose id is in one batch go. */
    method DeleteBatch(ids: seq<nat>)
      requires Valid()
      modifies this`rows
      ensures Valid() && rows == Without(old(rows), ids)
    {
      var left: seq<Row> := [];
      var i := 0;
      while i < |rows|
        invariant 0 <= i <= |rows| && left == Without(rows[..i], ids)
      {
        assert rows[..i + 1][..i] == rows[..i];
        if rows[i].id !in ids {
          left := left + [rows[i]];
        }
        i := i + 1;
      }
      assert rows[..|rows|] == rows;
      WithoutDistinct(rows, ids);
      rows := left;
    }

    /** All of them, in batches; only counted when the run is dry. */
    method DeleteIds(ids: seq<nat>, dryRun: bool) returns (n: nat)
      requires Valid()
      modifies this`rows
      ensures Valid() && n == |ids| && rows == if dryRun then old(rows) else Without(old(rows), ids)
    {
      if !dryRun {
        var start := 0;
        WithoutNone(rows);
        while start < |ids|
          invariant 0 <= start <= |ids| && Valid() && rows == Without(old(rows), ids[..start])
        {
          var end := if start + BATCH < |ids| then start + BATCH else |ids|;
          DeleteBatch(ids[start..end]);
          assert ids[..end] == ids[..start] + ids[start..end];
          WithoutTwice(old(rows), ids[..start], ids[start..end]);
          start := end;
        }
        assert ids[..|ids|] == ids;
      }
      n := |ids|;
    }

    /** The ids of the rows that a rule takes. */
    method IdsWhere(rule: Row -> bool) returns (ids: seq<nat>)
      requires Valid()
      ensures Picked(ids, rows, rule)
    {
      ids := [];
      var i := 0;
      while i < |rows|
        invariant 0 <= i <= |rows| && NoRepeats(ids)
        invariant forall j | 0 <= j < i :: rows[j].id in ids <==> rule(rows[j])
        invariant forall x | x in ids :: exists j :: 0 <= j < i && rows[j].id == x
      {
        assert rows[i].id !in ids;
        if rule(rows[i]) {
          ghost var were := ids;
          ids := ids + [rows[i].id];
          assert forall x :: x in ids <==> x in were || x == rows[i].id;
        }
        i := i + 1;
      }
    }

    /** The rows of the thinning window in the order they were received. */
    method Window(now: Time, p: Policy) returns (window: seq<Row>)
      requires Valid()
      ensures Ordered(window) && forall r :: r in window <==> r in rows && InWindow(r, now, p)
    {
      hide InWindow;
      window := [];
      var i := 0;
      while i < |rows|
        invariant 0 <= i <= |rows| && Ordered(window)
        invariant forall r :: r in window <==> r in rows[..i] && InWindow(r, now, p)
      {
        assert rows[..i + 1] == rows[..i] + [rows[i]];
        if InWindow(rows[i], now, p) {
          window := Insert(window, rows[i]);
        }
        i := i + 1;
      }
      assert rows[..|rows|] == rows;
    }

    static method Insert(sorted: seq<Row>, r: Row) returns (out: seq<Row>)
      requires Ordered(sorted) && forall q | q in sorted :: q.tie != r.tie
      ensures Ordered(out) && forall q :: q in out <==> q in sorted || q == r
    {
      var k := 0;
      while k < |sorted| && Earlier(sorted[k], r)
        invariant 0 <= k <= |sorted| && forall j | 0 <= j < k :: Earlier(sorted[j], r)
      {
        k := k + 1;
      }
      Inserted(sorted, k, r);
      out := sorted[..k] + [r] + sorted[k..];
      assert forall q | q in sorted :: q in sorted[..k] || q in sorted[k..];
    }

    /** The ids to thin out: in the order received, every row whose bucket has been seen before. */
    static method Repeated(window: seq<Row>, p: Policy) returns (ids: seq<nat>)
      requires Distinct(window)
      ensures NoRepeats(ids) && IdsFrom(ids, window, |window|)
      ensures forall j: nat | j < |window| :: window[j].id in ids <==> SeenBefore(window, j, p)
    {
      hide Bucket, Distinct, NoRepeats, IdsFrom, SeenBefore;
      var seen: set<(nat, int)> := {};
      ids := [];
      NoIdsYet(window);
      var i := 0;
      while i < |window|
        invariant 0 <= i <= |window| && NoRepeats(ids) && IdsFrom(ids, window, i)
        invariant forall b :: b in seen <==> exists j :: 0 <= j < i && Bucket(window[j], p) == b
        invariant forall j: nat | j < i :: window[j].id in ids <==> SeenBefore(window, j, p)
      {
        var bucket := Bucket(window[i], p);
        OneMoreId(ids, window, i);
        SeenOrNot(window, i, p);
        if bucket in seen {
          ids := ids + [window[i].id];
        } else {
          seen := seen + {bucket};
        }
        i := i + 1;
      }
    }

    method ThinIds(now: Time, p: Policy) returns (ids: seq<nat>)
      requires Valid()
      ensures PicksRule(2, ids, rows, now, p)
    {
      var window := Window(now, p);
      WindowDistinct(window, rows, now, p);
      ids := Repeated(window, p);
      ThinnedByOrder(window, ids, rows, now, p);
    }

    method PruneLines(from: Time, dryRun: bool) returns (n: nat)
      modifies this`lines
      ensures n + |KeptLines(old(lines), from)| == |old(lines)|
      ensures lines == if dryRun then old(lines) else KeptLines(old(lines), from)
      ensures !dryRun ==> forall line | line in lines :: line.at >= from
    {
      var left: seq<LogLine> := [];
      var i := 0;
      n := 0;
      while i < |lines|
        invariant 0 <= i <= |lines| && left == KeptLines(lines[..i], from) && n + |left| == i
        invariant forall line | line in left :: line.at >= from
      {
        assert lines[..i + 1][..i] == lines[..i];
        if lines[i].at >= from {
          left := left + [lines[i]];
        } else {
          n := n + 1;
        }
        i := i + 1;
      }
      assert lines[..|lines|] == lines;
      if !dryRun {
        lines := left;
      }
    }

    /**
     One run: the rules in turn, each on what the earlier ones left. A dry run counts the same and removes nothing.
     */
    method Prune(now: Time, p: Policy, dryRun: bool) returns (c: Counts)
      requires Valid()
      modifies this
      ensures Valid()
      ensures c == CountsOf(old(rows), |old(lines)| - |KeptLines(old(lines), now - p.log)|, now, p)
      ensures rows == if dryRun then old(rows) else Pruned(old(rows), now, p)
      ensures lines == if dryRun then old(lines) else KeptLines(old(lines), now - p.log)
    {
      hide Rule, Left, CountsOf, Pruned, HighRate, Expired, Other, KeptLines, Without, Picked;
      ghost var all := rows;
      RulesBegin(rows, now, p);
      var ids := IdsWhere(r => HighRate(r, now, p));
      RuleNamed(0, ids, rows, now, p);
      RuleDone(0, all, rows, ids, dryRun, now, p);
      var highRate := DeleteIds(ids, dryRun);
      ids := IdsWhere(r => Expired(r, now, p));
      RuleNamed(1, ids, rows, now, p);
      RuleDone(1, all, rows, ids, dryRun, now, p);
      var expired := DeleteIds(ids, dryRun);
      ids := ThinIds(now, p);
      RuleDone(2, all, rows, ids, dryRun, now, p);
      var thinned := DeleteIds(ids, dryRun);
      ids := IdsWhere(r => Other(r, now, p));
      RuleNamed(3, ids, rows, now, p);
      RuleDone(3, all, rows, ids, dryRun, now, p);
      var other := DeleteIds(ids, dryRun);
      var oldLines := PruneLines(now - p.log, dryRun);
      RulesEnd(all, now, p);
      RuleCounts(all, oldLines, now, p);
      c := Counts(highRate, expired, thinned, other, oldLines);
    }
  }

  lemma {:induction false} RuleNamed(k: nat, ids: seq<nat>, rows: seq<Row>, now: Time, p: Policy)
    ensures k == 0 && Picked(ids, rows, r => HighRate(r, now, p)) ==> PicksRule(k, ids, rows, now, p)
    ensures k == 1 && Picked(ids, rows, r => Expired(r, now, p)) ==> PicksRule(k, ids, rows, now, p)
    ensures k == 3 && Picked(ids, rows, r => Other(r, now, p)) ==> PicksRule(k, ids, rows, now, p)
  {
  }

  ghost predicate SeenBefore(window: seq<Row>, j: nat, p: Policy)
    requires j < |window|
  {
    exists k :: 0 <= k < j && Bucket(window[k], p) == Bucket(window[j], p)
  }

  ghost predicate IdsFrom(ids: seq<nat>, window: seq<Row>, i: nat)
    requires i <= |window|
  {
    forall x | x in ids :: exists j :: 0 <= j < i && window[j].id == x
  }

  lemma {:induction false} NoIdsYet(window: seq<Row>)
    ensures NoRepeats([]) && IdsFrom([], window, 0)
  {
  }

  lemma {:induction false} SeenOrNot(window: seq<Row>, i: nat, p: Policy)
    requires i < |window|
    ensures SeenBefore(window, i, p) <==> exists j :: 0 <= j < i && Bucket(window[j], p) == Bucket(window[i], p)
  {
  }

  /** The next row's id is new, and taking it in or not leaves what is known of the others. */
  lemma {:induction false} OneMoreId(ids: seq<nat>, window: seq<Row>, i: nat)
    requires i < |window| && Distinct(window) && NoRepeats(ids) && IdsFrom(ids, window, i)
    ensures window[i].id !in ids && IdsFrom(ids, window, i + 1)
    ensures var more := ids + [window[i].id];
      && NoRepeats(more) && IdsFrom(more, window, i + 1)
      && window[i].id in more && forall j | 0 <= j < i :: window[j].id in more <==> window[j].id in ids
  {
    var more := ids + [window[i].id];
    assert forall x :: x in more <==> x in ids || x == window[i].id;
  }

  lemma {:induction false} WindowDistinct(window: seq<Row>, rows: seq<Row>, now: Time, p: Policy)
    requires Distinct(rows) && Ordered(window) && forall r | r in window :: r in rows
    ensures Distinct(window)
  {
    forall i, j | 0 <= i < j < |window| ensures window[i].id != window[j].id && window[i].tie != window[j].tie {
      assert window[i] in rows && window[j] in rows && window[i] != window[j];
    }
  }

  /** A row of the ordered window is thinned exactly if its bucket was seen before it. */
  lemma {:induction false} ThinnedAt(window: seq<Row>, rows: seq<Row>, j: nat, now: Time, p: Policy)
    requires Ordered(window) && (forall r :: r in window <==> r in rows && InWindow(r, now, p)) && j < |window|
    ensures Thinned(rows, window[j], now, p) <==> SeenBefore(window, j, p)
  {
    hide Bucket, InWindow;
    var r := window[j];
    assert r in window;
    if q :| q in rows && InWindow(q, now, p) && Bucket(q, p) == Bucket(r, p) && Earlier(q, r) {
      assert q in window;
      var k :| 0 <= k < |window| && window[k] == q;
      assert k < j;
    }
    if k :| 0 <= k < j && Bucket(window[k], p) == Bucket(r, p) {
      assert window[k] in window && Earlier(window[k], r);
    }
  }

  lemma {:induction false} ThinnedByOrder(window: seq<Row>, ids: seq<nat>, rows: seq<Row>, now: Time, p: Policy)
    requires Distinct(rows) && Ordered(window) && forall r :: r in window <==> r in rows && InWindow(r, now, p)
    requires NoRepeats(ids) && IdsFrom(ids, window, |window|)
    requires forall j: nat | j < |window| :: window[j].id in ids <==> SeenBefore(window, j, p)
    ensures PicksRule(2, ids, rows, now, p)
  {
    hide Bucket, InWindow, SeenBefore;
    forall r | r in rows ensures r.id in ids <==> Thinned(rows, r, now, p) {
      if r in window {
        var j: nat :| j < |window| && window[j] == r;
        ThinnedAt(window, rows, j, now, p);
      } else {
        NotPicked(window, ids, rows, r);
      }
    }
    forall x | x in ids ensures exists r :: r in rows && r.id == x {
      var j :| 0 <= j < |window| && window[j].id == x;
      assert window[j] in window && window[j] in rows;
    }
  }

  lemma {:induction false} NotPicked(window: seq<Row>, ids: seq<nat>, rows: seq<Row>, r: Row)
    requires Distinct(rows) && r in rows && r !in window && forall q | q in window :: q in rows
    requires IdsFrom(ids, window, |window|)
    ensures r.id !in ids
  {
    forall j | 0 <= j < |window| ensures window[j].id != r.id {
      assert window[j] in window && window[j] in rows;
      SameIdSameRow(rows, window[j], r);
    }
  }

  lemma {:induction false} SameIdSameRow(rows: seq<Row>, a: Row, b: Row)
    requires Distinct(rows) && a in rows && b in rows && a != b
    ensures a.id != b.id && a.tie != b.tie
  {
  }
}
