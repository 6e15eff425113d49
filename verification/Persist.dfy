/**
 Storing one message: its place in the boot and sequence order decides whether it may change the controller's
 latest values and incidents. The order needs no clock, so the outcome does not depend on when, or how often,
 an old message is delivered again.
 */
module Persist {
  import opened Options
  import Merge
  import Incidents
  import Seqs

  type Time = int

  datatype Kind = Status | SafetyEvent | Telemetry(o: Incidents.Obs) | OtherFields

  /**
   A message as the order and the merge see it. An empty boot id is a missing one; `source` is its own time,
   `now` when it was received. `o` is the state that a telemetry message reports.
   */
  datatype Message = Message(
    kind: Kind, retained: bool, boot: string, sequence: Option<int>, items: seq<Merge.Item>,
    source: Option<Time>, now: Time)

  datatype Order = InOrder | Duplicate | Historical

  /**
   What a message may change in order only: the latest values with their stamps, the incidents, the snapshot's time.
   */
  datatype Core = Core(latest: Merge.State, rows: seq<Incidents.Incident>, snapshot: Option<Time>)

  datatype Device = Device(boot: string, last: Option<int>, restarts: nat, core: Core)

  // ----------------------------------------------------------------- one message

  predicate Ordered(m: Message) {
    !m.retained && m.boot != "" && m.sequence.Some?
  }

  function TrackBoot(d: Device, m: Message): (Device, Order) {
    if !Ordered(m) then (d, InOrder)
    else if d.boot == m.boot then
      if d.last.Some? && m.sequence.value <= d.last.value then
        (d, if m.sequence == d.last then Duplicate else Historical)
      else (d.(last := m.sequence), InOrder)
    else
      var e := d.(boot := m.boot, last := m.sequence);
      if d.boot == "" then (e, InOrder)
      else
        var rows := Incidents.Step(d.core.rows, Incidents.NewBoot(m.now));
        (e.(restarts := d.restarts + 1, core := d.core.(rows := rows)), InOrder)
  }

  /** Only live messages with a boot id and a sequence number take part in the order; any other is let through. */
  lemma {:induction false} OrderedExactly(d: Device, m: Message)
    ensures m.retained || m.boot == "" || m.sequence.None? ==> TrackBoot(d, m) == (d, InOrder)
    ensures !(m.retained || m.boot == "" || m.sequence.None?) ==>
      var (t, order) := TrackBoot(d, m);
      t.boot == m.boot && t.last.Some? && t.last.value >= m.sequence.value
      && (order.InOrder? <==> t.last == m.sequence && (d.boot == m.boot ==> d.last != m.sequence))
  {
    hide Incidents.Step;
  }

  function Stamp(m: Message): Option<Time> {
    if m.retained then None
    else if m.source.Some? && m.source.value < m.now then m.source
    else Some(m.now)
  }

  /** A live stamp is the earlier of the two times, so it never lies in the future. */
  lemma {:induction false} StampIsEarlier(m: Message)
    ensures Stamp(m).None? <==> m.retained
    ensures !m.retained ==> Stamp(m).value <= m.now && (m.source.Some? ==> Stamp(m).value <= m.source.value)
    ensures !m.retained ==> Stamp(m).value == m.now || Stamp(m) == m.source
  {
  }

  /** Telemetry older than the last snapshot, by the controller's own clock. */
  predicate Stale(c: Core, m: Message) {
    m.kind.Telemetry? && m.source.Some? && c.snapshot.Some? && m.source.value < c.snapshot.value
  }

  function Take(c: Core, m: Message): Core {
    if m.kind.Status? || m.kind.SafetyEvent? || Stale(c, m) then c
    else
      var merged := c.(latest := Merge.MergeItems(c.latest, m.items, Stamp(m), m.retained, ""));
      if m.retained || !m.kind.Telemetry? then merged
      else
        merged.(snapshot := if m.source.Some? then Stamp(m) else None,
                rows := Incidents.Step(c.rows, Incidents.Seen(m.kind.o.(at := m.now))))
  }

  function Store(d: Device, m: Message): Device {
    var (e, order) := TrackBoot(d, m);
    if order.InOrder? then e.(core := Take(e.core, m)) else e
  }

  function Run(d: Device, ms: seq<Message>): Device {
    if ms == [] then d else Store(Run(d, ms[..|ms| - 1]), ms[|ms| - 1])
  }

  // ----------------------------------------------------------------- within one boot

  /** All ordered messages are of one boot. */
  predicate OneBoot(ms: seq<Message>, boot: string) {
    boot != "" && forall i | 0 <= i < |ms| && Ordered(ms[i]) :: ms[i].boot == boot
  }

  function Higher(a: Option<int>, b: Option<int>): Option<int> {
    if a.None? then b else if b.None? then a else if b.value > a.value then b else a
  }

  /** The highest sequence number so far. */
  function Top(last: Option<int>, ms: seq<Message>): Option<int> {
    if ms == [] then last
    else
      var m := ms[|ms| - 1];
      if Ordered(m) then Higher(Top(last, ms[..|ms| - 1]), m.sequence) else Top(last, ms[..|ms| - 1])
  }

  /** An unordered message, or one whose sequence number exceeds all earlier ones. */
  predicate Rises(last: Option<int>, before: seq<Message>, m: Message) {
    Ordered(m) ==> var top := Top(last, before); top.None? || m.sequence.value > top.value
  }

  /** The strict running maxima, with the unordered messages in their places. */
  function Maxima(last: Option<int>, ms: seq<Message>): seq<Message> {
    if ms == [] then []
    else
      var front := ms[..|ms| - 1];
      Maxima(last, front) + if Rises(last, front, ms[|ms| - 1]) then [ms[|ms| - 1]] else []
  }

  lemma {:induction false} TopMeans(last: Option<int>, ms: seq<Message>)
    ensures last.Some? ==> Top(last, ms).Some? && Top(last, ms).value >= last.value
    ensures forall i | 0 <= i < |ms| && Ordered(ms[i]) ::
      Top(last, ms).Some? && Top(last, ms).value >= ms[i].sequence.value
    ensures Top(last, ms) == last || exists i :: 0 <= i < |ms| && Ordered(ms[i]) && Top(last, ms) == ms[i].sequence
  {
    if ms != [] {
      var n := |ms| - 1;
      TopMeans(last, ms[..n]);
      if Top(last, ms) == Top(last, ms[..n]) && Top(last, ms) != last {
        var i :| 0 <= i < n && Ordered(ms[..n][i]) && Top(last, ms[..n]) == ms[..n][i].sequence;
        assert ms[i] == ms[..n][i];
      }
      forall i | 0 <= i < |ms| && Ordered(ms[i])
        ensures Top(last, ms).Some? && Top(last, ms).value >= ms[i].sequence.value
      {
        if i < n {
          assert ms[..n][i] == ms[i];
        }
      }
    }
  }

  lemma {:induction false} BootKept(d: Device, ms: seq<Message>)
    requires OneBoot(ms, d.boot)
    ensures Run(d, ms).boot == d.boot && Run(d, ms).last == Top(d.last, ms) && Run(d, ms).restarts == d.restarts
  {
    if ms != [] {
      hide Take;
      BootKept(d, ms[..|ms| - 1]);
    }
  }

  /** How a message is judged within a boot: by its sequence number against the highest one before it. */
  lemma {:induction false} JudgedByTop(d: Device, ms: seq<Message>, m: Message)
    requires OneBoot(ms, d.boot) && (Ordered(m) ==> m.boot == d.boot)
    ensures var order := TrackBoot(Run(d, ms), m).1; var top := Top(d.last, ms);
      && (order.InOrder? <==> Rises(d.last, ms, m))
      && (order.Duplicate? <==> Ordered(m) && m.sequence == top)
      && (order.Historical? <==> Ordered(m) && top.Some? && m.sequence.value < top.value)
  {
    BootKept(d, ms);
    hide Run, Top;
  }

  predicate AtMost(ms: seq<Message>, top: Option<int>) {
    forall i | 0 <= i < |ms| && Ordered(ms[i]) :: top.Some? && ms[i].sequence.value <= top.value
  }

  predicate StrictlyRise(ms: seq<Message>) {
    forall i, j | 0 <= i < j < |ms| && Ordered(ms[i]) && Ordered(ms[j]) :: ms[i].sequence.value < ms[j].sequence.value
  }

  /** The ordered messages among the maxima have strictly rising sequence numbers, none above the highest of all. */
  lemma {:induction false} MaximaRise(last: Option<int>, ms: seq<Message>)
    ensures AtMost(Maxima(last, ms), Top(last, ms)) && StrictlyRise(Maxima(last, ms))
  {
    if ms != [] {
      var n := |ms| - 1;
      MaximaRise(last, ms[..n]);
      var kept, top := Maxima(last, ms[..n]), Top(last, ms[..n]);
      assert kept + [] == kept;
      if Rises(last, ms[..n], ms[n]) {
        RiseMore(kept, ms[n], top, Top(last, ms));
      }
    }
  }

  lemma {:induction false} RiseMore(kept: seq<Message>, m: Message, top: Option<int>, higher: Option<int>)
    requires AtMost(kept, top) && StrictlyRise(kept)
    requires if Ordered(m) then (top.Some? ==> m.sequence.value > top.value) && higher == m.sequence else higher == top
    ensures AtMost(kept + [m], higher) && StrictlyRise(kept + [m])
  {
  }

  /** While the boot lasts, the outcome is that of the strict running maxima alone. */
  lemma {:induction false} OnlyMaximaCount(d: Device, ms: seq<Message>)
    requires OneBoot(ms, d.boot)
    ensures Run(d, ms) == Run(d, Maxima(d.last, ms))
  {
    if ms != [] {
      var n := |ms| - 1;
      var front, m := ms[..n], ms[n];
      OnlyMaximaCount(d, front);
      JudgedByTop(d, front, m);
      var kept := Maxima(d.last, front);
      assert (kept + [m])[..|kept|] == kept;
      assert kept + [] == kept;
      hide Take, Rises;
      if !Rises(d.last, front, m) {
        NotInOrderNoChange(Run(d, front), m);
      }
    }
  }

  lemma {:induction false} NotInOrderNoChange(d: Device, m: Message)
    requires !TrackBoot(d, m).1.InOrder?
    ensures Store(d, m) == d
  {
  }

  /** Delivering any ordered message of the boot again, at any later point, changes nothing. */
  lemma {:induction false} RedeliveryChangesNothing(d: Device, ms: seq<Message>, more: seq<Message>, again: Message)
    requires OneBoot(ms + more, d.boot) && Ordered(again) && again.boot == d.boot
    requires exists i :: 0 <= i < |ms| && Ordered(ms[i]) && ms[i].sequence == again.sequence
    ensures Run(d, ms + [again] + more) == Run(d, ms + more)
    decreases |more|
  {
    hide Run, Store, OneBoot, Ordered, Top;
    if more == [] {
      assert ms + [again] + [] == ms + [again] && ms + [] == ms;
      RunOn(d, ms, again);
      NotNew(d, ms, again);
      NotInOrderNoChange(Run(d, ms), again);
    } else {
      var n := |more| - 1;
      assert ms + [again] + more == ms + [again] + more[..n] + [more[n]];
      assert ms + more == ms + more[..n] + [more[n]];
      RunOn(d, ms + [again] + more[..n], more[n]);
      RunOn(d, ms + more[..n], more[n]);
      OneBootFront(ms + more[..n], more[n], d.boot);
      RedeliveryChangesNothing(d, ms, more[..n], again);
    }
  }

  lemma {:induction false} RunOn(d: Device, ms: seq<Message>, m: Message)
    ensures Run(d, ms + [m]) == Store(Run(d, ms), m)
  {
    hide Store;
    assert (ms + [m])[..|ms|] == ms;
  }

  lemma {:induction false} OneBootFront(ms: seq<Message>, m: Message, boot: string)
    requires OneBoot(ms + [m], boot)
    ensures OneBoot(ms, boot)
  {
    assert forall i | 0 <= i < |ms| :: ms[i] == (ms + [m])[i];
  }

  lemma {:induction false} NotNew(d: Device, ms: seq<Message>, again: Message)
    requires OneBoot(ms, d.boot) && Ordered(again) && again.boot == d.boot
    requires exists i :: 0 <= i < |ms| && Ordered(ms[i]) && ms[i].sequence == again.sequence
    ensures !TrackBoot(Run(d, ms), again).1.InOrder?
  {
    TopMeans(d.last, ms);
    JudgedByTop(d, ms, again);
    hide Run, Top, OneBoot;
  }

  // ----------------------------------------------------------------- across boots

  /** The boot of the newest ordered message. */
  function LastBoot(boot: string, ms: seq<Message>): string {
    if ms == [] then boot
    else if Ordered(ms[|ms| - 1]) then ms[|ms| - 1].boot
    else LastBoot(boot, ms[..|ms| - 1])
  }

  /** How often an ordered message named another boot than the one before it. */
  function Changes(boot: string, ms: seq<Message>): nat {
    if ms == [] then 0
    else
      var front, m := ms[..|ms| - 1], ms[|ms| - 1];
      var last := LastBoot(boot, front);
      Changes(boot, front) + if Ordered(m) && last != "" && last != m.boot then 1 else 0
  }

  /** A restart is logged for each such change, and for nothing else. */
  lemma {:induction false} RestartsAreChanges(d: Device, ms: seq<Message>)
    ensures Run(d, ms).boot == LastBoot(d.boot, ms)
    ensures Run(d, ms).restarts == d.restarts + Changes(d.boot, ms)
  {
    if ms != [] {
      hide Take;
      RestartsAreChanges(d, ms[..|ms| - 1]);
    }
  }

  /** All boots that the controller is known to have had. */
  function Boots(boot: string, ms: seq<Message>): set<string> {
    if ms == [] then if boot == "" then {} else {boot}
    else
      var front, m := ms[..|ms| - 1], ms[|ms| - 1];
      Boots(boot, front) + if Ordered(m) then {m.boot} else {}
  }

  /** The restarts there really were: one less than the boots. */
  function RealRestarts(boot: string, ms: seq<Message>): nat {
    if Boots(boot, ms) == {} then 0 else |Boots(boot, ms)| - 1
  }

  /** An ordered message names the boot of the ordered message before it, or one never seen. */
  predicate OnTime(boot: string, before: seq<Message>, m: Message) {
    Ordered(m) && m.boot in Boots(boot, before) ==> m.boot == LastBoot(boot, before)
  }

  /** No ordered message comes from a boot that had already been left. */
  predicate InTurn(boot: string, ms: seq<Message>) {
    forall k | 0 <= k < |ms| :: OnTime(boot, ms[..k], ms[k])
  }

  lemma {:induction false} InTurnOneMore(boot: string, ms: seq<Message>)
    requires ms != []
    ensures var n := |ms| - 1; InTurn(boot, ms) <==> InTurn(boot, ms[..n]) && OnTime(boot, ms[..n], ms[n])
  {
    var n := |ms| - 1;
    var front := ms[..n];
    hide OnTime;
    assert forall k | 0 <= k < n :: front[..k] == ms[..k] && front[k] == ms[k];
    if InTurn(boot, front) && OnTime(boot, front, ms[n]) {
      forall k | 0 <= k < |ms| ensures OnTime(boot, ms[..k], ms[k]) {
        if k < n {
          assert OnTime(boot, front[..k], front[k]);
        }
      }
    }
    if InTurn(boot, ms) {
      forall k | 0 <= k < n ensures OnTime(boot, front[..k], front[k]) {
        assert OnTime(boot, ms[..k], ms[k]);
      }
    }
  }

  lemma {:induction false} LastBootSeen(boot: string, ms: seq<Message>)
    ensures if LastBoot(boot, ms) == "" then Boots(boot, ms) == {} else LastBoot(boot, ms) in Boots(boot, ms)
  {
    if ms != [] {
      LastBootSeen(boot, ms[..|ms| - 1]);
    }
  }

  lemma {:induction false} ChangesCoverBoots(boot: string, ms: seq<Message>)
    ensures Changes(boot, ms) >= RealRestarts(boot, ms)
    ensures Changes(boot, ms) == RealRestarts(boot, ms) <==> InTurn(boot, ms)
  {
    if ms != [] {
      var front, m := ms[..|ms| - 1], ms[|ms| - 1];
      ChangesCoverBoots(boot, front);
      InTurnOneMore(boot, ms);
      LastBootSeen(boot, front);
      hide InTurn;
      if Ordered(m) && m.boot in Boots(boot, front) {
        assert Boots(boot, front) + {m.boot} == Boots(boot, front);
      }
    }
  }

  /**
   A restart is logged for every restart there was, and for nothing else exactly when no message comes from a boot
   that had already been left.
   */
  lemma {:induction false} RestartsAreReal(d: Device, ms: seq<Message>)
    ensures Run(d, ms).restarts - d.restarts >= RealRestarts(d.boot, ms)
    ensures Run(d, ms).restarts - d.restarts == RealRestarts(d.boot, ms) <==> InTurn(d.boot, ms)
  {
    RestartsAreChanges(d, ms);
    ChangesCoverBoots(d.boot, ms);
  }

  /**
   So a message of the old boot that arrives after one of the new boot counts as another restart, is taken in
   order, and makes the next message of the new boot a third.
   */
  lemma {:induction false} LateMessageLooksLikeRestart(d: Device, next: Message, late: Message)
    requires d.boot != "" && Ordered(next) && next.boot != d.boot
    requires Ordered(late) && late.boot == d.boot
    ensures Run(d, [next, late]).restarts == d.restarts + 2
    ensures TrackBoot(Run(d, [next]), late).1.InOrder?
    ensures Run(d, [next, late, next]).restarts == d.restarts + 3
  {
    var a, b, c := [next], [next, late], [next, late, next];
    assert a[..0] == [] && b[..1] == a && c[..2] == b;
    assert Changes(d.boot, []) == 0 && Changes(d.boot, a) == 1 && Changes(d.boot, b) == 2 && Changes(d.boot, c) == 3;
    RestartsAreChanges(d, a);
    RestartsAreChanges(d, b);
    RestartsAreChanges(d, c);
  }

  // ----------------------------------------------------------------- what a stream of messages leaves

  /** No ordered message from `j` on, before `k`, names another boot. */
  predicate AllOf(ms: seq<Message>, j: nat, k: nat, boot: string)
    requires k <= |ms|
  {
    forall i: nat | j <= i < k && Ordered(ms[i]) :: ms[i].boot == boot
  }

  /** The sequence number is above all those of this boot since it began, and it still lasts before message `k`. */
  predicate Above(d: Device, ms: seq<Message>, k: nat, boot: string, x: int)
    requires k <= |ms|
  {
    && (forall j: nat | j < k && Ordered(ms[j]) && AllOf(ms, j, k, boot) :: ms[j].sequence.value < x)
    && (d.boot == boot && d.last.Some? && AllOf(ms, 0, k, boot) ==> d.last.value < x)
  }

  /** A message without a place in the order, or the first of its boot, or above all of its boot so far. */
  predicate InOrderAt(d: Device, ms: seq<Message>, k: nat)
    requires k < |ms|
  {
    Ordered(ms[k]) ==> Above(d, ms, k, ms[k].boot, ms[k].sequence.value)
  }

  predicate LiveTelemetry(m: Message) {
    m.kind.Telemetry? && !m.retained
  }

  /**
   The message is in order, reports values, and is no telemetry that by its own time is older than the newest
   telemetry that counted.
   */
  predicate CountsAt(d: Device, ms: seq<Message>, k: nat)
    requires k < |ms|
    decreases k, 1
  {
    && InOrderAt(d, ms, k) && !ms[k].kind.Status? && !ms[k].kind.SafetyEvent?
    && (ms[k].kind.Telemetry? && ms[k].source.Some? && SnapshotAt(d, ms, k).Some? ==>
          ms[k].source.value >= SnapshotAt(d, ms, k).value)
  }

  /** The own time of the newest live telemetry that counted before message `k`, if it has one. */
  function SnapshotAt(d: Device, ms: seq<Message>, k: nat): Option<Time>
    requires k <= |ms|
    decreases k, 0
  {
    if k == 0 then d.core.snapshot
    else
      var m := ms[k - 1];
      if !LiveTelemetry(m) || !CountsAt(d, ms, k - 1) then SnapshotAt(d, ms, k - 1)
      else if m.source.None? then None
      else Some(if m.source.value < m.now then m.source.value else m.now)
  }

  /** A change of boot, when it came. */
  function BootAt(d: Device, ms: seq<Message>, k: nat): seq<Incidents.Event>
    requires k < |ms|
  {
    var m, boot := ms[k], LastBoot(d.boot, ms[..k]);
    if Ordered(m) && boot != "" && boot != m.boot then [Incidents.NewBoot(m.now)] else []
  }

  /** A live state that counts, when it came. */
  function StateAt(d: Device, ms: seq<Message>, k: nat): seq<Incidents.Event>
    requires k < |ms|
  {
    var m := ms[k];
    if LiveTelemetry(m) && CountsAt(d, ms, k) then [Incidents.Seen(m.kind.o.(at := m.now))] else []
  }

  /** What message `k` tells the incidents. */
  function EventsAt(d: Device, ms: seq<Message>, k: nat): seq<Incidents.Event>
    requires k < |ms|
  {
    BootAt(d, ms, k) + StateAt(d, ms, k)
  }

  function Events(d: Device, ms: seq<Message>, k: nat): seq<Incidents.Event>
    requires k <= |ms|
  {
    if k == 0 then [] else Events(d, ms, k - 1) + EventsAt(d, ms, k - 1)
  }

  /** What message `k` says to the latest values: live with the earlier of its two times, retained without. */
  function FieldsAt(d: Device, ms: seq<Message>, k: nat): seq<Merge.Msg>
    requires k < |ms|
  {
    var m := ms[k];
    if !CountsAt(d, ms, k) then []
    else if m.retained then [Merge.Replayed(m.items)]
    else if m.source.Some? && m.source.value < m.now then [Merge.Live(m.items, m.source.value)]
    else [Merge.Live(m.items, m.now)]
  }

  function Fields(d: Device, ms: seq<Message>, k: nat): seq<Merge.Msg>
    requires k <= |ms|
  {
    if k == 0 then [] else Fields(d, ms, k - 1) + FieldsAt(d, ms, k - 1)
  }

  lemma {:induction false} RunTo(d: Device, ms: seq<Message>, k: nat)
    requires k < |ms|
    ensures Run(d, ms[..k + 1]) == Store(Run(d, ms[..k]), ms[k])
  {
    assert ms[..k + 1][..k] == ms[..k];
    hide Store;
  }

  lemma {:induction false} LastBootTo(boot: string, ms: seq<Message>, k: nat)
    requires k < |ms|
    ensures LastBoot(boot, ms[..k + 1]) == if Ordered(ms[k]) then ms[k].boot else LastBoot(boot, ms[..k])
  {
    assert ms[..k + 1][..k] == ms[..k];
  }

  /** A boot that still lasts is that of the newest ordered message. */
  lemma {:induction false} LastingIsLast(boot: string, ms: seq<Message>, j: nat, k: nat, b: string)
    requires j <= k <= |ms| && AllOf(ms, j, k, b)
    requires (j < k && Ordered(ms[j])) || (j == 0 && boot == b)
    ensures LastBoot(boot, ms[..k]) == b
    decreases k
  {
    if k > 0 {
      LastBootTo(boot, ms, k - 1);
      if !Ordered(ms[k - 1]) {
        LastingIsLast(boot, ms, j, k - 1, b);
      }
    }
  }

  /** Any sequence number is above all of a boot that another one followed. */
  lemma {:induction false} NoneLasts(d: Device, ms: seq<Message>, k: nat, b: string, x: int)
    requires k <= |ms| && LastBoot(d.boot, ms[..k]) != b
    ensures Above(d, ms, k, b, x)
  {
    forall j: nat | j < k && Ordered(ms[j]) ensures !AllOf(ms, j, k, b) {
      if AllOf(ms, j, k, b) {
        LastingIsLast(d.boot, ms, j, k, b);
      }
    }
    if d.boot == b && AllOf(ms, 0, k, b) {
      LastingIsLast(d.boot, ms, 0, k, b);
    }
  }

  lemma {:induction false} AllOfMore(ms: seq<Message>, j: nat, k: nat, boot: string)
    requires j <= k < |ms|
    ensures AllOf(ms, j, k + 1, boot) <==> AllOf(ms, j, k, boot) && (Ordered(ms[k]) ==> ms[k].boot == boot)
    ensures AllOf(ms, k, k, boot)
  {
  }

  lemma {:induction false} AboveMore(d: Device, ms: seq<Message>, k: nat, boot: string, x: int)
    requires k < |ms|
    ensures !Ordered(ms[k]) ==> (Above(d, ms, k + 1, boot, x) <==> Above(d, ms, k, boot, x))
    ensures Ordered(ms[k]) && ms[k].boot == boot ==>
      (Above(d, ms, k + 1, boot, x) <==> Above(d, ms, k, boot, x) && ms[k].sequence.value < x)
  {
    forall j: nat | j <= k
      ensures AllOf(ms, j, k + 1, boot) <==> AllOf(ms, j, k, boot) && (Ordered(ms[k]) ==> ms[k].boot == boot)
      ensures AllOf(ms, k, k, boot)
    {
      AllOfMore(ms, j, k, boot);
    }
    hide AllOf;
  }

  lemma {:induction false} TrackedBoot(d: Device, ms: seq<Message>, k: nat)
    requires k <= |ms|
    ensures Run(d, ms[..k]).boot == LastBoot(d.boot, ms[..k])
  {
    RestartsAreChanges(d, ms[..k]);
  }

  /** The number kept is the highest of the boot since it began. */
  lemma {:induction false} LastIsTop(d: Device, ms: seq<Message>, k: nat, x: int)
    requires k <= |ms|
    ensures var e := Run(d, ms[..k]); (e.last.Some? ==> e.last.value < x) <==> Above(d, ms, k, e.boot, x)
  {
    if k > 0 {
      var n := k - 1;
      var e, m := Run(d, ms[..n]), ms[n];
      RunTo(d, ms, n);
      LastIsTop(d, ms, n, x);
      TrackedBoot(d, ms, n);
      AboveMore(d, ms, n, m.boot, x);
      AboveMore(d, ms, n, e.boot, x);
      if Ordered(m) && m.boot != e.boot {
        NoneLasts(d, ms, n, m.boot, x);
      }
      hide Run, Take, Above;
    }
  }

  lemma {:induction false} OrderIsAbove(d: Device, ms: seq<Message>, k: nat)
    requires k < |ms|
    ensures TrackBoot(Run(d, ms[..k]), ms[k]).1.InOrder? <==> InOrderAt(d, ms, k)
  {
    var e, m := Run(d, ms[..k]), ms[k];
    if Ordered(m) {
      TrackedBoot(d, ms, k);
      LastIsTop(d, ms, k, m.sequence.value);
      if m.boot != e.boot {
        NoneLasts(d, ms, k, m.boot, m.sequence.value);
      }
    }
    hide Run, Above;
  }

  /** Messages that do not count leave latest values and snapshot as they are; those that do are taken. */
  lemma {:induction false} CountsIsTaken(d: Device, ms: seq<Message>, k: nat)
    requires k < |ms| && Run(d, ms[..k]).core.snapshot == SnapshotAt(d, ms, k)
    ensures var e, t, m := Run(d, ms[..k]), Run(d, ms[..k + 1]), ms[k];
      && t.core.snapshot == SnapshotAt(d, ms, k + 1)
      && t.core.latest == (
        if CountsAt(d, ms, k) then Merge.MergeItems(e.core.latest, m.items, Stamp(m), m.retained, "")
        else e.core.latest)
      && t.core.rows == (
        var rows := TrackBoot(e, m).0.core.rows;
        if LiveTelemetry(m) && CountsAt(d, ms, k) then Incidents.Step(rows, Incidents.Seen(m.kind.o.(at := m.now)))
        else rows)
  {
    RunTo(d, ms, k);
    OrderIsAbove(d, ms, k);
    TrackKeeps(Run(d, ms[..k]), ms[k]);
    hide Run, InOrderAt, TrackBoot, Incidents.Step, Merge.MergeItems;
  }

  lemma {:induction false} TrackKeeps(d: Device, m: Message)
    ensures var t := TrackBoot(d, m).0.core; t.latest == d.core.latest && t.snapshot == d.core.snapshot
  {
    hide Incidents.Step;
  }

  lemma {:induction false} SnapshotIsNewest(d: Device, ms: seq<Message>, k: nat)
    requires k <= |ms|
    ensures Run(d, ms[..k]).core.snapshot == SnapshotAt(d, ms, k)
  {
    if k > 0 {
      SnapshotIsNewest(d, ms, k - 1);
      CountsIsTaken(d, ms, k - 1);
      hide Run, SnapshotAt;
    }
  }

  lemma {:induction false} BootStep(d: Device, ms: seq<Message>, k: nat)
    requires k < |ms|
    ensures var e := Run(d, ms[..k]);
      TrackBoot(e, ms[k]).0.core.rows == Incidents.Fold(e.core.rows, BootAt(d, ms, k), 0)
  {
    TrackedBoot(d, ms, k);
    var boot := Incidents.NewBoot(ms[k].now);
    Incidents.FoldFew(Run(d, ms[..k]).core.rows, boot, boot);
    hide Run, LastBoot, Incidents.Step, Incidents.Fold;
  }

  lemma {:induction false} StateStep(d: Device, ms: seq<Message>, k: nat)
    requires k < |ms|
    ensures Run(d, ms[..k + 1]).core.rows
      == Incidents.Fold(TrackBoot(Run(d, ms[..k]), ms[k]).0.core.rows, StateAt(d, ms, k), 0)
  {
    hide Run, CountsAt, SnapshotAt, TrackBoot, Incidents.Step, Incidents.Fold, Merge.MergeItems;
    SnapshotIsNewest(d, ms, k);
    CountsIsTaken(d, ms, k);
    var m, rows := ms[k], TrackBoot(Run(d, ms[..k]), ms[k]).0.core.rows;
    if m.kind.Telemetry? {
      var seen := Incidents.Seen(m.kind.o.(at := m.now));
      Incidents.FoldFew(rows, seen, seen);
    } else {
      Incidents.FoldFew(rows, Incidents.NewBoot(m.now), Incidents.NewBoot(m.now));
    }
  }

  /** What one message does to the incidents. */
  lemma {:induction false} RowsStep(d: Device, ms: seq<Message>, k: nat)
    requires k < |ms|
    ensures Run(d, ms[..k + 1]).core.rows == Incidents.Fold(Run(d, ms[..k]).core.rows, EventsAt(d, ms, k), 0)
  {
    hide Run, BootAt, StateAt, TrackBoot, Incidents.Fold;
    BootStep(d, ms, k);
    StateStep(d, ms, k);
    Incidents.FoldOn(Run(d, ms[..k]).core.rows, BootAt(d, ms, k), StateAt(d, ms, k), 0);
  }

  lemma {:induction false} NothingYet(d: Device, ms: seq<Message>)
    ensures Run(d, ms[..0]) == d
    ensures Incidents.Fold(d.core.rows, Events(d, ms, 0), 0) == d.core.rows
    ensures Merge.Run(d.core.latest, Fields(d, ms, 0)) == d.core.latest
  {
  }

  lemma {:induction false} OneMore(d: Device, ms: seq<Message>, k: nat)
    requires k < |ms|
    ensures Events(d, ms, k + 1) == Events(d, ms, k) + EventsAt(d, ms, k)
    ensures Fields(d, ms, k + 1) == Fields(d, ms, k) + FieldsAt(d, ms, k)
  {
    hide EventsAt, FieldsAt;
  }

  lemma {:induction false} RowsTo(d: Device, ms: seq<Message>, k: nat)
    requires k <= |ms|
    ensures Run(d, ms[..k]).core.rows == Incidents.Fold(d.core.rows, Events(d, ms, k), 0)
  {
    hide FieldsAt, EventsAt, Run, Incidents.Fold;
    if k == 0 {
      NothingYet(d, ms);
    } else {
      hide Events;
      RowsTo(d, ms, k - 1);
      RowsStep(d, ms, k - 1);
      OneMore(d, ms, k - 1);
      Incidents.FoldOn(d.core.rows, Events(d, ms, k - 1), EventsAt(d, ms, k - 1), 0);
    }
  }

  lemma {:induction false} MergeOne(st: Merge.State, said: seq<Merge.Msg>, more: Merge.Msg)
    ensures Merge.Run(st, said + [more]) == Merge.Apply(Merge.Run(st, said), more)
  {
    assert (said + [more])[..|said|] == said;
    hide Merge.Apply;
  }

  lemma {:induction false} MergeOn(st: Merge.State, said: seq<Merge.Msg>, more: seq<Merge.Msg>)
    requires |more| <= 1
    ensures Merge.Run(st, said + more) == Merge.Run(Merge.Run(st, said), more)
  {
    hide Merge.Apply;
    if more == [] {
      Seqs.Empty(said);
    } else {
      MergeOne(st, said, more[0]);
      MergeOne(Merge.Run(st, said), [], more[0]);
      Seqs.Empty(more);
      assert more == [more[0]];
    }
  }

  /** What one message does to the latest values. */
  lemma {:induction false} LatestStep(d: Device, ms: seq<Message>, k: nat)
    requires k < |ms|
    ensures |FieldsAt(d, ms, k)| <= 1
    ensures Run(d, ms[..k + 1]).core.latest == Merge.Run(Run(d, ms[..k]).core.latest, FieldsAt(d, ms, k))
  {
    SnapshotIsNewest(d, ms, k);
    CountsIsTaken(d, ms, k);
    var said, st := FieldsAt(d, ms, k), Run(d, ms[..k]).core.latest;
    hide Run, CountsAt, SnapshotAt, TrackBoot, Merge.MergeItems;
    if CountsAt(d, ms, k) {
      MergeOne(st, [], said[0]);
      Seqs.Empty(said);
      assert said == [said[0]];
    }
  }

  lemma {:induction false} LatestTo(d: Device, ms: seq<Message>, k: nat)
    requires k <= |ms|
    ensures Run(d, ms[..k]).core.latest == Merge.Run(d.core.latest, Fields(d, ms, k))
  {
    hide FieldsAt, EventsAt, Run, Merge.Run;
    if k == 0 {
      NothingYet(d, ms);
    } else {
      hide Fields;
      LatestTo(d, ms, k - 1);
      LatestStep(d, ms, k - 1);
      OneMore(d, ms, k - 1);
      MergeOn(d.core.latest, Fields(d, ms, k - 1), FieldsAt(d, ms, k - 1));
    }
  }

  /**
   What any stream of messages leaves. The incidents are those of the changes of boot and of the live states that
   counted, each at the time it came: with none open before, the summaries of the episodes cut out of that trace.
   The latest values are those of the messages that counted, merged in turn.
   */
  lemma {:induction false} StoredStream(d: Device, ms: seq<Message>)
    ensures Run(d, ms).core.rows == Incidents.Fold(d.core.rows, Events(d, ms, |ms|), 0)
    ensures Incidents.NoneOpen(d.core.rows) ==>
      Run(d, ms).core.rows == d.core.rows + Incidents.Summaries(Incidents.Episodes(Events(d, ms, |ms|), 0))
    ensures Run(d, ms).core.latest == Merge.Run(d.core.latest, Fields(d, ms, |ms|))
  {
    assert ms[..|ms|] == ms;
    RowsTo(d, ms, |ms|);
    LatestTo(d, ms, |ms|);
    if Incidents.NoneOpen(d.core.rows) {
      Incidents.LiveIsBatch(d.core.rows, Events(d, ms, |ms|), 0);
    }
    hide *;
  }

  // ----------------------------------------------------------------- the stored controller

  class Row {
    var boot: string
    var last: Option<int>
    var restarts: nat
    var latest: map<string, Merge.Tree>
    var stamps: Merge.Stamps
    var snapshot: Option<Time>
    const history: Incidents.History

    function Value(): Device
      reads this, history
    {
      Device(boot, last, restarts, Core(Merge.State(latest, stamps), history.rows, snapshot))
    }

    ghost predicate Valid()
      reads this, history
    {
      history.Valid()
    }

    constructor ()
      ensures Valid() && fresh(history) && Value() == Device("", None, 0, Core(Merge.State(map[], map[]), [], None))
    {
      history := new Incidents.History();
      boot, last, restarts, latest, stamps, snapshot := "", None, 0, map[], map[], None;
    }

    method Track(m: Message) returns (order: Order)
      requires Valid()
      modifies this, history
      ensures Valid() && (Value(), order) == TrackBoot(old(Value()), m)
    {
      hide Incidents.Step;
      if m.retained || m.boot == "" || m.sequence.None? {
        return InOrder;
      }
      if boot == m.boot {
        if last.Some? && m.sequence.value <= last.value {
          return if m.sequence.value == last.value then Duplicate else Historical;
        }
        last := m.sequence;
        return InOrder;
      }
      var previous := boot;
      boot, last := m.boot, m.sequence;
      if previous != "" {
        history.Restarted(m.now);
        restarts := restarts + 1;
      }
      order := InOrder;
    }

    method Persist(m: Message)
      requires Valid()
      modifies this, history
      ensures Valid() && Value() == Store(old(Value()), m)
    {
      hide Incidents.Step, Merge.MergeItems;
      var order := Track(m);
      if m.kind.Status? || m.kind.SafetyEvent? {
        return;
      }
      var historical := order != InOrder
        || (m.kind.Telemetry? && m.source.Some? && snapshot.Some? && m.source.value < snapshot.value);
      if !historical {
        latest, stamps := Merge.Merge(latest, m.items, stamps, Stamp(m), m.retained, "");
        if !m.retained && m.kind.Telemetry? {
          snapshot := if m.source.Some? then Stamp(m) else None;
          history.RecordState(m.kind.o.(at := m.now));
        }
      }
    }
  }
}
