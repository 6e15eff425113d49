/**
 The incidents of one controller, built live from its state reports, against a batch reading of the whole
 trace: cut it into episodes, then sum each one up.
 */
module Incidents {
  import opened Options
  import Seqs

  type Time = int

  datatype Level = Unattended | Buzzer | Shutdown
  datatype Reported = Active(level: Level) | Monitoring | Idle | Restarting | Otherwise
  datatype Reason = PersonReturned | HeatingStopped | OperatorReset | ControllerRestarted

  /** One live telemetry state; `hold` says that the pan was losing heat. */
  datatype Obs = Obs(state: Reported, at: Time, temp: Option<real>, tier: Option<nat>, hold: bool)

  /** What reaches the history: a state, or the notice that the controller has a new boot id. */
  datatype Event = Seen(o: Obs) | NewBoot(at: Time)

  datatype Incident = Incident(
    started: Time, ended: Option<Time>, peak: Level, last: Level,
    buzzerAt: Option<Time>, shutdownAt: Option<Time>,
    maxTemp: Option<real>, maxTier: Option<nat>, held: bool, reason: Option<Reason>)

  function Rank(l: Level): nat {
    match l case Unattended => 1 case Buzzer => 2 case Shutdown => 3
  }

  // ----------------------------------------------------------------- as it is built live

  function Opened(o: Obs): Incident
    requires o.state.Active?
  {
    Incident(o.at, None, o.state.level, Unattended, None, None, None, None, false, None)
  }

  /** `max(t, had or t)`: a recorded 0.0 counts as nothing recorded. */
  function Hotter(had: Option<real>, t: Option<real>): Option<real> {
    if t.None? then had
    else if had.None? || had.value == 0.0 then t
    else Some(if t.value > had.value then t.value else had.value)
  }

  function HigherTier(had: Option<nat>, t: Option<nat>): Option<nat> {
    if t.None? then had
    else if had.None? then t
    else Some(if t.value > had.value then t.value else had.value)
  }

  function Advance(i: Incident, o: Obs): Incident
    requires o.state.Active?
  {
    var l := o.state.level;
    i.(peak := if Rank(l) > Rank(i.peak) then l else i.peak,
       buzzerAt := if l != Unattended && i.buzzerAt.None? then Some(o.at) else i.buzzerAt,
       shutdownAt := if l == Shutdown && i.shutdownAt.None? then Some(o.at) else i.shutdownAt,
       maxTemp := Hotter(i.maxTemp, o.temp),
       maxTier := HigherTier(i.maxTier, o.tier),
       held := i.held || o.hold,
       last := l)
  }

  /** The reason an event closes an incident with, if it closes it. */
  function Closing(e: Event, last: Level): Option<Reason> {
    if e.NewBoot? || e.o.state.Restarting? then Some(ControllerRestarted)
    else if e.o.state.Monitoring? || e.o.state.Idle? then
      Some(if last == Shutdown then OperatorReset else if e.o.state.Monitoring? then PersonReturned else HeatingStopped)
    else None
  }

  function TimeOf(e: Event): Time {
    if e.Seen? then e.o.at else e.at
  }

  function Closed(i: Incident, e: Event): Incident {
    i.(ended := Some(TimeOf(e)), reason := Closing(e, i.last))
  }

  predicate Starts(e: Event) {
    e.Seen? && e.o.state.Active?
  }

  predicate Ends(e: Event) {
    e.NewBoot? || e.o.state.Restarting? || e.o.state.Monitoring? || e.o.state.Idle?
  }

  /** One event on the stored incidents: only the newest can be open. */
  function Step(rows: seq<Incident>, e: Event): seq<Incident> {
    var n := |rows|;
    var open := n > 0 && rows[n - 1].ended.None?;
    if Starts(e) then
      if open then rows[..n - 1] + [Advance(rows[n - 1], e.o)] else rows + [Advance(Opened(e.o), e.o)]
    else if open && Ends(e) then rows[..n - 1] + [Closed(rows[n - 1], e)]
    else rows
  }

  function Fold(rows: seq<Incident>, h: seq<Event>, i: nat): seq<Incident>
    requires i <= |h|
    decreases |h| - i
  {
    if i == |h| then rows else Fold(Step(rows, h[i]), h, i + 1)
  }

  lemma {:induction false} AdvanceRest(i: Incident, o: Obs)
    requires o.state.Active?
    ensures var t := Advance(i, o);
      && t.maxTemp == Hotter(i.maxTemp, o.temp) && t.maxTier == HigherTier(i.maxTier, o.tier)
      && t.held == (i.held || o.hold) && t.last == o.state.level
  {
    hide Hotter, HigherTier;
  }

  /** As it is written: a missing or zero maximum is replaced, and then the larger taken. */
  lemma {:induction false} HotterAsStored(had: Option<real>, t: Option<real>)
    ensures t.None? ==> Hotter(had, t) == had
    ensures t.Some? ==>
      var h := if had.Some? && had.value != 0.0 then had.value else t.value;
      Hotter(had, t) == Some(if h > t.value then h else t.value)
  {
  }

  lemma {:induction false} HigherAsStored(had: Option<nat>, t: Option<nat>)
    ensures t.None? ==> HigherTier(had, t) == had
    ensures t.Some? ==>
      var h := if had.Some? then had.value else 0;
      HigherTier(had, t) == Some(if h > t.value then h else t.value)
  {
  }

  /** The stored rows of one controller, oldest first. */
  class History {
    var rows: seq<Incident>

    /** Only the newest row can be open. */
    ghost predicate Valid()
      reads this
    {
      forall k | 0 <= k < |rows| - 1 :: rows[k].ended.Some?
    }

    constructor ()
      ensures Valid() && rows == []
    {
      rows := [];
    }

    /** The open row that started last, or none. */
    method OpenIncident() returns (at: Option<nat>)
      ensures at.None? <==> forall k | 0 <= k < |rows| :: rows[k].ended.Some?
      ensures at.Some? ==>
        && at.value < |rows| && rows[at.value].ended.None?
        && forall k | 0 <= k < |rows| && rows[k].ended.None? :: rows[k].started <= rows[at.value].started
    {
      at := None;
      for k := 0 to |rows|
        invariant at.None? <==> forall j | 0 <= j < k :: rows[j].ended.Some?
        invariant at.Some? ==>
          && at.value < k && rows[at.value].ended.None?
          && forall j | 0 <= j < k && rows[j].ended.None? :: rows[j].started <= rows[at.value].started
      {
        if rows[k].ended.None? && (at.None? || rows[k].started > rows[at.value].started) {
          at := Some(k);
        }
      }
    }

    method Close(k: nat, at: Time, reason: Reason)
      requires Valid() && k < |rows|
      modifies this
      ensures rows == old(rows)[k := old(rows)[k].(ended := Some(at), reason := Some(reason))] && Valid()
    {
      rows := rows[k := rows[k].(ended := Some(at), reason := Some(reason))];
    }

    static method Escalate(was: Incident, o: Obs) returns (i: Incident)
      requires o.state.Active?
      ensures i == Advance(was, o)
    {
      hide Hotter, HigherTier, Rank;
      HotterAsStored(was.maxTemp, o.temp);
      HigherAsStored(was.maxTier, o.tier);
      i := was;
      if Rank(o.state.level) > Rank(i.peak) {
        i := i.(peak := o.state.level);
      }
      if o.state.level != Unattended && i.buzzerAt.None? {
        i := i.(buzzerAt := Some(o.at));
      }
      if o.state.level == Shutdown && i.shutdownAt.None? {
        i := i.(shutdownAt := Some(o.at));
      }
      assert i == Advance(was, o).(maxTemp := was.maxTemp, maxTier := was.maxTier, held := was.held, last := was.last);
      hide Advance;
      if o.temp.Some? {
        var had := if i.maxTemp.Some? && i.maxTemp.value != 0.0 then i.maxTemp.value else o.temp.value;
        i := i.(maxTemp := Some(if had > o.temp.value then had else o.temp.value));
      }
      assert i.maxTemp == Hotter(was.maxTemp, o.temp);
      if o.tier.Some? {
        var had := if i.maxTier.Some? then i.maxTier.value else 0;
        i := i.(maxTier := Some(if had > o.tier.value then had else o.tier.value));
      }
      i := i.(held := i.held || o.hold, last := o.state.level);
      AdvanceRest(was, o);
    }

    method RecordState(o: Obs)
      requires Valid()
      modifies this
      ensures rows == Step(old(rows), Seen(o)) && Valid()
    {
      hide Advance;
      var open := OpenIncident();
      if o.state.Active? {
        var i := Incident(o.at, None, o.state.level, Unattended, None, None, None, None, false, None);
        if open.Some? {
          i := rows[open.value];
        }
        i := Escalate(i, o);
        if open.Some? {
          rows := rows[open.value := i];
        } else {
          rows := rows + [i];
        }
        assert old(rows) != [] ==> old(rows) == old(rows)[..|old(rows)| - 1] + [old(rows)[|old(rows)| - 1]];
      } else if open.None? {
        return;
      } else if o.state.Monitoring? || o.state.Idle? {
        var reason := if o.state.Monitoring? then PersonReturned else HeatingStopped;
        if rows[open.value].last == Shutdown {
          reason := OperatorReset;
        }
        Close(open.value, o.at, reason);
      } else if o.state.Restarting? {
        Close(open.value, o.at, ControllerRestarted);
      }
    }

    method Restarted(at: Time)
      requires Valid()
      modifies this
      ensures rows == Step(old(rows), NewBoot(at)) && Valid()
    {
      var open := OpenIncident();
      if open.Some? {
        Close(open.value, at, ControllerRestarted);
      }
    }
  }

  // ----------------------------------------------------------------- as a batch

  function NextStart(h: seq<Event>, i: nat): (s: nat)
    requires i <= |h|
    ensures i <= s <= |h| && (s < |h| ==> Starts(h[s])) && forall k | i <= k < s :: !Starts(h[k])
    decreases |h| - i
  {
    if i == |h| || Starts(h[i]) then i else NextStart(h, i + 1)
  }

  function NextEnd(h: seq<Event>, i: nat): (e: nat)
    requires i <= |h|
    ensures i <= e <= |h| && (e < |h| ==> Ends(h[e])) && forall k | i <= k < e :: !Ends(h[k])
    decreases |h| - i
  {
    if i == |h| || Ends(h[i]) then i else NextEnd(h, i + 1)
  }

  /** The active states among the events `s` to `e`. */
  function ActiveStates(h: seq<Event>, s: nat, e: nat): (a: seq<Obs>)
    requires s <= e <= |h|
    ensures AllActive(a)
    decreases e - s
  {
    if s == e then []
    else if Starts(h[e - 1]) then ActiveStates(h, s, e - 1) + [h[e - 1].o]
    else ActiveStates(h, s, e - 1)
  }

  predicate AllActive(states: seq<Obs>) {
    forall k | 0 <= k < |states| :: states[k].state.Active?
  }

  /** An episode: its active states in order, and the event that ended it, if one has. */
  datatype Episode = Episode(states: seq<Obs>, end: Option<Event>)

  predicate EpisodeOk(p: Episode) {
    p.states != [] && AllActive(p.states) && (p.end.Some? ==> Ends(p.end.value))
  }

  predicate AllOk(ps: seq<Episode>) {
    forall k | 0 <= k < |ps| :: EpisodeOk(ps[k])
  }

  function Episodes(h: seq<Event>, i: nat): (ps: seq<Episode>)
    requires i <= |h|
    ensures AllOk(ps)
    decreases |h| - i
  {
    var s := NextStart(h, i);
    if s == |h| then []
    else
      var e := NextEnd(h, s);
      FirstIsActive(h, s, e);
      if e == |h| then [Episode(ActiveStates(h, s, e), None)]
      else [Episode(ActiveStates(h, s, e), Some(h[e]))] + Episodes(h, e + 1)
  }

  lemma {:induction false} FirstIsActive(h: seq<Event>, s: nat, e: nat)
    requires s < e <= |h| && Starts(h[s])
    ensures ActiveStates(h, s, e) != [] && ActiveStates(h, s, e)[0] == h[s].o
    decreases e - s
  {
    if e > s + 1 {
      FirstIsActive(h, s, e - 1);
    } else {
      assert ActiveStates(h, s, s) == [];
    }
  }

  // ----------------------------------------------------------------- the summary of an episode

  /** The time of the first state that ranks `r` or higher. */
  function FirstReaching(states: seq<Obs>, r: nat): Option<Time>
    requires AllActive(states)
  {
    var n := |states|;
    if n == 0 then None
    else if FirstReaching(states[..n - 1], r).Some? then FirstReaching(states[..n - 1], r)
    else if Rank(states[n - 1].state.level) >= r then Some(states[n - 1].at)
    else None
  }

  /** The highest level seen. */
  function Peak(states: seq<Obs>): Level
    requires AllActive(states) && states != []
  {
    var n := |states|;
    if n == 1 then states[0].state.level
    else
      var p := Peak(states[..n - 1]);
      if Rank(states[n - 1].state.level) > Rank(p) then states[n - 1].state.level else p
  }

  function Temps(states: seq<Obs>): seq<real> {
    if states == [] then []
    else
      var o := states[|states| - 1];
      Temps(states[..|states| - 1]) + (if o.temp.Some? then [o.temp.value] else [])
  }

  /** What the live rule records of a sequence of temperatures. */
  function Recorded(ts: seq<real>): Option<real> {
    if ts == [] then None else Hotter(Recorded(ts[..|ts| - 1]), Some(ts[|ts| - 1]))
  }

  function Tier(states: seq<Obs>): Option<nat> {
    if states == [] then None else HigherTier(Tier(states[..|states| - 1]), states[|states| - 1].tier)
  }

  predicate Held(states: seq<Obs>) {
    exists k :: 0 <= k < |states| && states[k].hold
  }

  function Summary(p: Episode): Incident
    requires EpisodeOk(p)
  {
    var last := p.states[|p.states| - 1].state.level;
    Incident(
      p.states[0].at, if p.end.Some? then Some(TimeOf(p.end.value)) else None, Peak(p.states), last,
      FirstReaching(p.states, 2), FirstReaching(p.states, 3), Recorded(Temps(p.states)), Tier(p.states), Held(p.states),
      if p.end.Some? then Closing(p.end.value, last) else None)
  }

  function Summaries(ps: seq<Episode>): seq<Incident>
    requires AllOk(ps)
  {
    if ps == [] then [] else [Summary(ps[0])] + Summaries(ps[1..])
  }

  lemma {:induction false} SummariesAt(ps: seq<Episode>, j: nat)
    requires AllOk(ps)
    ensures |Summaries(ps)| == |ps| && (j < |ps| ==> Summaries(ps)[j] == Summary(ps[j]))
  {
    hide Summary;
    if ps != [] {
      SummariesAt(ps[1..], if j > 0 then j - 1 else 0);
    }
  }

  // ----------------------------------------------------------------- live and batch agree

  lemma {:induction false} HeldMore(states: seq<Obs>, o: Obs)
    ensures Held(states + [o]) <==> Held(states) || o.hold
  {
    var more := states + [o];
    assert more[|states|] == o;
    if k :| 0 <= k < |states| && states[k].hold {
      assert more[k].hold;
    }
    if k :| 0 <= k < |more| && more[k].hold {
      assert k < |states| ==> states[k].hold;
    }
  }

  /** Peak, first times, temperature and tier after one more state. */
  lemma {:induction false} PartsMore(states: seq<Obs>, o: Obs)
    requires AllActive(states) && o.state.Active?
    ensures AllActive(states + [o])
    ensures forall r: nat ::
      FirstReaching(states + [o], r) ==
        if FirstReaching(states, r).Some? then FirstReaching(states, r)
        else if Rank(o.state.level) >= r then Some(o.at) else None
    ensures states == [] ==> Peak(states + [o]) == o.state.level
    ensures states != [] ==>
      Peak(states + [o]) == if Rank(o.state.level) > Rank(Peak(states)) then o.state.level else Peak(states)
    ensures Recorded(Temps(states + [o])) == Hotter(Recorded(Temps(states)), o.temp)
    ensures Tier(states + [o]) == HigherTier(Tier(states), o.tier)
  {
    hide AllActive;
    AllActiveMore(states, o);
    var more := states + [o];
    assert more[..|states|] == states && more[|states|] == o;
    if o.temp.Some? {
      assert Temps(more) == Temps(states) + [o.temp.value];
      assert Temps(more)[..|Temps(states)|] == Temps(states);
    } else {
      assert Temps(more) == Temps(states);
    }
  }

  lemma {:induction false} AllActiveMore(states: seq<Obs>, o: Obs)
    requires AllActive(states) && o.state.Active?
    ensures AllActive(states + [o])
  {
  }

  lemma {:induction false} OneMoreState(states: seq<Obs>, o: Obs)
    requires EpisodeOk(Episode(states, None)) && o.state.Active?
    ensures EpisodeOk(Episode(states + [o], None))
    ensures Advance(Summary(Episode(states, None)), o) == Summary(Episode(states + [o], None))
  {
    hide AllActive, FirstReaching, Peak, Recorded, Temps, Tier, Held, Hotter, HigherTier;
    PartsMore(states, o);
    HeldMore(states, o);
  }

  lemma {:induction false} FirstState(o: Obs)
    requires o.state.Active?
    ensures EpisodeOk(Episode([o], None)) && Advance(Opened(o), o) == Summary(Episode([o], None))
  {
    PartsMore([], o);
    HeldMore([], o);
    NothingYet();
    assert [] + [o] == [o];
    hide AllActive, FirstReaching, Peak, Recorded, Temps, Tier, Held;
  }

  lemma {:induction false} NothingYet()
    ensures Recorded(Temps([])) == None && Tier([]) == None && !Held([]) && FirstReaching([], 2) == None
    ensures FirstReaching([], 3) == None
  {
  }

  predicate NoneOpen(rows: seq<Incident>) {
    rows != [] ==> rows[|rows| - 1].ended.Some?
  }

  lemma {:induction false} FoldStep(rows: seq<Incident>, h: seq<Event>, i: nat)
    requires i < |h|
    ensures Fold(rows, h, i) == Fold(Step(rows, h[i]), h, i + 1)
  {
  }

  lemma {:induction false} SkipQuiet(rows: seq<Incident>, h: seq<Event>, i: nat)
    requires i <= |h| && NoneOpen(rows)
    ensures Fold(rows, h, i) == Fold(rows, h, NextStart(h, i))
    decreases |h| - i
  {
    if i < |h| && !Starts(h[i]) {
      SkipQuiet(rows, h, i + 1);
    }
  }

  lemma {:induction false} SummaryEnd(p: Episode)
    requires EpisodeOk(p)
    ensures Summary(p).ended.None? <==> p.end.None?
    ensures forall e | p.end.None? && Ends(e) :: Closed(Summary(p), e) == Summary(p.(end := Some(e)))
  {
    hide AllActive, FirstReaching, Peak, Recorded, Temps, Tier, Held;
  }

  /** One event on an open episode. */
  lemma {:induction false} StepOnOpen(rows: seq<Incident>, states: seq<Obs>, e: Event)
    requires EpisodeOk(Episode(states, None))
    ensures Starts(e) ==> EpisodeOk(Episode(states + [e.o], None))
    ensures Starts(e) ==>
      Step(rows + [Summary(Episode(states, None))], e) == rows + [Summary(Episode(states + [e.o], None))]
    ensures Ends(e) ==> Step(rows + [Summary(Episode(states, None))], e) == rows + [Summary(Episode(states, Some(e)))]
    ensures !Starts(e) && !Ends(e) ==>
      Step(rows + [Summary(Episode(states, None))], e) == rows + [Summary(Episode(states, None))]
  {
    hide Summary, AllActive;
    SummaryEnd(Episode(states, None));
    assert (rows + [Summary(Episode(states, None))])[..|rows|] == rows;
    if Starts(e) {
      OneMoreState(states, e.o);
    }
  }

  function OpenRow(rows: seq<Incident>, h: seq<Event>, s: nat, k: nat): seq<Incident>
    requires s <= k <= |h| && EpisodeOk(Episode(ActiveStates(h, s, k), None))
  {
    rows + [Summary(Episode(ActiveStates(h, s, k), None))]
  }

  lemma {:induction false} GoOnStep(rows: seq<Incident>, h: seq<Event>, s: nat, k: nat)
    requires s <= k < |h| && EpisodeOk(Episode(ActiveStates(h, s, k), None)) && !Ends(h[k])
    ensures EpisodeOk(Episode(ActiveStates(h, s, k + 1), None))
    ensures Fold(OpenRow(rows, h, s, k), h, k) == Fold(OpenRow(rows, h, s, k + 1), h, k + 1)
  {
    hide Summary, Fold, Step, AllActive;
    var states := ActiveStates(h, s, k);
    StepOnOpen(rows, states, h[k]);
    assert ActiveStates(h, s, k + 1) == if Starts(h[k]) then states + [h[k].o] else states;
    FoldStep(rows + [Summary(Episode(states, None))], h, k);
  }

  lemma {:induction false} GoOn(rows: seq<Incident>, h: seq<Event>, s: nat, k: nat, e: nat)
    requires s <= k <= e <= |h| && forall j | s <= j < e :: !Ends(h[j])
    requires EpisodeOk(Episode(ActiveStates(h, s, k), None))
    ensures EpisodeOk(Episode(ActiveStates(h, s, e), None))
    ensures Fold(OpenRow(rows, h, s, k), h, k) == Fold(OpenRow(rows, h, s, e), h, e)
    decreases e - k
  {
    if k < e {
      hide Fold, OpenRow, EpisodeOk, ActiveStates;
      GoOnStep(rows, h, s, k);
      GoOn(rows, h, s, k + 1, e);
    }
  }

  lemma {:induction false} EpisodeStored(rows: seq<Incident>, h: seq<Event>, s: nat, e: nat)
    requires s < e <= |h| && Starts(h[s]) && (forall j | s <= j < e :: !Ends(h[j])) && (e < |h| ==> Ends(h[e]))
    requires NoneOpen(rows)
    ensures var p := Episode(ActiveStates(h, s, e), if e == |h| then None else Some(h[e]));
      EpisodeOk(p) && Fold(rows, h, s) == Fold(rows + [Summary(p)], h, if e == |h| then e else e + 1)
  {
    hide Summary, Fold, AllActive, ActiveStates, Advance, Opened;
    FirstIsActive(h, s, e);
    FirstState(h[s].o);
    JustStarted(h, s);
    assert Step(rows, h[s]) == rows + [Summary(Episode([h[s].o], None))];
    hide Step;
    FoldStep(rows, h, s);
    GoOn(rows, h, s, s + 1, e);
    if e < |h| {
      StepOnOpen(rows, ActiveStates(h, s, e), h[e]);
      FoldStep(rows + [Summary(Episode(ActiveStates(h, s, e), None))], h, e);
    }
  }

  lemma {:induction false} JustStarted(h: seq<Event>, s: nat)
    requires s < |h| && Starts(h[s])
    ensures ActiveStates(h, s, s + 1) == [h[s].o]
  {
    assert ActiveStates(h, s, s) == [];
  }

  lemma {:induction false} EpisodesUnfold(h: seq<Event>, i: nat)
    requires i <= |h|
    ensures var s := NextStart(h, i);
      if s == |h| then Episodes(h, i) == []
      else
        var e := NextEnd(h, s);
        s < e && Starts(h[s]) && EpisodeOk(Episode(ActiveStates(h, s, e), None)) &&
        Episodes(h, i) == [Episode(ActiveStates(h, s, e), if e == |h| then None else Some(h[e]))]
          + (if e == |h| then [] else Episodes(h, e + 1))
  {
    hide ActiveStates, AllActive, Summary;
    var s := NextStart(h, i);
    if s < |h| {
      var e := NextEnd(h, s);
      FirstIsActive(h, s, e);
      var p := Episode(ActiveStates(h, s, e), None);
      assert [p] + [] == [p];
    }
  }

  lemma {:induction false} FoldDone(rows: seq<Incident>, h: seq<Event>)
    ensures Fold(rows, h, |h|) == rows
  {
  }

  lemma {:induction false} FoldBehind(rows: seq<Incident>, h: seq<Event>,
      more: seq<Event>, j: nat)
    requires j <= |more|
    ensures Fold(rows, h + more, |h| + j) == Fold(rows, more, j)
    decreases |more| - j
  {
    hide Step;
    if j < |more| {
      assert (h + more)[|h| + j] == more[j];
      FoldBehind(Step(rows, more[j]), h, more, j + 1);
    }
  }

  lemma {:induction false} FoldOn(rows: seq<Incident>, h: seq<Event>, more: seq<Event>,
      i: nat)
    requires i <= |h|
    ensures Fold(rows, h + more, i) == Fold(Fold(rows, h, i), more, 0)
    decreases |h| - i
  {
    hide Step;
    if i < |h| {
      assert (h + more)[i] == h[i];
      FoldOn(Step(rows, h[i]), h, more, i + 1);
    } else {
      FoldBehind(rows, h, more, 0);
    }
  }

  lemma {:induction false} FoldFew(rows: seq<Incident>, a: Event, b: Event)
    ensures Fold(rows, [], 0) == rows && Fold(rows, [a], 0) == Step(rows, a)
    ensures Fold(rows, [a, b], 0) == Step(Step(rows, a), b)
  {
    hide Step;
    var h := [a, b];
    assert Fold(rows, h, 0) == Fold(Step(rows, a), h, 1);
    FoldDone(Step(rows, a), [a]);
    FoldDone(Step(Step(rows, a), b), h);
  }

  lemma {:induction false} SummariesOne(p: Episode, rest: seq<Episode>)
    requires EpisodeOk(p) && AllOk(rest)
    ensures AllOk([p] + rest) && Summaries([p] + rest) == [Summary(p)] + Summaries(rest)
  {
    hide Summary;
    assert ([p] + rest)[1..] == rest;
  }

  /** The next episode of the trace, if there is one, and where the trace goes on behind it. */
  lemma {:induction false} OneEpisode(rows: seq<Incident>, h: seq<Event>, i: nat) returns (ps: seq<Episode>, next: nat)
    requires i < |h| && NoneOpen(rows)
    ensures |ps| <= 1 && AllOk(ps) && i < next <= |h| && Episodes(h, i) == ps + Episodes(h, next)
    ensures Fold(rows, h, i) == Fold(rows + Summaries(ps), h, next)
    ensures NoneOpen(rows + Summaries(ps)) || next == |h|
  {
    EpisodesUnfold(h, i);
    EpisodesDone(h);
    SkipQuiet(rows, h, i);
    var s := NextStart(h, i);
    hide Summary, ActiveStates, Fold, Step, AllActive, Episodes;
    if s == |h| {
      ps, next := [], |h|;
      assert rows + [] == rows;
      assert [] + Episodes(h, next) == Episodes(h, next);
    } else {
      var e := NextEnd(h, s);
      EpisodeStored(rows, h, s, e);
      var p := Episode(ActiveStates(h, s, e), if e == |h| then None else Some(h[e]));
      ps, next := [p], if e == |h| then e else e + 1;
      SummariesOne(p, []);
      SummaryEnd(p);
      assert [p] + [] == [p] && [Summary(p)] + [] == [Summary(p)];
    }
  }

  lemma {:induction false} EpisodesDone(h: seq<Event>)
    ensures Episodes(h, |h|) == [] && Summaries([]) == []
  {
  }

  lemma {:induction false} SummariesAfter(ps: seq<Episode>, rest: seq<Episode>)
    requires |ps| <= 1 && AllOk(ps) && AllOk(rest)
    ensures AllOk(ps + rest) && Summaries(ps + rest) == Summaries(ps) + Summaries(rest)
  {
    hide Summary;
    if ps == [] {
      assert ps + rest == rest && [] + Summaries(rest) == Summaries(rest);
    } else {
      assert ps == [ps[0]] && ps[1..] == [];
      SummariesOne(ps[0], rest);
      SummariesOne(ps[0], []);
      assert [ps[0]] + [] == ps;
    }
  }

  /** Folding the live rule over a trace stores exactly the summaries of its episodes, in order. */
  lemma {:induction false} LiveIsBatch(rows: seq<Incident>, h: seq<Event>, i: nat)
    requires i <= |h| && NoneOpen(rows)
    ensures Fold(rows, h, i) == rows + Summaries(Episodes(h, i))
    decreases |h| - i
  {
    if i == |h| {
      EpisodesDone(h);
      assert rows + [] == rows;
    } else {
      hide Summaries, AllOk, Fold, Episodes, EpisodeOk;
      var ps, next := OneEpisode(rows, h, i);
      var rest := Episodes(h, next);
      var a, b := Summaries(ps), Summaries(rest);
      SummariesAfter(ps, rest);
      Seqs.Assoc(rows, a, b);
      if next == |h| {
        FoldDone(rows + a, h);
        EpisodesDone(h);
        Seqs.Empty(rows + a);
      } else {
        LiveIsBatch(rows + a, h, next);
      }
    }
  }

  // ----------------------------------------------------------------- what every stored incident satisfies

  lemma {:induction false} FirstReachingMeans(states: seq<Obs>, r: nat) returns (k: nat)
    requires AllActive(states)
    ensures k <= |states| && forall j | 0 <= j < k :: Rank(states[j].state.level) < r
    ensures k < |states| ==> Rank(states[k].state.level) >= r && FirstReaching(states, r) == Some(states[k].at)
    ensures k == |states| ==> FirstReaching(states, r) == None
  {
    k := 0;
    if states != [] {
      var n := |states| - 1;
      k := FirstReachingMeans(states[..n], r);
      forall j | 0 <= j < k ensures Rank(states[j].state.level) < r {
        assert states[..n][j] == states[j];
      }
      if k == n && Rank(states[n].state.level) < r {
        k := n + 1;
      }
    }
  }

  lemma {:induction false} PeakMeans(states: seq<Obs>) returns (k: nat)
    requires AllActive(states) && states != []
    ensures k < |states| && states[k].state.level == Peak(states)
    ensures forall j | 0 <= j < |states| :: Rank(states[j].state.level) <= Rank(Peak(states))
  {
    var n := |states|;
    k := n - 1;
    if n > 1 {
      var l := PeakMeans(states[..n - 1]);
      forall j | 0 <= j < n ensures Rank(states[j].state.level) <= Rank(Peak(states)) {
        if j < n - 1 {
          assert states[..n - 1][j] == states[j];
        }
      }
      if Rank(states[n - 1].state.level) <= Rank(Peak(states[..n - 1])) {
        k := l;
      }
    }
  }

  predicate TimesRise(h: seq<Event>) {
    forall i, j | 0 <= i < j < |h| :: TimeOf(h[i]) <= TimeOf(h[j])
  }

  predicate Rising(a: seq<Obs>) {
    forall i, j | 0 <= i < j < |a| :: a[i].at <= a[j].at
  }

  predicate AllBefore(a: seq<Obs>, t: Time) {
    forall i | 0 <= i < |a| :: a[i].at <= t
  }

  predicate EpisodeRises(p: Episode) {
    Rising(p.states) && (p.end.Some? ==> AllBefore(p.states, TimeOf(p.end.value)))
  }

  lemma {:induction false} StatesRise(h: seq<Event>, s: nat, e: nat)
    requires s <= e <= |h| && TimesRise(h)
    ensures Rising(ActiveStates(h, s, e))
    ensures forall k | e <= k < |h| :: AllBefore(ActiveStates(h, s, e), TimeOf(h[k]))
    decreases e - s
  {
    if s < e {
      StatesRise(h, s, e - 1);
      assert AllBefore(ActiveStates(h, s, e - 1), TimeOf(h[e - 1]));
      forall k | e <= k < |h| ensures AllBefore(ActiveStates(h, s, e), TimeOf(h[k])) {
        assert AllBefore(ActiveStates(h, s, e - 1), TimeOf(h[k]));
      }
    }
  }

  lemma {:induction false} NextEpisode(h: seq<Event>, i: nat) returns (s: nat, e: nat)
    requires i <= |h|
    ensures i <= s <= e <= |h| && forall m | i <= m < s :: !Starts(h[m])
    ensures s == |h| ==> Episodes(h, i) == []
    ensures s < |h| ==> s < e && Starts(h[s]) && EpisodeOk(Episode(ActiveStates(h, s, e), None))
    ensures s < |h| ==> forall m | s <= m < e :: !Ends(h[m])
    ensures s < e == |h| ==> Episodes(h, i) == [Episode(ActiveStates(h, s, e), None)]
    ensures e < |h| ==> Ends(h[e])
    ensures e < |h| ==> Episodes(h, i) == [Episode(ActiveStates(h, s, e), Some(h[e]))] + Episodes(h, e + 1)
  {
    hide *;
    EpisodesUnfold(h, i);
    s := NextStart(h, i);
    if s == |h| {
      e := s;
    } else {
      e := NextEnd(h, s);
      if e == |h| {
        Seqs.Empty([Episode(ActiveStates(h, s, e), None)]);
      }
    }
  }

  lemma {:induction false} EpisodesRise(h: seq<Event>, i: nat, j: nat)
    requires i <= |h| && TimesRise(h) && j < |Episodes(h, i)|
    ensures EpisodeRises(Episodes(h, i)[j])
    decreases |h| - i
  {
    hide *;
    var s, e := NextEpisode(h, i);
    if j == 0 {
      FirstRises(h, s, e);
    } else {
      SecondOn(Episode(ActiveStates(h, s, e), Some(h[e])), Episodes(h, e + 1), j);
      EpisodesRise(h, e + 1, j - 1);
    }
  }

  lemma {:induction false} FirstRises(h: seq<Event>, s: nat, e: nat)
    requires s <= e <= |h| && TimesRise(h)
    ensures EpisodeRises(Episode(ActiveStates(h, s, e), if e == |h| then None else Some(h[e])))
  {
    StatesRise(h, s, e);
    hide ActiveStates, Rising, AllBefore, TimesRise, TimeOf;
  }

  lemma {:induction false} LastIsOpen(h: seq<Event>, i: nat, j: nat)
    requires i <= |h| && j < |Episodes(h, i)|
    ensures Episodes(h, i)[j].end.None? ==> j == |Episodes(h, i)| - 1
    decreases |h| - i
  {
    hide *;
    var s, e := NextEpisode(h, i);
    if j > 0 {
      SecondOn(Episode(ActiveStates(h, s, e), Some(h[e])), Episodes(h, e + 1), j);
      LastIsOpen(h, e + 1, j - 1);
    }
  }

  lemma {:induction false} SecondOn(p: Episode, rest: seq<Episode>, j: nat)
    requires 0 < j <= |rest|
    ensures |[p] + rest| == |rest| + 1 && ([p] + rest)[j] == rest[j - 1]
  {
  }

  /** The marks, the reason and the peak agree. */
  predicate Marked(i: Incident) {
    && (i.buzzerAt.Some? <==> Rank(i.peak) >= 2)
    && (i.shutdownAt.Some? <==> i.peak == Shutdown)
    && (i.ended.Some? <==> i.reason.Some?)
    && (i.reason == Some(OperatorReset) ==> i.peak == Shutdown && i.last == Shutdown)
    && (i.last == Shutdown ==> i.peak == Shutdown)
    && (i.last == Shutdown ==> i.reason != Some(PersonReturned) && i.reason != Some(HeatingStopped))
  }

  /** Start, buzzer, shut-off and end follow one another. */
  predicate InOrder(i: Incident)
    requires Marked(i)
  {
    && (i.buzzerAt.Some? ==> i.started <= i.buzzerAt.value)
    && (i.shutdownAt.Some? ==> i.buzzerAt.value <= i.shutdownAt.value)
    && (i.ended.Some? ==> i.started <= i.ended.value)
    && (i.ended.Some? && i.buzzerAt.Some? ==> i.buzzerAt.value <= i.ended.value)
    && (i.ended.Some? && i.shutdownAt.Some? ==> i.shutdownAt.value <= i.ended.value)
  }

  lemma {:induction false} SummaryIsMarked(p: Episode)
    requires EpisodeOk(p)
    ensures Marked(Summary(p))
  {
    hide FirstReaching, Peak, Recorded, Temps, Tier, Held;
    var b := FirstReachingMeans(p.states, 2);
    var c := FirstReachingMeans(p.states, 3);
    var k := PeakMeans(p.states);
    assert Rank(p.states[|p.states| - 1].state.level) <= Rank(Peak(p.states));
    assert Peak(p.states) == Shutdown ==> c <= k;
    assert Rank(Peak(p.states)) >= 2 ==> b <= k;
  }

  lemma {:induction false} SummaryInOrder(p: Episode)
    requires EpisodeOk(p) && EpisodeRises(p) && Marked(Summary(p))
    ensures InOrder(Summary(p))
  {
    hide FirstReaching, Peak, Recorded, Temps, Tier, Held, Marked;
    var b := FirstReachingMeans(p.states, 2);
    var c := FirstReachingMeans(p.states, 3);
    assert b <= c;
  }

  lemma {:induction false} RowIsSummary(h: seq<Event>, j: nat)
    requires j < |Fold([], h, 0)|
    ensures |Episodes(h, 0)| == |Fold([], h, 0)| && EpisodeOk(Episodes(h, 0)[j])
    ensures Fold([], h, 0)[j] == Summary(Episodes(h, 0)[j])
  {
    hide Summary, Fold;
    LiveIsBatch([], h, 0);
    Seqs.Empty(Summaries(Episodes(h, 0)));
    SummariesAt(Episodes(h, 0), j);
  }

  /**
   Each stored incident is one episode of the trace; it has a buzzer (shut-off) time exactly if its peak was at least
   the buzzer (the shut-off); only the newest can be open; and its times are in order where those of the trace are.
   */
  lemma {:induction false} StoredIncident(h: seq<Event>, j: nat)
    requires j < |Fold([], h, 0)|
    ensures var i := Fold([], h, 0)[j];
      && |Episodes(h, 0)| == |Fold([], h, 0)| && EpisodeOk(Episodes(h, 0)[j]) && i == Summary(Episodes(h, 0)[j])
      && Marked(i)
      && (TimesRise(h) ==> InOrder(i))
      && (i.ended.None? ==> j == |Fold([], h, 0)| - 1)
  {
    hide Summary, Marked, InOrder, EpisodeRises, Fold, Episodes, TimesRise;
    RowIsSummary(h, j);
    SummaryIsMarked(Episodes(h, 0)[j]);
    LastIsOpen(h, 0, j);
    SummaryEnd(Episodes(h, 0)[j]);
    if TimesRise(h) {
      EpisodesRise(h, 0, j);
      SummaryInOrder(Episodes(h, 0)[j]);
    }
  }

  /**
   How an incident ended is settled by the event that ended it and the last active state: an operator's reset
   exactly after a shut-off, otherwise by the state the controller went to; a restart always counts as one.
   */
  lemma {:induction false} EndReasons(p: Episode)
    requires EpisodeOk(p)
    ensures var i, afterShutoff := Summary(p), p.states[|p.states| - 1].state.level == Shutdown;
      && (i.reason.None? <==> p.end.None?)
      && (p.end.Some? ==>
            var e := p.end.value;
            && (i.reason == Some(ControllerRestarted) <==> e.NewBoot? || e.o.state.Restarting?)
            && (i.reason == Some(OperatorReset) <==>
                  afterShutoff && e.Seen? && (e.o.state.Monitoring? || e.o.state.Idle?))
            && (i.reason == Some(PersonReturned) <==> !afterShutoff && e.Seen? && e.o.state.Monitoring?)
            && (i.reason == Some(HeatingStopped) <==> !afterShutoff && e.Seen? && e.o.state.Idle?)
            && i.ended == Some(if e.Seen? then e.o.at else e.at))
  {
  }

  /** The tier kept is the highest that any state of the episode reported. */
  lemma {:induction false} TierIsHighest(states: seq<Obs>)
    ensures Tier(states).None? <==> forall k | 0 <= k < |states| :: states[k].tier.None?
    ensures Tier(states).Some? ==> exists k :: 0 <= k < |states| && states[k].tier == Tier(states)
    ensures forall k | 0 <= k < |states| && states[k].tier.Some? :: states[k].tier.value <= Tier(states).value
  {
    if states != [] {
      var n := |states| - 1;
      TierIsHighest(states[..n]);
      assert forall k | 0 <= k < n :: states[..n][k] == states[k];
      if Tier(states) == Tier(states[..n]) && Tier(states).Some? {
        var k :| 0 <= k < n && states[..n][k].tier == Tier(states[..n]);
        assert states[k].tier == Tier(states);
      } else {
        assert states[n].tier == Tier(states) || Tier(states).None?;
      }
    }
  }

  /**
   What a row says of its episode: when it began and ended, the time of the first state at the buzzer, and at the
   shut-off, its last level, and whether the pan was ever losing heat.
   */
  lemma {:induction false} SummaryTells(p: Episode) returns (b: nat, c: nat)
    requires EpisodeOk(p)
    ensures var i, n := Summary(p), |p.states|;
      && i.started == p.states[0].at && i.last == p.states[n - 1].state.level
      && i.ended == (if p.end.Some? then Some(if p.end.value.Seen? then p.end.value.o.at else p.end.value.at) else None)
      && (i.held <==> exists k :: 0 <= k < n && p.states[k].hold)
    ensures var i, n := Summary(p), |p.states|;
      && b <= n && (forall k | 0 <= k < b :: p.states[k].state.level == Unattended)
      && i.buzzerAt == (if b < n then Some(p.states[b].at) else None)
      && (b < n ==> p.states[b].state.level != Unattended)
    ensures var i, n := Summary(p), |p.states|;
      && c <= n && (forall k | 0 <= k < c :: p.states[k].state.level != Shutdown)
      && i.shutdownAt == (if c < n then Some(p.states[c].at) else None)
      && (c < n ==> p.states[c].state.level == Shutdown)
    ensures Summary(p).peak == Peak(p.states) && Summary(p).maxTier == Tier(p.states)
    ensures Summary(p).maxTemp == Recorded(Temps(p.states))
  {
    hide FirstReaching, Peak, Recorded, Temps, Tier;
    b := FirstReachingMeans(p.states, 2);
    c := FirstReachingMeans(p.states, 3);
  }

  /** An incident is open before event `n`: one began, and nothing since has ended it. */
  ghost predicate OpenAt(h: seq<Event>, n: nat)
    requires n <= |h|
  {
    exists j: nat :: j < n && Starts(h[j]) && forall m | j < m < n :: !Ends(h[m])
  }

  ghost predicate OpensAt(h: seq<Event>, k: nat)
    requires k < |h|
  {
    Starts(h[k]) && !OpenAt(h, k)
  }

  lemma {:induction false} OpenMore(h: seq<Event>, n: nat)
    requires n < |h|
    ensures OpenAt(h, n + 1) <==> Starts(h[n]) || (OpenAt(h, n) && !Ends(h[n]))
  {
    if OpenAt(h, n) && !Ends(h[n]) {
      var j: nat :| j < n && Starts(h[j]) && forall m | j < m < n :: !Ends(h[m]);
      assert forall m | j < m < n + 1 :: !Ends(h[m]);
    }
  }

  lemma {:induction false} StepOpens(rows: seq<Incident>, e: Event)
    ensures var t, open := Step(rows, e), rows != [] && rows[|rows| - 1].ended.None?;
      && |t| == |rows| + (if Starts(e) && !open then 1 else 0)
      && (t != [] && t[|t| - 1].ended.None? <==> Starts(e) || (open && !Ends(e)))
  {
    hide Hotter, HigherTier;
  }

  /** How many of the first `n` events open an incident. */
  ghost function Openings(h: seq<Event>, n: nat): nat
    requires n <= |h|
  {
    if n == 0 then 0 else Openings(h, n - 1) + if OpensAt(h, n - 1) then 1 else 0
  }

  lemma {:induction false} NothingOpened(h: seq<Event>)
    ensures Fold([], h[..0], 0) == [] && Openings(h, 0) == 0 && !OpenAt(h, 0)
  {
  }

  /** How many rows a trace leaves, and whether the newest is open: by its events alone. */
  lemma {:induction false} RowsOfTrace(h: seq<Event>, n: nat)
    requires n <= |h|
    ensures var rows := Fold([], h[..n], 0);
      && |rows| == Openings(h, n)
      && (rows != [] && rows[|rows| - 1].ended.None? <==> OpenAt(h, n))
  {
    hide Step, OpenAt, Fold;
    if n == 0 {
      NothingOpened(h);
    } else {
      var m := n - 1;
      RowsOfTrace(h, m);
      assert h[..n] == h[..m] + [h[m]];
      FoldOn([], h[..m], [h[m]], 0);
      FoldFew(Fold([], h[..m], 0), h[m], h[m]);
      StepOpens(Fold([], h[..m], 0), h[m]);
      OpenMore(h, m);
    }
  }

  // ----------------------------------------------------------------- the hottest temperature

  function Hottest(ts: seq<real>): real
    requires ts != []
  {
    var n := |ts|;
    if n == 1 then ts[0]
    else if ts[n - 1] > Hottest(ts[..n - 1]) then ts[n - 1]
    else Hottest(ts[..n - 1])
  }

  lemma {:induction false} HottestIsMax(ts: seq<real>)
    requires ts != []
    ensures Hottest(ts) in ts && forall t | t in ts :: t <= Hottest(ts)
  {
    var n := |ts|;
    if n > 1 {
      HottestIsMax(ts[..n - 1]);
      assert ts == ts[..n - 1] + [ts[n - 1]];
    }
  }

  /** The recorded maximum is the true one, unless that is 0.0 and something colder was reported after it. */
  lemma {:induction false} RecordedIsHottest(ts: seq<real>)
    requires ts != []
    ensures Recorded(ts) == Some(Hottest(ts)) <==> Hottest(ts) != 0.0 || ts[|ts| - 1] == 0.0
    ensures Recorded(ts).Some? && (Hottest(ts) == 0.0 && ts[|ts| - 1] != 0.0 ==> Recorded(ts).value < 0.0)
  {
    var n := |ts|;
    if n > 1 {
      RecordedIsHottest(ts[..n - 1]);
      HottestIsMax(ts);
    } else {
      assert ts[..0] == [] && Recorded(ts[..0]) == None;
    }
  }

  lemma {:induction false} RecordedMore(ts: seq<real>, t: real)
    ensures Recorded(ts + [t]) == Hotter(Recorded(ts), Some(t))
  {
    assert (ts + [t])[..|ts|] == ts;
  }

  lemma {:induction false} HottestMore(ts: seq<real>, t: real)
    requires ts != []
    ensures Hottest(ts + [t]) == if t > Hottest(ts) then t else Hottest(ts)
  {
    assert (ts + [t])[..|ts|] == ts;
  }

  /** What is recorded then: the hottest of what came after the last 0.0. */
  lemma {:induction false} RecordedAfterZero(a: seq<real>, b: seq<real>)
    requires b != [] && 0.0 !in b && (forall t | t in a + b :: t <= 0.0)
    ensures Recorded(a + [0.0] + b) == Some(Hottest(b)) && Hottest(b) < 0.0
  {
    var n := |b| - 1;
    var all, t := a + [0.0] + b[..n], b[n];
    assert a + [0.0] + b == all + [t];
    RecordedMore(all, t);
    assert t in b && t in a + b;
    if n == 0 {
      assert all == a + [0.0];
      HottestIsMax(all);
      assert all[|a|] == 0.0;
      assert forall x | x in all :: x in a + b || x == 0.0;
      RecordedIsHottest(all);
    } else {
      assert b == b[..n] + [t];
      assert forall x | x in a + b[..n] :: x in a + b;
      RecordedAfterZero(a, b[..n]);
      HottestMore(b[..n], t);
    }
  }

  /** The case in which it is not: 0.0 and then -1.0. */
  lemma {:induction false} ColderAfterZero()
    ensures Hottest([0.0, -1.0]) == 0.0 && Recorded([0.0, -1.0]) == Some(-1.0)
  {
    assert [0.0, -1.0][..1] == [0.0] && [0.0][..0] == [];
    assert Recorded([]) == None && Recorded([0.0]) == Some(0.0);
  }

  // ----------------------------------------------------------------- how incidents ended

  datatype Recovery = AfterBuzzer | StoveOffAfterBuzzer | AfterShutoff | Restarted | Ongoing

  /** Whether an incident is counted in a row of the recovery table, or as ongoing. */
  predicate Counts(i: Incident, row: Recovery) {
    match row
    case AfterBuzzer => i.ended.Some? && i.reason == Some(PersonReturned) && i.peak == Buzzer
    case StoveOffAfterBuzzer => i.ended.Some? && i.reason == Some(HeatingStopped) && i.peak == Buzzer
    case AfterShutoff => i.ended.Some? && i.reason == Some(OperatorReset) && i.peak == Shutdown
    case Restarted => i.ended.Some? && i.reason == Some(ControllerRestarted)
    case Ongoing => i.ended.None?
  }

  function Counted(xs: seq<Incident>, row: Recovery): nat {
    if xs == [] then 0
    else Counted(xs[..|xs| - 1], row) + if Counts(xs[|xs| - 1], row) then 1 else 0
  }

  function CountedInAll(xs: seq<Incident>): nat {
    Counted(xs, AfterBuzzer) + Counted(xs, StoveOffAfterBuzzer) + Counted(xs, AfterShutoff) + Counted(xs, Restarted)
    + Counted(xs, Ongoing)
  }

  /** Shut off, then back to a lower state, and only then over: no row of the table takes such an incident. */
  predicate SteppedDown(i: Incident) {
    i.peak == Shutdown && (i.reason == Some(PersonReturned) || i.reason == Some(HeatingStopped))
  }

  ghost predicate AllInTable(xs: seq<Incident>) {
    forall k | 0 <= k < |xs| :: Marked(xs[k]) && Rank(xs[k].peak) >= 2
  }

  /** The rows and the ongoing ones add up to all incidents exactly when none was left by stepping down. */
  lemma {:induction false} RecoveryAddsUp(xs: seq<Incident>)
    requires AllInTable(xs)
    ensures CountedInAll(xs) <= |xs|
    ensures CountedInAll(xs) == |xs| <==> forall k | 0 <= k < |xs| :: !SteppedDown(xs[k])
  {
    if xs != [] {
      var n := |xs| - 1;
      RecoveryAddsUp(xs[..n]);
      OneRow(xs[n]);
      assert xs == xs[..n] + [xs[n]];
    }
  }

  lemma {:induction false} OneRow(i: Incident)
    requires Marked(i) && Rank(i.peak) >= 2
    ensures (if Counts(i, AfterBuzzer) then 1 else 0) + (if Counts(i, StoveOffAfterBuzzer) then 1 else 0)
      + (if Counts(i, AfterShutoff) then 1 else 0) + (if Counts(i, Restarted) then 1 else 0)
      + (if Counts(i, Ongoing) then 1 else 0)
      == if SteppedDown(i) then 0 else 1
  {
    if i.ended.Some? {
      match i.reason.value
      case PersonReturned =>
      case HeatingStopped =>
      case OperatorReset =>
      case ControllerRestarted =>
    }
  }

  /** The controller went back to normal: someone is there, or nothing is on. */
  predicate EndsNormally(p: Episode) {
    p.end.Some? && p.end.value.Seen? && (p.end.value.o.state.Monitoring? || p.end.value.o.state.Idle?)
  }

  predicate AnyLevel(p: Episode, l: Level)
    requires AllActive(p.states)
  {
    exists k :: 0 <= k < |p.states| && p.states[k].state.level == l
  }

  /**
   Which row an episode is counted in: by what ended it, its last level, and whether buzzer and shut-off were ever
   reached.
   */
  lemma {:induction false} RowOfEpisode(p: Episode)
    requires EpisodeOk(p)
    ensures var i, last := Summary(p), p.states[|p.states| - 1].state.level;
      && (Counts(i, AfterBuzzer) <==>
            EndsNormally(p) && p.end.value.o.state.Monitoring? && AnyLevel(p, Buzzer) && !AnyLevel(p, Shutdown))
      && (Counts(i, StoveOffAfterBuzzer) <==>
            EndsNormally(p) && p.end.value.o.state.Idle? && AnyLevel(p, Buzzer) && !AnyLevel(p, Shutdown))
      && (Counts(i, AfterShutoff) <==> EndsNormally(p) && last == Shutdown)
      && (Counts(i, Restarted) <==> p.end.Some? && (p.end.value.NewBoot? || p.end.value.o.state.Restarting?))
      && (Counts(i, Ongoing) <==> p.end.None?)
  {
    EndReasons(p);
    PeakLevels(p);
    hide Peak, FirstReaching, Recorded, Temps, Tier, Held, AnyLevel;
  }

  lemma {:induction false} PeakLevels(p: Episode)
    requires EpisodeOk(p)
    ensures Peak(p.states) == Shutdown <==> AnyLevel(p, Shutdown)
    ensures Peak(p.states) == Buzzer <==> AnyLevel(p, Buzzer) && !AnyLevel(p, Shutdown)
    ensures p.states[|p.states| - 1].state.level == Shutdown ==> AnyLevel(p, Shutdown)
  {
    var k := PeakMeans(p.states);
    hide Peak;
    assert p.states[k].state.level == Peak(p.states);
  }

  predicate ActiveAt(h: seq<Event>, k: nat, shutdown: bool) {
    k < |h| && Starts(h[k]) && (h[k].o.state.level == Shutdown) == shutdown
  }

  /**
   A shut-off at `j`, the last active state before the end at `e` a lower one at `k`, and the end no restart. This
   speaks of the events alone.
   */
  predicate StepsDown(h: seq<Event>, j: nat, k: nat, e: nat) {
    && j < k < e < |h| && ActiveAt(h, j, true) && ActiveAt(h, k, false)
    && h[e].Seen? && (h[e].o.state.Monitoring? || h[e].o.state.Idle?)
    && (forall m | j <= m < e :: !Ends(h[m]))
    && (forall m | k < m < e :: !Starts(h[m]))
  }

  lemma {:induction false} StateIsEvent(h: seq<Event>, s: nat, e: nat, x: nat) returns (j: nat)
    requires s <= e <= |h| && x < |ActiveStates(h, s, e)|
    ensures s <= j < e && Starts(h[j]) && h[j].o == ActiveStates(h, s, e)[x]
    ensures x == |ActiveStates(h, s, e)| - 1 ==> forall m | j < m < e :: !Starts(h[m])
    decreases e - s
  {
    if Starts(h[e - 1]) && x == |ActiveStates(h, s, e)| - 1 {
      j := e - 1;
    } else {
      j := StateIsEvent(h, s, e - 1, x);
    }
  }

  lemma {:induction false} EventIsState(h: seq<Event>, s: nat, e: nat, j: nat) returns (x: nat)
    requires s <= j < e <= |h| && Starts(h[j])
    ensures x < |ActiveStates(h, s, e)| && ActiveStates(h, s, e)[x] == h[j].o
    ensures (forall m | j < m < e :: !Starts(h[m])) ==> x == |ActiveStates(h, s, e)| - 1
    decreases e - s
  {
    if j == e - 1 {
      x := |ActiveStates(h, s, e)| - 1;
    } else {
      x := EventIsState(h, s, e - 1, j);
    }
  }

  lemma {:induction false} SteppedDownMeans(p: Episode)
    requires EpisodeOk(p)
    ensures SteppedDown(Summary(p)) <==>
      && Peak(p.states) == Shutdown && p.states[|p.states| - 1].state.level != Shutdown
      && p.end.Some? && p.end.value.Seen? && (p.end.value.o.state.Monitoring? || p.end.value.o.state.Idle?)
  {
    EndReasons(p);
    hide Peak, FirstReaching, Recorded, Temps, Tier, Held;
  }

  /** The episode of the events `s` to `e`. */
  lemma {:induction false} EpisodeStepsDown(h: seq<Event>, s: nat, e: nat)
    requires s < e < |h| && Starts(h[s]) && Ends(h[e]) && forall m | s <= m < e :: !Ends(h[m])
    requires EpisodeOk(Episode(ActiveStates(h, s, e), Some(h[e])))
    ensures SteppedDown(Summary(Episode(ActiveStates(h, s, e), Some(h[e])))) <==>
      exists j: nat, k: nat :: s <= j && StepsDown(h, j, k, e)
  {
    var p := Episode(ActiveStates(h, s, e), Some(h[e]));
    SteppedDownMeans(p);
    hide Summary, Peak, ActiveStates;
    var x := PeakMeans(p.states);
    if SteppedDown(Summary(p)) {
      var j := StateIsEvent(h, s, e, x);
      var k := StateIsEvent(h, s, e, |p.states| - 1);
      assert StepsDown(h, j, k, e);
    }
    if j: nat, k: nat :| s <= j && StepsDown(h, j, k, e) {
      var y := EventIsState(h, s, e, j);
      var z := EventIsState(h, s, e, k);
      assert Rank(p.states[y].state.level) <= Rank(Peak(p.states));
    }
  }

  ghost predicate SomeStepsDown(h: seq<Event>, i: nat) {
    exists j: nat, k: nat, e: nat :: i <= j && StepsDown(h, j, k, e)
  }

  predicate SomeSteppedDown(ps: seq<Episode>)
    requires AllOk(ps)
  {
    exists n :: 0 <= n < |ps| && SteppedDown(Summary(ps[n]))
  }

  lemma {:induction false} SomeOfMore(p: Episode, ps: seq<Episode>)
    requires EpisodeOk(p) && AllOk(ps)
    ensures AllOk([p] + ps) && (SomeSteppedDown([p] + ps) <==> SteppedDown(Summary(p)) || SomeSteppedDown(ps))
  {
    hide Summary, SteppedDown;
    var all := [p] + ps;
    if SteppedDown(Summary(p)) {
      assert SteppedDown(Summary(all[0]));
    }
    if n :| 0 <= n < |ps| && SteppedDown(Summary(ps[n])) {
      assert all[n + 1] == ps[n];
    }
  }

  lemma {:induction false} NoneSteppedDown()
    ensures !SomeSteppedDown([])
  {
  }

  /** What happens from `i` on happens from `s` on, in the episode up to `e`, or after it. */
  lemma {:induction false} StepsDownWhere(h: seq<Event>, i: nat, s: nat, e: nat)
    requires i <= s < e < |h| && (forall m | i <= m < s :: !Starts(h[m])) && Ends(h[e])
    requires forall m | s <= m < e :: !Ends(h[m])
    ensures SomeStepsDown(h, i) <==>
      (exists j: nat, k: nat :: s <= j && StepsDown(h, j, k, e)) || SomeStepsDown(h, e + 1)
  {
    if j: nat, k: nat, f: nat :| i <= j && StepsDown(h, j, k, f) {
      assert s <= j && !Ends(h[j]);
      if j < e {
        assert e <= f;
        assert f == e;
      }
    }
  }

  lemma {:induction false} EpisodeThenRest(h: seq<Event>, i: nat, s: nat, e: nat, rest: seq<Episode>)
    requires i <= s < e < |h| && (forall m | i <= m < s :: !Starts(h[m])) && Starts(h[s])
    requires Ends(h[e]) && forall m | s <= m < e :: !Ends(h[m])
    requires EpisodeOk(Episode(ActiveStates(h, s, e), Some(h[e]))) && AllOk(rest)
    requires SomeSteppedDown(rest) <==> SomeStepsDown(h, e + 1)
    ensures AllOk([Episode(ActiveStates(h, s, e), Some(h[e]))] + rest)
    ensures SomeSteppedDown([Episode(ActiveStates(h, s, e), Some(h[e]))] + rest) <==> SomeStepsDown(h, i)
  {
    EpisodeStepsDown(h, s, e);
    StepsDownWhere(h, i, s, e);
    hide ActiveStates, Summary, SteppedDown, StepsDown, Starts, Ends, EpisodeOk, SomeSteppedDown, SomeStepsDown;
    SomeOfMore(Episode(ActiveStates(h, s, e), Some(h[e])), rest);
  }

  lemma {:induction false} OpenEpisode(states: seq<Obs>)
    requires EpisodeOk(Episode(states, None))
    ensures AllOk([Episode(states, None)]) && !SomeSteppedDown([Episode(states, None)])
  {
    SteppedDownMeans(Episode(states, None));
    hide Summary;
  }

  lemma {:induction false} EpisodesStepDown(h: seq<Event>, i: nat)
    requires i <= |h|
    ensures SomeSteppedDown(Episodes(h, i)) <==> SomeStepsDown(h, i)
    decreases |h| - i
  {
    hide *;
    var s, e := NextEpisode(h, i);
    if s == |h| {
      NoneSteppedDown();
      NoStartNoStep(h, i);
    } else if e == |h| {
      NoEndNoStep(h, i, s);
      OpenEpisode(ActiveStates(h, s, e));
    } else {
      EpisodesStepDown(h, e + 1);
      EpisodeWithEnd(ActiveStates(h, s, e), h[e]);
      EpisodeThenRest(h, i, s, e, Episodes(h, e + 1));
    }
  }

  lemma {:induction false} EpisodeWithEnd(states: seq<Obs>, end: Event)
    requires EpisodeOk(Episode(states, None)) && Ends(end)
    ensures EpisodeOk(Episode(states, Some(end)))
  {
  }

  lemma {:induction false} NoStartNoStep(h: seq<Event>, i: nat)
    requires forall m | i <= m < |h| :: !Starts(h[m])
    ensures !SomeStepsDown(h, i)
  {
  }

  lemma {:induction false} NoEndNoStep(h: seq<Event>, i: nat, s: nat)
    requires i <= s < |h| && (forall m | i <= m < s :: !Starts(h[m])) && forall m | s <= m < |h| :: !Ends(h[m])
    ensures !SomeStepsDown(h, i)
  {
  }

  /** The incidents of the recovery table: those that reached the buzzer. */
  function Reached(rows: seq<Incident>): seq<Incident> {
    if rows == [] then []
    else
      var i := rows[|rows| - 1];
      Reached(rows[..|rows| - 1]) + if Rank(i.peak) >= 2 then [i] else []
  }

  lemma {:induction false} ReachedMeans(rows: seq<Incident>, i: Incident)
    ensures i in Reached(rows) <==> i in rows && Rank(i.peak) >= 2
  {
    if rows != [] {
      var n := |rows| - 1;
      ReachedMeans(rows[..n], i);
      assert rows == rows[..n] + [rows[n]];
    }
  }

  /**
   In every trace, the rows of the recovery table and the ongoing incidents add up to all that
   reached the buzzer exactly when the trace never ends an incident from a state it stepped down to after a shut-off.
   */
  lemma {:induction false} TraceAddsUp(h: seq<Event>)
    ensures var xs := Reached(Fold([], h, 0));
      CountedInAll(xs) == |xs| <==> !exists j: nat, k: nat, e: nat :: StepsDown(h, j, k, e)
  {
    hide Fold, Reached, CountedInAll, StepsDown;
    TableRows(h);
    RecoveryAddsUp(Reached(Fold([], h, 0)));
    assert SomeStepsDown(h, 0) <==> exists j: nat, k: nat, e: nat :: StepsDown(h, j, k, e);
  }

  lemma {:induction false} TableRows(h: seq<Event>)
    ensures var xs := Reached(Fold([], h, 0));
      && AllInTable(xs)
      && (SomeStepsDown(h, 0) <==> !forall k | 0 <= k < |xs| :: !SteppedDown(xs[k]))
  {
    var rows, ps := Fold([], h, 0), Episodes(h, 0);
    var xs := Reached(rows);
    EpisodesStepDown(h, 0);
    SameNumber(h);
    hide Fold, Episodes, Summary, Reached, Marked, StepsDown, SteppedDown, SomeStepsDown;
    forall n: nat | n < |rows| ensures rows[n] == Summary(ps[n]) && Marked(rows[n]) {
      RowIsSummary(h, n);
      SummaryIsMarked(ps[n]);
    }
    forall i: Incident ensures i in xs <==> i in rows && Rank(i.peak) >= 2 {
      ReachedMeans(rows, i);
    }
    SteppedInRows(rows, ps, xs);
  }

  lemma {:induction false} SameNumber(h: seq<Event>)
    ensures |Fold([], h, 0)| == |Episodes(h, 0)|
  {
    hide Summary, Fold;
    LiveIsBatch([], h, 0);
    Seqs.Empty(Summaries(Episodes(h, 0)));
    SummariesAt(Episodes(h, 0), 0);
  }

  lemma {:induction false} SteppedInRows(rows: seq<Incident>, ps: seq<Episode>, xs: seq<Incident>)
    requires AllOk(ps) && |rows| == |ps| && forall n | 0 <= n < |rows| :: rows[n] == Summary(ps[n])
    requires forall i: Incident :: i in xs <==> i in rows && Rank(i.peak) >= 2
    ensures SomeSteppedDown(ps) <==> !forall k | 0 <= k < |xs| :: !SteppedDown(xs[k])
  {
    hide Summary;
    if n :| 0 <= n < |ps| && SteppedDown(Summary(ps[n])) {
      assert rows[n] in xs;
    }
    if k :| 0 <= k < |xs| && SteppedDown(xs[k]) {
      assert xs[k] in rows;
    }
  }

  /** In particular they do when a shut-off is never followed by a lower active state before an end. */
  lemma {:induction false} ShutdownIsLast(h: seq<Event>)
    requires forall j: nat, k: nat | j < k && ActiveAt(h, j, true) && ActiveAt(h, k, false) ::
      exists e :: j < e < k && Ends(h[e])
    ensures CountedInAll(Reached(Fold([], h, 0))) == |Reached(Fold([], h, 0))|
  {
    TraceAddsUp(h);
    hide Fold;
  }

  lemma {:induction false} OneUncounted(i: Incident)
    requires SteppedDown(i) && i.ended.Some?
    ensures CountedInAll([i]) == 0 && Reached([i]) == [i]
  {
    forall row ensures Counted([i], row) == 0 {
      assert [i][..0] == [] && Counted([], row) == 0 && !Counts(i, row);
    }
    assert [i][..0] == [] && Reached([]) == [];
  }

  const SHUT_OFF := Seen(Obs(Active(Shutdown), 1, None, None, false))
  const STEPPED_DOWN := Seen(Obs(Active(Unattended), 2, None, None, false))
  const RETURNED := Seen(Obs(Monitoring, 3, None, None, false))
  const SHUT_OFF_ROW := Incident(1, None, Shutdown, Shutdown, Some(1), Some(1), None, None, false, None)
  const STEPPED_DOWN_ROW := SHUT_OFF_ROW.(last := Unattended)
  const RETURNED_ROW := STEPPED_DOWN_ROW.(ended := Some(3), reason := Some(PersonReturned))

  lemma {:induction false} ThreeSteps()
    ensures Step([], SHUT_OFF) == [SHUT_OFF_ROW]
    ensures Step([SHUT_OFF_ROW], STEPPED_DOWN) == [STEPPED_DOWN_ROW]
    ensures Step([STEPPED_DOWN_ROW], RETURNED) == [RETURNED_ROW]
  {
    assert [] + [SHUT_OFF_ROW] == [SHUT_OFF_ROW];
    assert [SHUT_OFF_ROW][..0] + [STEPPED_DOWN_ROW] == [STEPPED_DOWN_ROW];
    assert [STEPPED_DOWN_ROW][..0] + [RETURNED_ROW] == [RETURNED_ROW];
    assert Advance(Opened(SHUT_OFF.o), SHUT_OFF.o) == SHUT_OFF_ROW;
    assert Advance(SHUT_OFF_ROW, STEPPED_DOWN.o) == STEPPED_DOWN_ROW;
    assert Closed(STEPPED_DOWN_ROW, RETURNED) == RETURNED_ROW;
  }

  /** A trace that does step down: shut off, back to the countdown, and then the person returned. It is in no row. */
  lemma {:induction false} SteppedDownIsUncounted() returns (h: seq<Event>)
    ensures StepsDown(h, 0, 1, 2) && |Reached(Fold([], h, 0))| == 1 && CountedInAll(Reached(Fold([], h, 0))) == 0
  {
    h := [SHUT_OFF, STEPPED_DOWN, RETURNED];
    ThreeSteps();
    OneUncounted(RETURNED_ROW);
    hide Step, Reached, CountedInAll, Fold;
    FoldStep([], h, 0);
    FoldStep([SHUT_OFF_ROW], h, 1);
    FoldStep([STEPPED_DOWN_ROW], h, 2);
    FoldDone([RETURNED_ROW], h);
  }

  // ----------------------------------------------------------------- weeks

  /** Days are numbered from 0001-01-01 (1, a Monday). */
  type Day = int

  function WeekStart(d: Day): Day {
    d - (d + 6) % 7
  }

  datatype Week = Week(days: int, buzzer: nat, shutoff: nat)

  predicate Monotone(day: Time -> Day, since: Time, until: Time) {
    forall s, t | since <= s <= t < until :: day(s) <= day(t)
  }

  /** How many of the incidents started in the week, and peaked at the shut-off or below it. */
  function StartedIn(xs: seq<Incident>, day: Time -> Day, w: Day, shutoff: bool): nat {
    if xs == [] then 0
    else
      var i := xs[|xs| - 1];
      var here := WeekStart(day(i.started)) == w && (i.peak == Shutdown) == shutoff;
      StartedIn(xs[..|xs| - 1], day, w, shutoff) + if here then 1 else 0
  }

  function Min(a: int, b: int): int { if a < b then a else b }

  function Max(a: int, b: int): int { if a < b then b else a }

  predicate Monday(w: Day) {
    (w + 6) % 7 == 0
  }

  /** The days of the week that starts at `w` within the period's days. */
  function DaysIn(w: Day, first: Day, last: Day): int {
    Min(w + 6, last) - Max(w, first) + 1
  }

  // ----------------------------------------------------------------- the period asked for

  const MAX_PERIOD_DAYS := 366
  const DAY_LENGTH := 86_400_000_000

  /** Local days: `midnight(d)` is the first time of day `d`. */
  ghost predicate Zone(day: Time -> Day, midnight: Day -> Time) {
    && (forall d :: day(midnight(d)) == d)
    && forall t, d :: midnight(d) <= t <==> d <= day(t)
  }

  /** The last `days` days, or the whole local days from `start` to `end`, today if not given; none when refused. */
  function PeriodBounds(now: Time, days: Option<int>, start: Option<Day>, end: Option<Day>, day: Time -> Day,
      midnight: Day -> Time): Option<(Time, Time)>
  {
    if days.Some? && (start.Some? || end.Some?) then None
    else if days.Some? then
      if 1 <= days.value <= MAX_PERIOD_DAYS then Some((now - days.value * DAY_LENGTH, now)) else None
    else
      var today := day(now);
      var last := if end.Some? then end.value else today;
      if start.None? || start.value > last || last > today || last - start.value + 1 > MAX_PERIOD_DAYS then None
      else Some((midnight(start.value), if now < midnight(last + 1) then now else midnight(last + 1)))
  }

  /** What is let through: 1 to 366 days back from now, or as many whole days, none of them in the future. */
  lemma {:induction false} PeriodLetThrough(now: Time, days: Option<int>, start: Option<Day>, end: Option<Day>,
      day: Time -> Day, midnight: Day -> Time)
    ensures PeriodBounds(now, days, start, end, day, midnight).Some? <==>
      || (days.Some? && start.None? && end.None? && 1 <= days.value <= 366)
      || (days.None? && start.Some? && var last := if end.Some? then end.value else day(now);
            start.value <= last <= day(now) && last < start.value + 366)
  {
  }

  /** Which times the period holds: those of the last days, or of the days asked for, as far as they have passed. */
  lemma {:induction false} PeriodHolds(now: Time, days: Option<int>, start: Option<Day>, end: Option<Day>,
      day: Time -> Day, midnight: Day -> Time, t: Time)
    requires Zone(day, midnight) && PeriodBounds(now, days, start, end, day, midnight).Some?
    ensures var (since, until) := PeriodBounds(now, days, start, end, day, midnight).value;
      since <= t < until <==>
        t < now &&
        if days.Some? then t >= now - days.value * 86_400_000_000
        else start.value <= day(t) <= if end.Some? then end.value else day(now)
  {
  }

  lemma {:induction false} ZoneMonotone(day: Time -> Day, midnight: Day -> Time, since: Time, until: Time)
    requires Zone(day, midnight)
    ensures Monotone(day, since, until)
  {
    forall s, t | since <= s <= t < until ensures day(s) <= day(t) {
      assert midnight(day(s)) <= s;
    }
  }

  /** A period that is let through is never turned round, and empty exactly for today alone, asked at midnight sharp. */
  lemma {:induction false} EmptyPeriod(now: Time, days: Option<int>, start: Option<Day>, end: Option<Day>,
      day: Time -> Day, midnight: Day -> Time)
    requires Zone(day, midnight) && PeriodBounds(now, days, start, end, day, midnight).Some?
    ensures var (since, until) := PeriodBounds(now, days, start, end, day, midnight).value;
      && since <= until && Monotone(day, since, until)
      && (since == until <==> start == Some(day(now)) && now == midnight(day(now)))
  {
    var (since, until) := PeriodBounds(now, days, start, end, day, midnight).value;
    ZoneMonotone(day, midnight, since, until);
    if start.Some? {
      var last := if end.Some? then end.value else day(now);
      assert midnight(start.value) <= now;
      assert day(midnight(last + 1)) == last + 1;
      assert midnight(start.value) <= midnight(last + 1);
      assert midnight(start.value) != midnight(last + 1) by {
        assert day(midnight(start.value)) == start.value;
      }
    }
  }

  /** So the summary of such a day fails: it is let through, and empty. */
  lemma {:induction false} TodayAtMidnight(today: Day, end: Option<Day>, day: Time -> Day, midnight: Day -> Time)
    requires Zone(day, midnight) && (end.Some? ==> end.value == today)
    ensures PeriodBounds(midnight(today), None, Some(today), end, day, midnight)
      == Some((midnight(today), midnight(today)))
  {
    assert day(midnight(today)) == today;
    assert day(midnight(today + 1)) == today + 1;
  }

  /** How many of the incidents are such. */
  ghost function Number(xs: seq<Incident>, f: Incident -> bool): nat {
    |set k: nat | k < |xs| && f(xs[k])|
  }

  lemma {:induction false} NumberMore(xs: seq<Incident>, f: Incident -> bool)
    requires xs != []
    ensures var n := |xs| - 1; Number(xs, f) == Number(xs[..n], f) + if f(xs[n]) then 1 else 0
  {
    var n := |xs| - 1;
    var before := set k: nat | k < n && f(xs[..n][k]);
    var after := set k: nat | k < |xs| && f(xs[k]);
    assert after == if f(xs[n]) then before + {n} else before;
  }

  lemma {:induction false} ShutOffsNumber(xs: seq<Incident>)
    ensures ShutOffs(xs) == Number(xs, (i: Incident) => i.peak == Shutdown)
  {
    if xs != [] {
      ShutOffsNumber(xs[..|xs| - 1]);
      NumberMore(xs, (i: Incident) => i.peak == Shutdown);
    }
  }

  lemma {:induction false} CountedNumber(xs: seq<Incident>, row: Recovery)
    ensures Counted(xs, row) == Number(xs, (i: Incident) => Counts(i, row))
  {
    if xs != [] {
      CountedNumber(xs[..|xs| - 1], row);
      NumberMore(xs, (i: Incident) => Counts(i, row));
      hide Counts;
    }
  }

  lemma {:induction false} StartedNumber(xs: seq<Incident>, day: Time -> Day, w: Day)
    requires Monday(w)
    ensures StartedIn(xs, day, w, false) == Number(xs, (i: Incident) => InWeek(day(i.started), w) && i.peak != Shutdown)
    ensures StartedIn(xs, day, w, true) == Number(xs, (i: Incident) => InWeek(day(i.started), w) && i.peak == Shutdown)
  {
    if xs != [] {
      var n := |xs| - 1;
      StartedNumber(xs[..n], day, w);
      NumberMore(xs, (i: Incident) => InWeek(day(i.started), w) && i.peak != Shutdown);
      NumberMore(xs, (i: Incident) => InWeek(day(i.started), w) && i.peak == Shutdown);
      WeekOfDay(w, day(xs[n].started));
      hide WeekStart, Number;
    }
  }

  lemma {:induction false} WeekOfDay(w: Day, d: Day)
    requires Monday(w)
    ensures WeekStart(d) == w <==> InWeek(d, w)
  {
  }

  predicate InWeek(d: Day, w: Day) {
    w <= d < w + 7
  }

  predicate InPeriod(d: Day, first: Day, last: Day) {
    first <= d <= last
  }

  lemma {:induction false} RangeSize(a: Day, b: Day)
    requires a <= b + 1
    ensures |set d: Day | a <= d <= b && InPeriod(d, a, b)| == b - a + 1
    decreases b - a + 1
  {
    var all := set d: Day | a <= d <= b && InPeriod(d, a, b);
    if a <= b {
      var c := b - 1;
      RangeSize(a, c);
      assert all == (set d: Day | a <= d <= c && InPeriod(d, a, c)) + {b};
    } else {
      assert all == {};
    }
  }

  /** The number of the period's days that lie in the week. */
  lemma {:induction false} DaysNumber(w: Day, first: Day, last: Day)
    requires Monday(w) && WeekStart(first) <= w <= WeekStart(last) && first <= last
    ensures DaysIn(w, first, last) == |set d: Day | first <= d <= last && InWeek(d, w)|
  {
    var a, b := Max(w, first), Min(w + 6, last);
    RangeSize(a, b);
    assert (set d: Day | first <= d <= last && InWeek(d, w)) == (set d: Day | a <= d <= b && InPeriod(d, a, b));
  }

  datatype Period = Period(buzzer: nat, shutoff: nat, weeks: map<Day, Week>, recovery: map<Recovery, nat>)

  /** The week that starts at `w`: its days in the period, and its incidents with and without a shut-off. */
  ghost predicate WeekIs(week: Week, xs: seq<Incident>, day: Time -> Day, w: Day, first: Day, last: Day) {
    && week.days == |set d: Day | first <= d <= last && InWeek(d, w)|
    && week.buzzer == Number(xs, (i: Incident) => InWeek(day(i.started), w) && i.peak != Shutdown)
    && week.shutoff == Number(xs, (i: Incident) => InWeek(day(i.started), w) && i.peak == Shutdown)
  }

  lemma {:induction false} WeeksOf(first: Day, last: Day)
    ensures forall w | Monday(w) :: WeekStart(first) <= w <= WeekStart(last) <==> first - 7 < w <= last
  {
  }

  /**
   The summary of a period: nothing for an empty one, where the weekly rates divide by zero. The incidents are
   those that started in the period.
   */
  method PeriodSummary(xs: seq<Incident>, since: Time, until: Time, day: Time -> Day) returns (r: Option<Period>)
    requires since <= until && Monotone(day, since, until)
    requires forall k | 0 <= k < |xs| :: since <= xs[k].started < until
    ensures r.None? <==> since == until
    ensures r.Some? ==>
      var p, first, last := r.value, day(since), day(until - 1);
      && p.buzzer == |xs| && p.shutoff == Number(xs, (i: Incident) => i.peak == Shutdown)
      && (forall row :: row in p.recovery && p.recovery[row] == Number(xs, (i: Incident) => Counts(i, row)))
      && (forall w :: w in p.weeks <==> Monday(w) && first - 7 < w <= last)
      && forall w | w in p.weeks :: WeekIs(p.weeks[w], xs, day, w, first, last)
  {
    if since == until {
      return None;
    }
    var shutoff := CountShutOffs(xs);
    var first, last := day(since), day(until - 1);
    var weeks := EmptyWeeks(first, last);
    weeks := CountStarts(xs, since, until, day, weeks);
    var recovery := CountRows(xs);
    r := Some(Period(|xs|, shutoff, weeks, recovery));
    WeeksOf(first, last);
    ShutOffsNumber(xs);
    forall row: Recovery ensures Counted(xs, row) == Number(xs, (i: Incident) => Counts(i, row)) {
      CountedNumber(xs, row);
    }
    forall w | w in weeks ensures WeekIs(weeks[w], xs, day, w, first, last) {
      DaysNumber(w, first, last);
      StartedNumber(xs, day, w);
    }
    hide Number, Counted, StartedIn, DaysIn, WeekStart, Monday, Counts, ShutOffs;
  }

  lemma {:induction false} MondaysApart()
    ensures forall d :: Monday(WeekStart(d))
    ensures forall w | Monday(w) :: Monday(w + 7)
    ensures forall v, w | Monday(v) && Monday(w) && v < w + 7 :: v <= w
  {
  }

  method EmptyWeeks(first: Day, last: Day) returns (weeks: map<Day, Week>)
    requires first <= last
    ensures forall w :: w in weeks <==> Monday(w) && WeekStart(first) <= w <= WeekStart(last)
    ensures forall w | w in weeks :: weeks[w] == Week(DaysIn(w, first, last), 0, 0)
  {
    hide Monday, DaysIn;
    weeks := map[];
    var week := WeekStart(first);
    MondaysApart();
    while week <= WeekStart(last)
      invariant Monday(week) && WeekStart(first) <= week <= WeekStart(last) + 7
      invariant forall w :: w in weeks <==> Monday(w) && WeekStart(first) <= w < week
      invariant forall w | w in weeks :: weeks[w] == Week(DaysIn(w, first, last), 0, 0)
    {
      weeks := weeks[week := Week(DaysIn(week, first, last), 0, 0)];
      week := week + 7;
    }
  }

  function ShutOffs(xs: seq<Incident>): nat {
    if xs == [] then 0 else ShutOffs(xs[..|xs| - 1]) + if xs[|xs| - 1].peak == Shutdown then 1 else 0
  }

  method CountShutOffs(xs: seq<Incident>) returns (n: nat)
    ensures n == ShutOffs(xs)
  {
    n := 0;
    for i := 0 to |xs|
      invariant n == ShutOffs(xs[..i])
    {
      assert xs[..i + 1][..i] == xs[..i];
      n := n + if xs[i].peak == Shutdown then 1 else 0;
    }
    assert xs[..|xs|] == xs;
  }

  const ROWS := [AfterBuzzer, StoveOffAfterBuzzer, AfterShutoff, Restarted, Ongoing]

  lemma {:induction false} AllRows(row: Recovery)
    ensures row in ROWS
  {
    match row
    case AfterBuzzer => assert ROWS[0] == row;
    case StoveOffAfterBuzzer => assert ROWS[1] == row;
    case AfterShutoff => assert ROWS[2] == row;
    case Restarted => assert ROWS[3] == row;
    case Ongoing => assert ROWS[4] == row;
  }

  method CountRows(xs: seq<Incident>) returns (recovery: map<Recovery, nat>)
    ensures forall row :: row in recovery && recovery[row] == Counted(xs, row)
  {
    hide Counted;
    recovery := map[];
    for i := 0 to |ROWS|
      invariant forall k | 0 <= k < i :: ROWS[k] in recovery && recovery[ROWS[k]] == Counted(xs, ROWS[k])
    {
      var n := CountRow(xs, ROWS[i]);
      recovery := recovery[ROWS[i] := n];
    }
    forall row ensures row in recovery && recovery[row] == Counted(xs, row) {
      AllRows(row);
    }
  }

  method CountRow(xs: seq<Incident>, row: Recovery) returns (n: nat)
    ensures n == Counted(xs, row)
  {
    n := 0;
    for i := 0 to |xs|
      invariant n == Counted(xs[..i], row)
    {
      assert xs[..i + 1][..i] == xs[..i];
      n := n + if Counts(xs[i], row) then 1 else 0;
    }
    assert xs[..|xs|] == xs;
  }

  method CountStarts(xs: seq<Incident>, since: Time, until: Time, day: Time -> Day, empty: map<Day, Week>)
    returns (weeks: map<Day, Week>)
    requires since < until && Monotone(day, since, until)
    requires forall k | 0 <= k < |xs| :: since <= xs[k].started < until
    requires forall w :: w in empty <==> Monday(w) && WeekStart(day(since)) <= w <= WeekStart(day(until - 1))
    requires forall w | w in empty :: empty[w].buzzer == 0 && empty[w].shutoff == 0
    ensures weeks.Keys == empty.Keys
    ensures forall w | w in weeks ::
      weeks[w] == Week(empty[w].days, StartedIn(xs, day, w, false), StartedIn(xs, day, w, true))
  {
    weeks := empty;
    for j := 0 to |xs|
      invariant weeks.Keys == empty.Keys
      invariant forall w | w in weeks ::
        weeks[w] == Week(empty[w].days, StartedIn(xs[..j], day, w, false), StartedIn(xs[..j], day, w, true))
    {
      assert xs[..j + 1][..j] == xs[..j];
      var w := WeekStart(day(xs[j].started));
      InSomeWeek(day(since), day(xs[j].started), day(until - 1));
      var was := weeks[w];
      weeks := weeks[w := if xs[j].peak == Shutdown then was.(shutoff := was.shutoff + 1)
          else was.(buzzer := was.buzzer + 1)];
    }
    assert xs[..|xs|] == xs;
  }

  lemma {:induction false} InSomeWeek(first: Day, d: Day, last: Day)
    requires first <= d <= last
    ensures Monday(WeekStart(d)) && WeekStart(first) <= WeekStart(d) <= WeekStart(last)
  {
  }

  /** The weeks cut the period's days up: every day is in one of them, and in no other. */
  lemma {:induction false} WeeksPartition(first: Day, last: Day, d: Day, w: Day)
    requires first <= d <= last && Monday(w)
    ensures Monday(WeekStart(d)) && WeekStart(first) <= WeekStart(d) <= WeekStart(last)
    ensures Max(w, first) <= d <= Min(w + 6, last) <==> w == WeekStart(d)
  {
  }

  function SumDays(first: Day, last: Day, w: Day): int
    decreases last - w + 7
  {
    if w > WeekStart(last) then 0 else DaysIn(w, first, last) + SumDays(first, last, w + 7)
  }

  /** The days of the weeks add up to the days of the period. */
  lemma {:induction false} DaysAddUp(first: Day, last: Day)
    requires first <= last
    ensures SumDays(first, last, WeekStart(first)) == last - first + 1
  {
    DaysFrom(first, last, WeekStart(first));
  }

  lemma {:induction false} DaysFrom(first: Day, last: Day, w: Day)
    requires first <= last && Monday(w) && w + 6 >= first && w <= WeekStart(last) + 7
    ensures SumDays(first, last, w) == if w > last then 0 else last - Max(w, first) + 1
    decreases last - w + 7
  {
    if w <= WeekStart(last) {
      DaysFrom(first, last, w + 7);
    }
  }

  function SumStarts(xs: seq<Incident>, day: Time -> Day, w: Day, last: Day): int
    decreases last - w + 7
  {
    if w > WeekStart(last) then 0
    else StartedIn(xs, day, w, false) + StartedIn(xs, day, w, true) + SumStarts(xs, day, w + 7, last)
  }

  /** And every incident is counted in exactly one week. */
  lemma {:induction false} StartsAddUp(xs: seq<Incident>, day: Time -> Day, first: Day, last: Day)
    requires first <= last && forall k | 0 <= k < |xs| :: first <= day(xs[k].started) <= last
    ensures SumStarts(xs, day, WeekStart(first), last) == |xs|
  {
    if xs == [] {
      NoStarts(day, WeekStart(first), last);
    } else {
      StartsAddUp(xs[..|xs| - 1], day, first, last);
      InSomeWeek(first, day(xs[|xs| - 1].started), last);
      InSomeWeek(first, first, last);
      OneStart(xs, day, WeekStart(first), last);
    }
  }

  lemma {:induction false} NoStarts(day: Time -> Day, w: Day, last: Day)
    ensures SumStarts([], day, w, last) == 0
    decreases last - w + 7
  {
    if w <= WeekStart(last) {
      NoStarts(day, w + 7, last);
    }
  }

  lemma {:induction false} OneStart(xs: seq<Incident>, day: Time -> Day, w: Day, last: Day)
    requires xs != [] && Monday(w)
    ensures var d := WeekStart(day(xs[|xs| - 1].started));
      SumStarts(xs, day, w, last)
        == SumStarts(xs[..|xs| - 1], day, w, last) + if w <= d <= WeekStart(last) then 1 else 0
    decreases last - w + 7
  {
    if w <= WeekStart(last) {
      OneStart(xs, day, w + 7, last);
    }
  }
}
