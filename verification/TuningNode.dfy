/**
 The presence node's side of remote tuning: it executes the commands of its controller, answers each, and
 absorbs repeated ones. The radar, the flash and the clock answer as the `World` of each event says.
 */
module TuningNode {
  import opened Bytes
  import opened Options
  import opened Clock
  import opened TuningWire

  const CALIB_GRACE: nat := 3000
  const CALIB_MAX: nat := 600
  const DUPLICATE_WINDOW: nat := 10000

  datatype Node = Node(
    id: nat, defaults: Params,
    lastRequest: word, lastTime: U32, lastAck: Option<Ack>,
    calibrating: bool, calibRequest: word, calibDue: U32,
    current: Params, saved: bool)

  /** How the radar and the flash answer, and the times and the calibration countdown that are read meanwhile. */
  datatype World = World(
    push: bool, restore: bool, save: bool, forget: bool, calibrate: bool,
    motion: Option<Thresholds>, presence: Option<Thresholds>, remaining: word, later: nat)

  /** What an event does to radar, flash, current settings and controller, in order. */
  datatype Effect =
    | Push(p: Params, ok: bool)
    | Save(p: Params, ok: bool)
    | Forget(ok: bool)
    | Calibrate(delay: word, duration: word, ok: bool)
    | ReadBack(motion: Thresholds, presence: Thresholds)
    | Current(p: Params, saved: bool)
    | Answer(ack: Ack)

  function Start(id: nat, defaults: Params, current: Params, saved: bool): Node {
    Node(id, defaults, 0, 0, None, false, 0, 0, current, saved)
  }

  // ----------------------------------------------------------------- one command

  /** The first `n` gates from the sensor, the others as they were. */
  function Over(was: Thresholds, read: Thresholds, n: nat): Thresholds
    requires n <= MAX_GATES
  {
    read[..n] + was[n..]
  }

  function ReadInto(p: Params, motion: Thresholds, presence: Thresholds): Params {
    var n := GateCount(p.resolution);
    p.(motionThresholds := Over(p.motionThresholds, motion, n),
       presenceThresholds := Over(p.presenceThresholds, presence, n),
       motionKnown := true, presenceKnown := true)
  }

  predicate Readable(w: World) {
    w.motion.Some? && w.presence.Some?
  }

  /** A node, what was done, and how it came out. */
  datatype Acted = Acted(n: Node, effects: seq<Effect>, outcome: Outcome)

  function Apply(n: Node, c: Config, w: World): Acted {
    var next := Merge(n.current, c.params, c.fields);
    if !ParamsOk(next) then Acted(n, [], Invalid)
    else if !w.push then Acted(n, [Push(next, false), Push(n.current, w.restore)], SensorError)
    else
      Acted(n.(current := next, saved := w.save), [Push(next, true), Save(next, w.save), Current(next, w.save)], Done)
  }

  function StartCalibration(n: Node, c: Config, w: World): Acted {
    if c.calibDuration == 0 || c.calibDuration > CALIB_MAX || c.calibDelay > CALIB_MAX then Acted(n, [], Invalid)
    else if !w.calibrate then Acted(n, [Calibrate(c.calibDelay, c.calibDuration, false)], SensorError)
    else
      var due := Plus(Tick(w.later), (c.calibDelay + c.calibDuration) * 1000 + CALIB_GRACE);
      Acted(n.(calibrating := true, calibRequest := c.request, calibDue := due),
            [Calibrate(c.calibDelay, c.calibDuration, true)], Done)
  }

  function Read(n: Node, w: World): Acted {
    if !Readable(w) then Acted(n, [], SensorError)
    else
      var p := ReadInto(n.current, w.motion.value, w.presence.value);
      Acted(n.(current := p), [ReadBack(w.motion.value, w.presence.value), Current(p, n.saved)], Done)
  }

  function Reset(n: Node, w: World): Acted {
    if !w.push then Acted(n, [Forget(w.forget), Push(n.defaults, false)], SensorError)
    else
      Acted(n.(current := n.defaults, saved := false),
            [Forget(w.forget), Push(n.defaults, true), Current(n.defaults, false)], Done)
  }

  function Act(n: Node, c: Config, w: World): Acted {
    if c.action == APPLY then Apply(n, c, w)
    else if c.action == CALIBRATE then StartCalibration(n, c, w)
    else if c.action == READ then Read(n, w)
    else if c.action == RESET then Reset(n, w)
    else Acted(n, [], Invalid)
  }

  function MakeAck(n: Node, request: word, action: byte, outcome: Outcome, w: World): Ack {
    Ack(request, action, outcome, if n.calibrating then w.remaining else 0, n.saved, n.current)
  }

  function AckOf(n: Node, c: Config, w: World): Ack {
    MakeAck(Act(n, c, w).n, c.request, c.action, Act(n, c, w).outcome, w)
  }

  predicate Duplicate(n: Node, c: Config, now: U32) {
    c.request != 0 && c.request == n.lastRequest && Since(now, n.lastTime) < DUPLICATE_WINDOW
  }

  function Execute(n: Node, c: Config, now: U32, w: World): Node {
    Act(n, c, w).n.(lastAck := Some(AckOf(n, c, w)), lastRequest := c.request, lastTime := now)
  }

  predicate CalibrationOver(n: Node, now: U32, w: World) {
    n.calibrating && Reached(now, n.calibDue) && w.remaining == 0
  }

  /** The settings that a finished calibration leaves: the learned thresholds, used as custom sensitivity. */
  function Learned(p: Params, motion: Thresholds, presence: Thresholds): Params {
    ReadInto(p, motion, presence).(motionSensitivity := SENS_CUSTOM, presenceSensitivity := SENS_CUSTOM)
  }

  function FinishCalibration(n: Node, w: World): Acted {
    var m := n.(calibrating := false);
    if !Readable(w) then
      Acted(m, [Answer(MakeAck(m, n.calibRequest, CALIBRATE, SensorError, w))], SensorError)
    else
      var p := Learned(n.current, w.motion.value, w.presence.value);
      var done := m.(current := p, saved := w.save);
      Acted(done, [ReadBack(w.motion.value, w.presence.value), Save(p, w.save), Current(p, w.save),
                   Answer(MakeAck(done, n.calibRequest, CALIBRATE, Done, w))], Done)
  }

  // ----------------------------------------------------------------- whole runs

  /**
   A packet that arrived, from the controller's address or not, or the look for a finished calibration that
   every turn of the tuning task ends with. Times are milliseconds since the node started. The channel may have lost,
   repeated, delayed or reordered what was sent: any sequence of packets can arrive.
   */
  datatype Event =
    | Received(trusted: bool, c: Config, now: nat, w: World)
    | Turn(now: nat, w: World)

  predicate Accepted(n: Node, e: Event) {
    e.Received? && e.trusted && e.c.target == n.id
  }

  predicate Executes(n: Node, e: Event) {
    Accepted(n, e) && !Duplicate(n, e.c, Tick(e.now))
  }

  predicate Repeats(n: Node, e: Event) {
    Accepted(n, e) && Duplicate(n, e.c, Tick(e.now))
  }

  predicate Finishes(n: Node, e: Event) {
    e.Turn? && CalibrationOver(n, Tick(e.now), e.w)
  }

  function Next(n: Node, e: Event): Node {
    if Executes(n, e) then Execute(n, e.c, Tick(e.now), e.w)
    else if Finishes(n, e) then FinishCalibration(n, e.w).n
    else n
  }

  function Effects(n: Node, e: Event): seq<Effect> {
    if Executes(n, e) then Act(n, e.c, e.w).effects + [Answer(AckOf(n, e.c, e.w))]
    else if Repeats(n, e) then (if n.lastAck.Some? then [Answer(n.lastAck.value)] else [])
    else if Finishes(n, e) then FinishCalibration(n, e.w).effects
    else []
  }

  function At(start: Node, h: seq<Event>, k: nat): Node
    requires k <= |h|
  {
    if k == 0 then start else Next(At(start, h, k - 1), h[k - 1])
  }

  predicate ExecutedAt(start: Node, h: seq<Event>, k: nat)
    requires k < |h|
  {
    Executes(At(start, h, k), h[k])
  }

  predicate RepeatedAt(start: Node, h: seq<Event>, k: nat)
    requires k < |h|
  {
    Repeats(At(start, h, k), h[k])
  }

  predicate FinishedAt(start: Node, h: seq<Event>, k: nat)
    requires k < |h|
  {
    Finishes(At(start, h, k), h[k])
  }

  function EffectsAt(start: Node, h: seq<Event>, k: nat): seq<Effect>
    requires k < |h|
  {
    Effects(At(start, h, k), h[k])
  }

  predicate Fresh(start: Node) {
    start == Start(start.id, start.defaults, start.current, start.saved)
  }

  lemma {:induction false} SettingsOnly(n: Node, c: Config, w: World)
    ensures var m := Act(n, c, w).n;
      m.id == n.id && m.defaults == n.defaults && m.lastRequest == n.lastRequest && m.lastTime == n.lastTime
      && m.lastAck == n.lastAck
  {
  }

  lemma {:induction false} IdentityKept(start: Node, h: seq<Event>, k: nat)
    requires k <= |h|
    ensures At(start, h, k).id == start.id && At(start, h, k).defaults == start.defaults
  {
    if k > 0 {
      IdentityKept(start, h, k - 1);
      hide Act, AckOf;
      if ExecutedAt(start, h, k - 1) {
        SettingsOnly(At(start, h, k - 1), h[k - 1].c, h[k - 1].w);
      }
    }
  }

  // ----------------------------------------------------------------- what each command does

  /** Settings and saved flag are as they were. */
  predicate Untouched(n: Node, m: Node) {
    m.current == n.current && m.saved == n.saved
  }

  predicate CalibrationUntouched(n: Node, m: Node) {
    m.calibrating == n.calibrating && m.calibRequest == n.calibRequest && m.calibDue == n.calibDue
  }

  /** The gates that the radar has at this resolution hold what was read back, the others what they held. */
  predicate GatesRead(t: Thresholds, was: Thresholds, read: Thresholds, resolution: byte) {
    forall i | 0 <= i < 25 :: t[i] == if i < 15 || resolution == 1 then read[i] else was[i]
  }

  /** Both thresholds read back, and nothing else but what says that they are known. */
  predicate ThresholdsRead(p: Params, was: Params, w: World)
    requires w.motion.Some? && w.presence.Some?
  {
    && GatesRead(p.motionThresholds, was.motionThresholds, w.motion.value, was.resolution)
    && GatesRead(p.presenceThresholds, was.presenceThresholds, w.presence.value, was.resolution)
    && p.motionKnown && p.presenceKnown && SameButThresholds(p, was)
  }

  lemma {:induction false} ReadIntoTakes(p: Params, w: World)
    requires w.motion.Some? && w.presence.Some?
    ensures var q := ReadInto(p, w.motion.value, w.presence.value);
      ThresholdsRead(q, p, w)
      && q.motionSensitivity == p.motionSensitivity && q.presenceSensitivity == p.presenceSensitivity
  {
  }

  /** Action 1: the settings sent are taken over the ones in use, checked, pushed, saved; or the old ones restored. */
  lemma {:induction false} ApplyDoes(n: Node, e: Event) returns (p: Params, a: Ack)
    requires Executes(n, e) && e.c.action == 1
    ensures TakenOver(p, n.current, e.c.params, e.c.fields) && CalibrationUntouched(n, Next(n, e))
    ensures var m, fx, w := Next(n, e), Effects(n, e), e.w;
      if !ParamsOk(p) then
        fx == [Answer(a)] && a.outcome == Invalid && Untouched(n, m)
      else if !w.push then
        fx == [Push(p, false), Push(n.current, w.restore), Answer(a)] && a.outcome == SensorError && Untouched(n, m)
      else
        fx == [Push(p, true), Save(p, w.save), Current(p, w.save), Answer(a)] && a.outcome == Done
        && m.current == p && m.saved == w.save
  {
    p, a := Merge(n.current, e.c.params, e.c.fields), AckOf(n, e.c, e.w);
    MergeTakesOver(n.current, e.c.params, e.c.fields);
    hide Merge, ParamsOk, TakenOver, Duplicate;
  }

  /** Action 2: within its limits a calibration is asked of the radar; it runs if the radar takes it. */
  lemma {:induction false} CalibrateDoes(n: Node, e: Event) returns (a: Ack)
    requires Executes(n, e) && e.c.action == 2
    ensures Untouched(n, Next(n, e))
    ensures var m, fx, c := Next(n, e), Effects(n, e), e.c;
      if !(1 <= c.calibDuration <= 600 && c.calibDelay <= 600) then
        fx == [Answer(a)] && a.outcome == Invalid && CalibrationUntouched(n, m)
      else if !e.w.calibrate then
        fx == [Calibrate(c.calibDelay, c.calibDuration, false), Answer(a)] && a.outcome == SensorError
        && CalibrationUntouched(n, m)
      else
        fx == [Calibrate(c.calibDelay, c.calibDuration, true), Answer(a)] && a.outcome == Done
        && m.calibrating && m.calibRequest == c.request
        && m.calibDue == Tick(e.w.later + (c.calibDelay + c.calibDuration) * 1000 + 3000)
  {
    a := AckOf(n, e.c, e.w);
    ActedCalibration(n, e.c, e.w);
    hide Duplicate, Plus, Tick;
  }

  /** Action 3: the thresholds in use become those of the radar; the flash and the flag are left as they are. */
  lemma {:induction false} ReadDoes(n: Node, e: Event) returns (a: Ack)
    requires Executes(n, e) && e.c.action == 3
    ensures CalibrationUntouched(n, Next(n, e))
    ensures var m, fx, w := Next(n, e), Effects(n, e), e.w;
      if w.motion.None? || w.presence.None? then
        fx == [Answer(a)] && a.outcome == SensorError && Untouched(n, m)
      else
        fx == [ReadBack(w.motion.value, w.presence.value), Current(m.current, n.saved), Answer(a)] && a.outcome == Done
        && ThresholdsRead(m.current, n.current, w) && m.saved == n.saved
        && m.current.motionSensitivity == n.current.motionSensitivity
        && m.current.presenceSensitivity == n.current.presenceSensitivity
  {
    a := AckOf(n, e.c, e.w);
    if e.w.motion.Some? && e.w.presence.Some? {
      ReadIntoTakes(n.current, e.w);
    }
    hide Duplicate, ReadInto, ThresholdsRead;
  }

  /** Action 4: the flash is told to forget first, whatever comes of it; the defaults hold if the radar takes them. */
  lemma {:induction false} ResetDoes(n: Node, e: Event) returns (a: Ack)
    requires Executes(n, e) && e.c.action == 4
    ensures CalibrationUntouched(n, Next(n, e))
    ensures var m, fx, w := Next(n, e), Effects(n, e), e.w;
      if !w.push then
        fx == [Forget(w.forget), Push(n.defaults, false), Answer(a)] && a.outcome == SensorError && Untouched(n, m)
      else
        fx == [Forget(w.forget), Push(n.defaults, true), Current(n.defaults, false), Answer(a)] && a.outcome == Done
        && m.current == n.defaults && !m.saved
  {
    a := AckOf(n, e.c, e.w);
    hide Duplicate;
  }

  /** Any other action is answered as invalid and changes nothing. */
  lemma {:induction false} OthersDoNothing(n: Node, e: Event) returns (a: Ack)
    requires Executes(n, e) && e.c.action !in {1, 2, 3, 4}
    ensures Effects(n, e) == [Answer(a)] && a.outcome == Invalid
    ensures Untouched(n, Next(n, e)) && CalibrationUntouched(n, Next(n, e))
  {
    a := AckOf(n, e.c, e.w);
    assert [] + [Answer(a)] == [Answer(a)];
    hide Duplicate;
  }

  /** A finished calibration makes the thresholds it found the custom sensitivity, saves them, and tells. */
  lemma {:induction false} FinishDoes(n: Node, e: Event) returns (a: Ack)
    requires Finishes(n, e)
    ensures var m, fx, w := Next(n, e), Effects(n, e), e.w;
      && !m.calibrating
      && a.request == n.calibRequest && a.action == 2 && a.calibRemaining == 0 && a.params == m.current
      && a.saved == m.saved
      && if w.motion.None? || w.presence.None? then
        fx == [Answer(a)] && a.outcome == SensorError && Untouched(n, m)
      else
        fx == [ReadBack(w.motion.value, w.presence.value), Save(m.current, w.save), Current(m.current, w.save),
               Answer(a)]
        && a.outcome == Done && m.saved == w.save
        && ThresholdsRead(m.current, n.current, w)
        && m.current.motionSensitivity == 3 && m.current.presenceSensitivity == 3
  {
    var fx := Effects(n, e);
    a := fx[|fx| - 1].ack;
    if e.w.motion.Some? && e.w.presence.Some? {
      var p := ReadInto(n.current, e.w.motion.value, e.w.presence.value);
      ReadIntoTakes(n.current, e.w);
      LearnedTakes(p, p.(motionSensitivity := 3, presenceSensitivity := 3), n.current, e.w);
    }
    hide ReadInto, ThresholdsRead, Reached;
  }

  lemma {:induction false} LearnedTakes(p: Params, q: Params, was: Params, w: World)
    requires w.motion.Some? && w.presence.Some? && ThresholdsRead(p, was, w)
    requires q == p.(motionSensitivity := q.motionSensitivity, presenceSensitivity := q.presenceSensitivity)
    ensures ThresholdsRead(q, was, w)
  {
    hide GatesRead;
  }

  // ----------------------------------------------------------------- repeated commands

  /** The last command executed before `k` is that of event `e`. */
  ghost predicate LastExecuted(start: Node, h: seq<Event>, k: nat, e: nat)
    requires k <= |h|
  {
    e < k && ExecutedAt(start, h, e) && forall i | e < i < k :: !ExecutedAt(start, h, i)
  }

  ghost predicate Remembers(start: Node, h: seq<Event>, k: nat, e: nat)
    requires k <= |h| && e < k && ExecutedAt(start, h, e)
  {
    var n := At(start, h, k);
    && n.lastRequest == h[e].c.request && n.lastTime == Tick(h[e].now)
    && n.lastAck == Some(AckOf(At(start, h, e), h[e].c, h[e].w))
  }

  lemma {:induction false} LastIsRemembered(start: Node, h: seq<Event>, k: nat)
    requires Fresh(start) && k <= |h|
    ensures forall e | LastExecuted(start, h, k, e) :: Remembers(start, h, k, e)
    ensures At(start, h, k).lastRequest != 0 ==> exists e :: LastExecuted(start, h, k, e)
  {
    if k > 0 {
      var last := k - 1;
      LastIsRemembered(start, h, last);
      hide Act, AckOf;
      if ExecutedAt(start, h, last) {
        assert LastExecuted(start, h, k, last);
      } else {
        forall e: nat | e < last && ExecutedAt(start, h, e)
          ensures LastExecuted(start, h, k, e) <==> LastExecuted(start, h, last, e)
        {
        }
        if At(start, h, k).lastRequest != 0 {
          var e: nat :| LastExecuted(start, h, last, e);
          assert LastExecuted(start, h, k, e);
        }
      }
    }
  }

  /**
   A command of the controller is suppressed exactly when it has an id, the last command executed had the same
   id, and the clock has moved less than 10 s on since; it then changes nothing and gets the answer of that
   execution once more.
   */
  lemma {:induction false} SuppressedExactly(start: Node, h: seq<Event>, k: nat)
    requires Fresh(start) && k < |h| && h[k].Received? && h[k].trusted && h[k].c.target == start.id
    ensures RepeatedAt(start, h, k) <==> h[k].c.request != 0 && exists e: nat ::
      && LastExecuted(start, h, k, e) && h[e].c.request == h[k].c.request
      && Since(Tick(h[k].now), Tick(h[e].now)) < 10_000
    ensures RepeatedAt(start, h, k) ==> At(start, h, k + 1) == At(start, h, k)
    ensures RepeatedAt(start, h, k) ==> forall e: nat | LastExecuted(start, h, k, e) ::
      EffectsAt(start, h, k) == [Answer(AckOf(At(start, h, e), h[e].c, h[e].w))]
    ensures ExecutedAt(start, h, k) <==> !RepeatedAt(start, h, k)
  {
    LastIsRemembered(start, h, k);
    IdentityKept(start, h, k);
    hide Act, AckOf;
    if RepeatedAt(start, h, k) {
      var e: nat :| LastExecuted(start, h, k, e);
      assert Remembers(start, h, k, e);
    }
    forall e: nat | LastExecuted(start, h, k, e) ensures Remembers(start, h, k, e) {
    }
  }

  predicate TimesRise(h: seq<Event>) {
    forall i, j | 0 <= i < j < |h| :: h[i].now <= h[j].now
  }

  /** The same id is executed twice only with another command executed in between, or at least 10 s later. */
  lemma {:induction false} ExecutedTwice(start: Node, h: seq<Event>, i: nat, k: nat)
    requires Fresh(start) && TimesRise(h) && i < k < |h|
    requires ExecutedAt(start, h, i) && ExecutedAt(start, h, k)
    requires h[i].c.request == h[k].c.request != 0
    ensures (exists m | i < m < k :: ExecutedAt(start, h, m) && h[m].c.request != h[i].c.request)
      || h[k].now >= h[i].now + 10_000
  {
    var e := FindLast(start, h, i, k);
    LastIsRemembered(start, h, k);
    assert Remembers(start, h, k, e);
    if h[e].c.request == h[i].c.request {
      SinceNeverMore(h[k].now, h[e].now);
    }
  }

  lemma {:induction false} FindLast(start: Node, h: seq<Event>, i: nat, k: nat) returns (e: nat)
    requires i < k <= |h| && ExecutedAt(start, h, i)
    ensures i <= e && LastExecuted(start, h, k, e)
  {
    if ExecutedAt(start, h, k - 1) {
      e := k - 1;
    } else {
      e := FindLast(start, h, i, k - 1);
    }
  }

  // ----------------------------------------------------------------- the settings in use

  /** What justifies a change of the current settings: a push that the radar took, or thresholds read back from it. */
  ghost predicate Justified(before: Node, fx: seq<Effect>, i: nat)
    requires i < |fx| && fx[i].Current?
  {
    var p := fx[i].p;
    || (i >= 2 && fx[i - 2] == Push(p, true) && fx[i - 1] == Save(p, fx[i].saved))
    || (i >= 1 && fx[i - 1] == Push(p, true) && p == before.defaults && !fx[i].saved)
    || (i >= 1 && fx[i - 1].ReadBack? && p == ReadInto(before.current, fx[i - 1].motion, fx[i - 1].presence)
        && fx[i].saved == before.saved)
    || (i >= 2 && fx[i - 2].ReadBack? && p == Learned(before.current, fx[i - 2].motion, fx[i - 2].presence)
        && fx[i - 1] == Save(p, fx[i].saved))
  }

  /** The current settings and the saved flag, after effects that began with `p` and `saved`. */
  function LastCurrent(fx: seq<Effect>, p: Params, saved: bool): (Params, bool) {
    if fx == [] then (p, saved)
    else if fx[|fx| - 1].Current? then (fx[|fx| - 1].p, fx[|fx| - 1].saved)
    else LastCurrent(fx[..|fx| - 1], p, saved)
  }

  lemma {:induction false} LastCurrentAnswer(fx: seq<Effect>, a: Ack, p: Params, saved: bool)
    ensures LastCurrent(fx + [Answer(a)], p, saved) == LastCurrent(fx, p, saved)
  {
    assert (fx + [Answer(a)])[..|fx|] == fx;
  }

  /** What an action did to the settings is what its last `Current` effect says, and each is justified. */
  ghost predicate SettingsFollow(n: Node, r: Acted) {
    && LastCurrent(r.effects, n.current, n.saved) == (r.n.current, r.n.saved)
    && forall i: nat | i < |r.effects| && r.effects[i].Current? :: Justified(n, r.effects, i)
  }

  lemma {:induction false} AppliedSettings(n: Node, c: Config, w: World)
    ensures SettingsFollow(n, Apply(n, c, w))
  {
    hide ParamsOk, Merge, Learned, ReadInto;
    LastCurrentSteps(Apply(n, c, w).effects, n.current, n.saved);
  }

  lemma {:induction false} CalibratedSettings(n: Node, c: Config, w: World)
    ensures SettingsFollow(n, StartCalibration(n, c, w))
  {
    hide ParamsOk, Merge, Learned, ReadInto, Plus, Tick;
    LastCurrentSteps(StartCalibration(n, c, w).effects, n.current, n.saved);
  }

  lemma {:induction false} ReadSettings(n: Node, w: World)
    ensures SettingsFollow(n, Read(n, w))
  {
    hide ParamsOk, Merge, Learned, ReadInto;
    LastCurrentSteps(Read(n, w).effects, n.current, n.saved);
  }

  lemma {:induction false} ResetSettings(n: Node, w: World)
    ensures SettingsFollow(n, Reset(n, w))
  {
    hide ParamsOk, Merge, Learned, ReadInto;
    LastCurrentSteps(Reset(n, w).effects, n.current, n.saved);
  }

  lemma {:induction false} NothingSettings(n: Node)
    ensures SettingsFollow(n, Acted(n, [], Invalid))
  {
  }

  lemma {:induction false} ActedSettings(n: Node, c: Config, w: World)
    ensures SettingsFollow(n, Act(n, c, w))
  {
    hide Apply, StartCalibration, Read, Reset, SettingsFollow;
    AppliedSettings(n, c, w);
    CalibratedSettings(n, c, w);
    ReadSettings(n, w);
    ResetSettings(n, w);
    NothingSettings(n);
  }

  lemma {:induction false} LastCurrentSteps(fx: seq<Effect>, p: Params, saved: bool)
    requires |fx| <= 4
    ensures |fx| == 0 ==> LastCurrent(fx, p, saved) == (p, saved)
    ensures |fx| >= 1 && fx[|fx| - 1].Current? ==> LastCurrent(fx, p, saved) == (fx[|fx| - 1].p, fx[|fx| - 1].saved)
    ensures (forall i | 0 <= i < |fx| :: !fx[i].Current?) ==> LastCurrent(fx, p, saved) == (p, saved)
  {
    if |fx| > 0 {
      LastCurrentSteps(fx[..|fx| - 1], p, saved);
    }
  }

  /** The current settings change only by a justified `Current` effect, and are then what it says. */
  lemma {:induction false} SettingsChangeOnlyJustified(start: Node, h: seq<Event>, k: nat)
    requires k < |h|
    ensures var n, m, fx := At(start, h, k), At(start, h, k + 1), EffectsAt(start, h, k);
      && (m.current, m.saved) == LastCurrent(fx, n.current, n.saved)
      && forall i: nat | i < |fx| && fx[i].Current? :: Justified(n, fx, i)
  {
    var n, e := At(start, h, k), h[k];
    var fx := Effects(n, e);
    hide Act, AckOf, ReadInto, Learned;
    if Executes(n, e) {
      var acted := Act(n, e.c, e.w);
      ActedSettings(n, e.c, e.w);
      LastCurrentAnswer(acted.effects, AckOf(n, e.c, e.w), n.current, n.saved);
      assert fx == acted.effects + [Answer(AckOf(n, e.c, e.w))];
      forall i: nat | i < |fx| && fx[i].Current? ensures Justified(n, fx, i) {
        assert Justified(n, acted.effects, i);
      }
    } else if Finishes(n, e) {
      FinishSettings(n, e.w);
    } else {
      LastCurrentSteps(fx, n.current, n.saved);
    }
  }

  lemma {:induction false} FinishSettings(n: Node, w: World)
    ensures var r := FinishCalibration(n, w);
      && LastCurrent(r.effects, n.current, n.saved) == (r.n.current, r.n.saved)
      && forall i: nat | i < |r.effects| && r.effects[i].Current? :: Justified(n, r.effects, i)
  {
    hide Learned, ReadInto;
    var fx := FinishCalibration(n, w).effects;
    LastCurrentSteps(fx, n.current, n.saved);
    if Readable(w) {
      LastCurrentAnswer(fx[..3], fx[3].ack, n.current, n.saved);
      assert fx == fx[..3] + [Answer(fx[3].ack)];
      LastCurrentSteps(fx[..3], n.current, n.saved);
    }
  }

  /**
   The answer to an executed command names it and tells the state that it left; a countdown only while calibrating.
   */
  lemma {:induction false} AckTellsState(start: Node, h: seq<Event>, k: nat) returns (ack: Ack)
    requires k < |h| && ExecutedAt(start, h, k)
    ensures EffectsAt(start, h, k) != [] && EffectsAt(start, h, k)[|EffectsAt(start, h, k)| - 1] == Answer(ack)
    ensures ack.request == h[k].c.request && ack.action == h[k].c.action
    ensures ack.params == At(start, h, k + 1).current && ack.saved == At(start, h, k + 1).saved
    ensures ack.calibRemaining == if At(start, h, k + 1).calibrating then h[k].w.remaining else 0
    ensures At(start, h, k + 1).lastAck == Some(ack)
  {
    hide Act;
    ack := AckOf(At(start, h, k), h[k].c, h[k].w);
  }

  // ----------------------------------------------------------------- radar, flash and settings

  /** What the radar is known to be set to: nothing once it refused a push. */
  function Radar(fx: seq<Effect>, was: Option<Params>): Option<Params> {
    if fx == [] then was
    else
      var e := fx[|fx| - 1];
      if e.Push? then (if e.ok then Some(e.p) else None) else Radar(fx[..|fx| - 1], was)
  }

  /** What the flash holds. */
  function Flash(fx: seq<Effect>, was: Option<Params>): Option<Params> {
    if fx == [] then was
    else
      var e := fx[|fx| - 1];
      if e.Save? && e.ok then Some(e.p)
      else if e.Forget? && e.ok then None
      else Flash(fx[..|fx| - 1], was)
  }

  function RadarAt(start: Node, radar: Option<Params>, h: seq<Event>, k: nat): Option<Params>
    requires k <= |h|
  {
    if k == 0 then radar else Radar(EffectsAt(start, h, k - 1), RadarAt(start, radar, h, k - 1))
  }

  function FlashAt(start: Node, flash: Option<Params>, h: seq<Event>, k: nat): Option<Params>
    requires k <= |h|
  {
    if k == 0 then flash else Flash(EffectsAt(start, h, k - 1), FlashAt(start, flash, h, k - 1))
  }

  predicate InStep(n: Node, radar: Option<Params>) {
    radar.Some? ==> SameButThresholds(radar.value, n.current)
  }

  /** The saved flag tells the truth: the flash holds the settings in use, every threshold included. */
  predicate Honest(n: Node, flash: Option<Params>) {
    n.saved ==> flash == Some(n.current)
  }

  /** A reset that erased the saved settings although the radar then refused the defaults. */
  predicate HalfReset(n: Node, e: Event) {
    Executes(n, e) && e.c.action == RESET && e.w.forget && !e.w.push && n.saved
  }

  /** An executed read that takes other thresholds over under a set flag: it writes no flash and keeps the flag. */
  predicate DriftingRead(n: Node, e: Event) {
    Executes(n, e) && e.c.action == READ && Drifts(n, e.w)
  }

  predicate Drifts(n: Node, w: World) {
    Readable(w) && n.saved && ReadInto(n.current, w.motion.value, w.presence.value) != n.current
  }

  lemma {:induction false} RadarSteps(fx: seq<Effect>, was: Option<Params>)
    requires |fx| <= 5
    ensures |fx| == 0 ==> Radar(fx, was) == was
    ensures |fx| >= 1 && fx[|fx| - 1].Push? ==> Radar(fx, was) == if fx[|fx| - 1].ok then Some(fx[|fx| - 1].p) else None
    ensures |fx| >= 1 && !fx[|fx| - 1].Push? ==> Radar(fx, was) == Radar(fx[..|fx| - 1], was)
  {
  }

  lemma {:induction false} AppliedInStep(n: Node, c: Config, w: World, radar: Option<Params>)
    requires InStep(n, radar)
    ensures InStep(Apply(n, c, w).n, Radar(Apply(n, c, w).effects, radar))
  {
    hide ParamsOk, Merge, Radar;
    RadarTwice(Apply(n, c, w).effects, radar);
  }

  lemma {:induction false} ResetInStep(n: Node, w: World, radar: Option<Params>)
    requires InStep(n, radar)
    ensures InStep(Reset(n, w).n, Radar(Reset(n, w).effects, radar))
  {
    hide Radar;
    RadarTwice(Reset(n, w).effects, radar);
  }

  lemma {:induction false} RadarTwice(fx: seq<Effect>, radar: Option<Params>)
    requires |fx| <= 3
    ensures |fx| == 0 ==> Radar(fx, radar) == radar
    ensures |fx| >= 1 && fx[|fx| - 1].Push? ==>
      Radar(fx, radar) == if fx[|fx| - 1].ok then Some(fx[|fx| - 1].p) else None
    ensures |fx| == 3 && !fx[2].Push? && !fx[1].Push? && fx[0].Push? ==>
      Radar(fx, radar) == if fx[0].ok then Some(fx[0].p) else None
    ensures |fx| == 3 && !fx[2].Push? && fx[1].Push? ==> Radar(fx, radar) == if fx[1].ok then Some(fx[1].p) else None
  {
    RadarSteps(fx, radar);
    if |fx| >= 1 {
      RadarSteps(fx[..|fx| - 1], radar);
      if |fx| >= 2 {
        RadarSteps(fx[..|fx| - 1][..|fx| - 2], radar);
      }
    }
    hide Radar;
  }

  /** Reading and calibrating push nothing, and change only what is set aside here. */
  lemma {:induction false} OthersInStep(n: Node, c: Config, w: World, radar: Option<Params>)
    requires InStep(n, radar)
    ensures InStep(StartCalibration(n, c, w).n, Radar(StartCalibration(n, c, w).effects, radar))
    ensures InStep(Read(n, w).n, Radar(Read(n, w).effects, radar))
    ensures InStep(n, Radar([], radar))
  {
    hide Plus, Tick;
    RadarNoPush(StartCalibration(n, c, w).effects, radar);
    RadarNoPush(Read(n, w).effects, radar);
    RadarNoPush([], radar);
  }

  lemma {:induction false} ActedInStep(n: Node, c: Config, w: World, radar: Option<Params>)
    requires InStep(n, radar)
    ensures InStep(Act(n, c, w).n, Radar(Act(n, c, w).effects, radar))
  {
    hide Apply, StartCalibration, Read, Reset, InStep, Radar;
    AppliedInStep(n, c, w, radar);
    ResetInStep(n, w, radar);
    OthersInStep(n, c, w, radar);
  }

  /** Whenever the last push was taken, the radar runs the current settings, thresholds and sensitivity aside. */
  lemma {:induction false} RadarRunsCurrent(start: Node, radar: Option<Params>, h: seq<Event>, k: nat)
    requires k <= |h| && InStep(start, radar)
    ensures InStep(At(start, h, k), RadarAt(start, radar, h, k))
  {
    if k > 0 {
      RadarRunsCurrent(start, radar, h, k - 1);
      var n, e, was := At(start, h, k - 1), h[k - 1], RadarAt(start, radar, h, k - 1);
      hide Act, AckOf;
      if Executes(n, e) {
        ActedInStep(n, e.c, e.w, was);
        RadarAfterAnswer(Act(n, e.c, e.w).effects, AckOf(n, e.c, e.w), was);
      } else if Finishes(n, e) {
        FinishInStep(n, e.w, was);
      } else {
        RadarNoPush(Effects(n, e), was);
      }
    }
  }

  lemma {:induction false} RadarAfterAnswer(fx: seq<Effect>, a: Ack, was: Option<Params>)
    ensures Radar(fx + [Answer(a)], was) == Radar(fx, was)
  {
    assert (fx + [Answer(a)])[..|fx|] == fx;
  }

  lemma {:induction false} FinishInStep(n: Node, w: World, radar: Option<Params>)
    requires InStep(n, radar)
    ensures InStep(FinishCalibration(n, w).n, Radar(FinishCalibration(n, w).effects, radar))
  {
    RadarNoPush(FinishCalibration(n, w).effects, radar);
  }

  lemma {:induction false} RadarNoPush(fx: seq<Effect>, was: Option<Params>)
    requires forall i | 0 <= i < |fx| :: !fx[i].Push?
    ensures Radar(fx, was) == was
  {
    if fx != [] {
      RadarNoPush(fx[..|fx| - 1], was);
    }
  }

  lemma {:induction false} FlashOne(fx: seq<Effect>, e: Effect, was: Option<Params>)
    ensures Flash(fx + [e], was) ==
      if e.Save? && e.ok then Some(e.p) else if e.Forget? && e.ok then None else Flash(fx, was)
  {
    assert (fx + [e])[..|fx|] == fx;
  }

  lemma {:induction false} FlashThree(a: Effect, b: Effect, c: Effect, was: Option<Params>)
    ensures Flash([a], was) == if a.Save? && a.ok then Some(a.p) else if a.Forget? && a.ok then None else was
    ensures Flash([a, b], was) ==
      if b.Save? && b.ok then Some(b.p) else if b.Forget? && b.ok then None else Flash([a], was)
    ensures Flash([a, b, c], was) ==
      if c.Save? && c.ok then Some(c.p) else if c.Forget? && c.ok then None else Flash([a, b], was)
  {
    FlashOne([], a, was);
    FlashOne([a], b, was);
    FlashOne([a, b], c, was);
    assert [] + [a] == [a] && [a] + [b] == [a, b] && [a, b] + [c] == [a, b, c];
  }

  lemma {:induction false} ActedHonest(n: Node, c: Config, w: World, flash: Option<Params>)
    requires Honest(n, flash)
    ensures var r := Act(n, c, w);
      Honest(r.n, Flash(r.effects, flash)) <==>
        !(c.action == RESET && w.forget && !w.push && n.saved) && !(c.action == READ && Drifts(n, w))
  {
    hide ParamsOk, Merge, ReadInto;
    var fx := Act(n, c, w).effects;
    if |fx| == 1 {
      FlashThree(fx[0], fx[0], fx[0], flash);
      assert fx == [fx[0]];
    } else if |fx| == 2 {
      FlashThree(fx[0], fx[1], fx[1], flash);
      assert fx == [fx[0], fx[1]];
    } else if |fx| == 3 {
      FlashThree(fx[0], fx[1], fx[2], flash);
      assert fx == [fx[0], fx[1], fx[2]];
    }
  }

  /** A finished calibration saves or drops the flag; without a read-back it leaves settings, flag and flash alone. */
  lemma {:induction false} FinishSaves(n: Node, w: World, flash: Option<Params>)
    ensures var m, after := FinishCalibration(n, w).n, Flash(FinishCalibration(n, w).effects, flash);
      if Readable(w) then m.saved ==> after == Some(m.current)
      else after == flash && m.current == n.current && m.saved == n.saved
  {
    hide Learned;
    var fx := FinishCalibration(n, w).effects;
    if |fx| == 1 {
      FlashThree(fx[0], fx[0], fx[0], flash);
      assert fx == [fx[0]];
    } else {
      FlashThree(fx[0], fx[1], fx[2], flash);
      FlashOne(fx[..3], fx[3], flash);
      assert fx[..3] == [fx[0], fx[1], fx[2]] && fx == fx[..3] + [fx[3]];
    }
  }

  lemma {:induction false} NextHonest(n: Node, e: Event, flash: Option<Params>)
    requires Honest(n, flash)
    ensures Honest(Next(n, e), Flash(Effects(n, e), flash)) <==> !HalfReset(n, e) && !DriftingRead(n, e)
  {
    hide Act, AckOf, ReadInto;
    if Executes(n, e) {
      ActedHonest(n, e.c, e.w, flash);
      FlashOne(Act(n, e.c, e.w).effects, Answer(AckOf(n, e.c, e.w)), flash);
    } else if Finishes(n, e) {
      FinishSaves(n, e.w, flash);
    } else if Effects(n, e) != [] {
      FlashThree(Effects(n, e)[0], Effects(n, e)[0], Effects(n, e)[0], flash);
      assert Effects(n, e) == [Effects(n, e)[0]];
    }
  }

  /** One event keeps the saved flag honest exactly when it is neither a half reset nor a drifting read. */
  lemma {:induction false} HonestyLost(start: Node, flash: Option<Params>, h: seq<Event>, k: nat)
    requires k < |h| && Honest(At(start, h, k), FlashAt(start, flash, h, k))
    ensures Honest(At(start, h, k + 1), FlashAt(start, flash, h, k + 1)) <==>
      !HalfReset(At(start, h, k), h[k]) && !DriftingRead(At(start, h, k), h[k])
  {
    NextHonest(At(start, h, k), h[k], FlashAt(start, flash, h, k));
    hide Honest, Next, Effects, Flash, HalfReset, DriftingRead;
  }

  lemma {:induction false} NothingHappened(start: Node, flash: Option<Params>, h: seq<Event>)
    ensures At(start, h, 0) == start && FlashAt(start, flash, h, 0) == flash
  {
  }

  /** Without either the flag is honest throughout. */
  lemma {:induction false} SavedIsHonest(start: Node, flash: Option<Params>, h: seq<Event>, k: nat)
    requires k <= |h| && Honest(start, flash)
    requires forall i | 0 <= i < k :: !HalfReset(At(start, h, i), h[i]) && !DriftingRead(At(start, h, i), h[i])
    ensures Honest(At(start, h, k), FlashAt(start, flash, h, k))
  {
    hide HalfReset, DriftingRead, Honest, At, FlashAt;
    if k == 0 {
      NothingHappened(start, flash, h);
    } else {
      SavedIsHonest(start, flash, h, k - 1);
      HonestyLost(start, flash, h, k - 1);
    }
  }

  /** A half reset lies: one that erases the flash and is then refused by the radar still answers `saved`. */
  lemma {:induction false} HalfResetLies(p: Params, now: nat) returns (start: Node, e: Event, ack: Ack)
    ensures Fresh(start) && Honest(start, Some(p)) && HalfReset(start, e)
    ensures Effects(start, e)[|Effects(start, e)| - 1] == Answer(ack) && ack.saved
    ensures FlashAt(start, Some(p), [e], 1) == None
  {
    start := Start(1, p, p, true);
    var w := World(false, true, true, true, true, None, None, 0, 0);
    var c := Config(1, 5, RESET, {}, 0, 0, p);
    e := Received(true, c, now, w);
    ack := AckOf(start, c, w);
    var fx := [Forget(true), Push(p, false), Answer(ack)];
    assert Effects(start, e) == fx;
    FlashThree(fx[0], fx[1], fx[2], Some(p));
    assert At(start, [e], 0) == start;
    assert FlashAt(start, Some(p), [e], 0) == Some(p);
  }

  /**
   A drifting read lies too: under custom sensitivity the thresholds it takes over are in use, it answers `saved`,
   and the flash still holds the ones before, which the next boot brings back.
   */
  lemma {:induction false} DriftingReadLies(p: Params, motion: Thresholds, now: nat)
    returns (start: Node, e: Event, ack: Ack)
    requires p.motionSensitivity == SENS_CUSTOM && motion[0] != p.motionThresholds[0]
    ensures Fresh(start) && Honest(start, Some(p)) && DriftingRead(start, e) && !HalfReset(start, e)
    ensures Effects(start, e)[|Effects(start, e)| - 1] == Answer(ack)
    ensures ack.saved && ack.params == Next(start, e).current
    ensures FlashAt(start, Some(p), [e], 1) == Some(p) && InUse(p) != InUse(ack.params)
  {
    start := Start(1, p, p, true);
    var w := World(true, true, true, true, true, Some(motion), Some(p.presenceThresholds), 0, 0);
    var c := Config(1, 5, READ, {}, 0, 0, p);
    e := Received(true, c, now, w);
    ack := AckOf(start, c, w);
    var q := ReadInto(p, motion, p.presenceThresholds);
    assert q.motionThresholds[0] == motion[0];
    var fx := [ReadBack(motion, p.presenceThresholds), Current(q, true), Answer(ack)];
    assert Effects(start, e) == fx;
    FlashThree(fx[0], fx[1], fx[2], Some(p));
    assert At(start, [e], 0) == start;
    assert FlashAt(start, Some(p), [e], 0) == Some(p);
  }

  /** The settings as the radar uses them: thresholds count only under custom sensitivity. */
  function InUse(p: Params): Params {
    p.(motionThresholds := if p.motionSensitivity == SENS_CUSTOM then p.motionThresholds else ZEROS,
       motionKnown := p.motionSensitivity == SENS_CUSTOM && p.motionKnown,
       presenceThresholds := if p.presenceSensitivity == SENS_CUSTOM then p.presenceThresholds else ZEROS,
       presenceKnown := p.presenceSensitivity == SENS_CUSTOM && p.presenceKnown)
  }

  /** A weaker promise: what the flash holds is the same in use. */
  predicate HonestInUse(n: Node, flash: Option<Params>) {
    n.saved ==> flash.Some? && InUse(flash.value) == InUse(n.current)
  }

  /** The read changes thresholds that are in use. */
  predicate DriftingInUse(n: Node, e: Event) {
    && DriftingRead(n, e)
    && InUse(ReadInto(n.current, e.w.motion.value, e.w.presence.value)) != InUse(n.current)
  }

  /** It does not depend on which of two settings with the same use the flash holds. */
  lemma {:induction false} ActedInUse(n: Node, c: Config, w: World, flash: Option<Params>)
    requires HonestInUse(n, flash)
    ensures var r := Act(n, c, w);
      HonestInUse(r.n, Flash(r.effects, flash)) <==>
        && !(c.action == RESET && w.forget && !w.push && n.saved)
        && !(c.action == READ && Drifts(n, w)
             && InUse(ReadInto(n.current, w.motion.value, w.presence.value)) != InUse(n.current))
  {
    hide ParamsOk, Merge, ReadInto, InUse;
    var fx := Act(n, c, w).effects;
    if |fx| == 1 {
      FlashThree(fx[0], fx[0], fx[0], flash);
      assert fx == [fx[0]];
    } else if |fx| == 2 {
      FlashThree(fx[0], fx[1], fx[1], flash);
      assert fx == [fx[0], fx[1]];
    } else if |fx| == 3 {
      FlashThree(fx[0], fx[1], fx[2], flash);
      assert fx == [fx[0], fx[1], fx[2]];
    }
  }

  lemma {:induction false} NextInUse(n: Node, e: Event, flash: Option<Params>)
    requires HonestInUse(n, flash)
    ensures HonestInUse(Next(n, e), Flash(Effects(n, e), flash)) <==> !HalfReset(n, e) && !DriftingInUse(n, e)
  {
    hide Act, AckOf, ReadInto, InUse;
    if Executes(n, e) {
      ActedInUse(n, e.c, e.w, flash);
      FlashOne(Act(n, e.c, e.w).effects, Answer(AckOf(n, e.c, e.w)), flash);
    } else if Finishes(n, e) {
      FinishSaves(n, e.w, flash);
    } else if Effects(n, e) != [] {
      FlashThree(Effects(n, e)[0], Effects(n, e)[0], Effects(n, e)[0], flash);
      assert Effects(n, e) == [Effects(n, e)[0]];
    }
  }

  /**
   What survives a reboot is what the radar uses, in every run without a half reset and without a read that changes
   thresholds under custom sensitivity; and one event that starts from there loses it exactly by being one of the two.
   */
  lemma {:induction false} SavedSurvivesInUse(start: Node, flash: Option<Params>, h: seq<Event>, k: nat)
    requires k <= |h| && HonestInUse(start, flash)
    requires forall i | 0 <= i < k :: !HalfReset(At(start, h, i), h[i]) && !DriftingInUse(At(start, h, i), h[i])
    ensures HonestInUse(At(start, h, k), FlashAt(start, flash, h, k))
    ensures k < |h| ==>
      (HonestInUse(At(start, h, k + 1), FlashAt(start, flash, h, k + 1)) <==>
        !HalfReset(At(start, h, k), h[k]) && !DriftingInUse(At(start, h, k), h[k]))
  {
    hide HalfReset, DriftingInUse, HonestInUse, Next, Effects, Flash;
    if k > 0 {
      SavedSurvivesInUse(start, flash, h, k - 1);
    }
    if k < |h| {
      NextInUse(At(start, h, k), h[k], FlashAt(start, flash, h, k));
    }
  }

  // ----------------------------------------------------------------- valid settings

  /** Thresholds that the radar hands back beyond 99 are taken over unchecked. */
  predicate ReadsBackBad(n: Node, e: Event) {
    && Readable(e.w)
    && ((Executes(n, e) && e.c.action == READ) || Finishes(n, e))
    && !(ThresholdsOk(Over(n.current.motionThresholds, e.w.motion.value, GateCount(n.current.resolution)))
         && ThresholdsOk(Over(n.current.presenceThresholds, e.w.presence.value, GateCount(n.current.resolution))))
  }

  lemma {:induction false} ActedValid(n: Node, c: Config, w: World)
    requires ParamsOk(n.current) && ParamsOk(n.defaults)
    ensures var p := n.current; var g := GateCount(p.resolution);
      ParamsOk(Act(n, c, w).n.current) <==> (c.action == READ && Readable(w) ==>
        && ThresholdsOk(Over(p.motionThresholds, w.motion.value, g))
        && ThresholdsOk(Over(p.presenceThresholds, w.presence.value, g)))
  {
    hide Merge, ThresholdsOk, Over;
  }

  /** The settings in use stay within the sensor's limits exactly as long as no such read-back is taken over. */
  lemma {:induction false} SettingsStayValid(start: Node, h: seq<Event>, k: nat)
    requires k < |h| && ParamsOk(At(start, h, k).current) && ParamsOk(start.defaults)
    ensures ParamsOk(At(start, h, k + 1).current) <==> !ReadsBackBad(At(start, h, k), h[k])
  {
    var n, e := At(start, h, k), h[k];
    IdentityKept(start, h, k);
    if Executes(n, e) {
      hide Act, AckOf, ParamsOk, ThresholdsOk, Over;
      ActedValid(n, e.c, e.w);
    } else if Finishes(n, e) && Readable(e.w) {
      hide ThresholdsOk, Over;
    }
  }

  /** And that happens: a read that brings a threshold of 100 leaves settings that no command could have set. */
  lemma {:induction false} ReadTakesAnything(p: Params, high: Thresholds, now: nat) returns (start: Node, e: Event)
    requires ParamsOk(p) && high[0] == 100
    ensures Fresh(start) && ParamsOk(start.current) && !ParamsOk(Next(start, e).current)
  {
    start := Start(1, p, p, true);
    e := Received(true, Config(1, 0, READ, {}, 0, 0, p), now,
        World(true, true, true, true, true, Some(high), Some(high), 0, 0));
    assert Over(p.motionThresholds, high, GateCount(p.resolution))[0] == 100;
  }

  // ----------------------------------------------------------------- calibration

  /** The command of event `j` is executed and starts a calibration. */
  predicate StartsAt(start: Node, h: seq<Event>, j: nat)
    requires j < |h|
  {
    ExecutedAt(start, h, j) && h[j].c.action == CALIBRATE && Act(At(start, h, j), h[j].c, h[j].w).outcome == Done
  }

  /** A calibration that was started by event `j` and has not been finished since. */
  ghost predicate CalibratesSince(start: Node, h: seq<Event>, k: nat, j: nat)
    requires k <= |h|
  {
    && j < k && StartsAt(start, h, j)
    && forall i | j < i < k :: !FinishedAt(start, h, i)
  }

  function CalibrationEnd(e: Event): nat
    requires e.Received?
  {
    e.w.later + (e.c.calibDelay + e.c.calibDuration) * 1000 + CALIB_GRACE
  }

  ghost predicate CalibrationOf(n: Node, e: Event) {
    e.Received? && n.calibRequest == e.c.request && n.calibDue == Tick(CalibrationEnd(e))
  }

  lemma {:induction false} ActedCalibration(n: Node, c: Config, w: World)
    ensures var r := Act(n, c, w);
      if c.action == CALIBRATE && r.outcome == Done then
        r.n.calibrating && r.n.calibRequest == c.request
        && r.n.calibDue == Tick(w.later + (c.calibDelay + c.calibDuration) * 1000 + CALIB_GRACE)
      else r.n.calibrating == n.calibrating && r.n.calibRequest == n.calibRequest && r.n.calibDue == n.calibDue
  {
    hide Merge, ParamsOk, ReadInto;
    PlusIsLater(w.later, (c.calibDelay + c.calibDuration) * 1000 + CALIB_GRACE);
  }

  lemma {:induction false} CalibrationGoesOn(start: Node, h: seq<Event>, k: nat, j: nat)
    requires k < |h| && j != k && !FinishedAt(start, h, k)
    ensures CalibratesSince(start, h, k + 1, j) <==> CalibratesSince(start, h, k, j)
  {
    hide Act, Finishes;
  }

  lemma {:induction false} CalibrationStep(n: Node, e: Event)
    ensures var m := Next(n, e);
      if Executes(n, e) && e.c.action == CALIBRATE && Act(n, e.c, e.w).outcome == Done then
        m.calibrating && CalibrationOf(m, e)
      else if Finishes(n, e) then !m.calibrating
      else m.calibrating == n.calibrating && m.calibRequest == n.calibRequest && m.calibDue == n.calibDue
  {
    hide Act, AckOf, Tick;
    if Executes(n, e) {
      ActedCalibration(n, e.c, e.w);
    } else {
      hide Readable, Learned;
    }
  }

  /** A calibration is running only since a command started one, and the newest such command set its id and end. */
  lemma {:induction false} CalibrationWasStarted(start: Node, h: seq<Event>, k: nat) returns (j: nat)
    requires Fresh(start) && k <= |h| && At(start, h, k).calibrating
    ensures CalibratesSince(start, h, k, j) && CalibrationOf(At(start, h, k), h[j])
    ensures forall i | j < i < k :: !StartsAt(start, h, i)
  {
    hide Next, Act, CalibrationOf;
    var last := k - 1;
    var n, e := At(start, h, last), h[last];
    CalibrationStep(n, e);
    if StartsAt(start, h, last) {
      j := last;
    } else {
      j := CalibrationWasStarted(start, h, last);
      CalibrationGoesOn(start, h, last, j);
      CalibrationOfKept(n, At(start, h, k), h[j]);
    }
  }

  lemma {:induction false} CalibrationOfKept(n: Node, m: Node, e: Event)
    requires CalibrationOf(n, e) && m.calibRequest == n.calibRequest && m.calibDue == n.calibDue
    ensures CalibrationOf(m, e)
  {
  }

  /** And conversely: it runs until a turn finishes it. */
  lemma {:induction false} CalibrationRuns(start: Node, h: seq<Event>, k: nat, j: nat)
    requires k <= |h| && CalibratesSince(start, h, k, j)
    ensures At(start, h, k).calibrating
  {
    hide Next, Act;
    CalibrationStep(At(start, h, k - 1), h[k - 1]);
    if j < k - 1 {
      CalibrationGoesOn(start, h, k - 1, j);
      CalibrationRuns(start, h, k - 1, j);
    }
  }

  lemma {:induction false} FinishAnswers(n: Node, w: World, i: nat)
    requires i < |FinishCalibration(n, w).effects| && FinishCalibration(n, w).effects[i].Answer?
    ensures var a := FinishCalibration(n, w).effects[i].ack; a.request == n.calibRequest && a.action == CALIBRATE
  {
  }

  /**
   A calibration is finished no sooner than its delay, duration and 3 s after it was started, and its end is
   reported under the id of the command that started it.
   */
  lemma {:induction false} CalibrationNotCutShort(start: Node, h: seq<Event>, k: nat) returns (j: nat)
    requires Fresh(start) && k < |h| && FinishedAt(start, h, k)
    requires forall j: nat | j < k && h[j].Received? :: -HALF <= h[k].now - CalibrationEnd(h[j]) < HALF
    ensures CalibratesSince(start, h, k, j)
    ensures h[k].now >= h[j].w.later + (h[j].c.calibDelay + h[j].c.calibDuration) * 1000 + 3000
    ensures forall i: nat | i < |EffectsAt(start, h, k)| && EffectsAt(start, h, k)[i].Answer? ::
      EffectsAt(start, h, k)[i].ack.request == h[j].c.request && EffectsAt(start, h, k)[i].ack.action == CALIBRATE
  {
    hide Next, Act, Tick, Reached, FinishCalibration;
    var n := At(start, h, k);
    j := CalibrationWasStarted(start, h, k);
    ReachedAgrees(h[k].now, CalibrationEnd(h[j]));
    forall i: nat | i < |EffectsAt(start, h, k)| && EffectsAt(start, h, k)[i].Answer?
      ensures EffectsAt(start, h, k)[i].ack.request == h[j].c.request
      ensures EffectsAt(start, h, k)[i].ack.action == CALIBRATE
    {
      FinishAnswers(n, h[k].w, i);
    }
  }

  /** It is finished by the first turn at or after that end that finds the radar's countdown at 0. */
  lemma {:induction false} CalibrationFinishes(start: Node, h: seq<Event>, k: nat, j: nat)
    requires Fresh(start) && k < |h| && h[k].Turn? && CalibratesSince(start, h, k, j)
    requires forall i | j < i < k :: !StartsAt(start, h, i)
    requires -HALF <= h[k].now - CalibrationEnd(h[j]) < HALF
    ensures FinishedAt(start, h, k) <==>
      h[k].now >= h[j].w.later + (h[j].c.calibDelay + h[j].c.calibDuration) * 1000 + 3000 && h[k].w.remaining == 0
  {
    CalibrationRuns(start, h, k, j);
    var i := CalibrationWasStarted(start, h, k);
    assert i == j;
    ReachedAgrees(h[k].now, CalibrationEnd(h[j]));
    hide At, Tick, Reached;
  }

  // ----------------------------------------------------------------- the tuning task

  /** The variables of the tuning task. `log` collects what it did to the radar, the flash and the controller. */
  class Remote {
    const id: nat
    const defaults: Params
    var lastRequest: word
    var lastTime: U32
    var lastAck: Option<Ack>
    var calibrating: bool
    var calibRequest: word
    var calibDue: U32
    var current: Params
    var saved: bool
    ghost var log: seq<Effect>

    function Value(): Node
      reads this
    {
      Node(id, defaults, lastRequest, lastTime, lastAck, calibrating, calibRequest, calibDue, current, saved)
    }

    constructor (nodeId: nat, standard: Params, loaded: Params, wasSaved: bool)
      ensures Value() == Start(nodeId, standard, loaded, wasSaved) && log == []
    {
      id, defaults, current, saved := nodeId, standard, loaded, wasSaved;
      lastRequest, lastTime, lastAck := 0, 0, None;
      calibrating, calibRequest, calibDue := false, 0, 0;
      log := [];
    }

    method ApplyAndSave(next: Params, w: World) returns (r: Outcome)
      modifies this`current, this`saved, this`log
      ensures if !w.push then
          r == SensorError && current == old(current) && saved == old(saved)
          && log == old(log) + [Push(next, false), Push(current, w.restore)]
        else
          r == Done && current == next && saved == w.save
          && log == old(log) + [Push(next, true), Save(next, w.save), Current(next, w.save)]
    {
      if !w.push {
        log := log + [Push(next, false), Push(current, w.restore)];
        return SensorError;
      }
      log := log + [Push(next, true), Save(next, w.save), Current(next, w.save)];
      current, saved := next, w.save;
      r := Done;
    }

    method DoApply(c: Config, w: World) returns (r: Outcome)
      modifies this`current, this`saved, this`log
      ensures Acted(Value(), log, r) == After(old(log), Apply(old(Value()), c, w))
    {
      hide ParamsOk, Merge;
      var next := Merge(current, c.params, c.fields);
      if !ParamsOk(next) {
        assert log + [] == log;
        return Invalid;
      }
      r := ApplyAndSave(next, w);
    }

    method DoCalibrate(c: Config, w: World) returns (r: Outcome)
      modifies this`calibrating, this`calibRequest, this`calibDue, this`log
      ensures Acted(Value(), log, r) == After(old(log), StartCalibration(old(Value()), c, w))
    {
      if c.calibDuration == 0 || c.calibDuration > CALIB_MAX || c.calibDelay > CALIB_MAX {
        assert log + [] == log;
        return Invalid;
      }
      log := log + [Calibrate(c.calibDelay, c.calibDuration, w.calibrate)];
      if !w.calibrate {
        return SensorError;
      }
      calibrating, calibRequest := true, c.request;
      calibDue := Plus(Tick(w.later), (c.calibDelay + c.calibDuration) * 1000 + CALIB_GRACE);
      r := Done;
    }

    method DoRead(w: World) returns (r: Outcome)
      modifies this`current, this`log
      ensures Acted(Value(), log, r) == After(old(log), Read(old(Value()), w))
    {
      if !Readable(w) {
        assert log + [] == log;
        return SensorError;
      }
      current := ReadInto(current, w.motion.value, w.presence.value);
      log := log + [ReadBack(w.motion.value, w.presence.value), Current(current, saved)];
      r := Done;
    }

    method DoReset(w: World) returns (r: Outcome)
      modifies this`current, this`saved, this`log
      ensures Acted(Value(), log, r) == After(old(log), Reset(old(Value()), w))
    {
      log := log + [Forget(w.forget)];
      if !w.push {
        log := log + [Push(defaults, false)];
        assert log == old(log) + [Forget(w.forget), Push(defaults, false)];
        return SensorError;
      }
      current, saved := defaults, false;
      log := log + [Push(defaults, true), Current(defaults, false)];
      assert log == old(log) + [Forget(w.forget), Push(defaults, true), Current(defaults, false)];
      r := Done;
    }

    method Perform(c: Config, w: World) returns (r: Outcome)
      modifies this
      ensures Acted(Value(), log, r) == After(old(log), Act(old(Value()), c, w))
    {
      hide Apply, StartCalibration, Read, Reset, Value;
      if c.action == APPLY {
        r := DoApply(c, w);
      } else if c.action == CALIBRATE {
        r := DoCalibrate(c, w);
      } else if c.action == READ {
        r := DoRead(w);
      } else if c.action == RESET {
        r := DoReset(w);
      } else {
        r := Invalid;
        assert log + [] == log;
      }
    }

    method HandleCommand(trusted: bool, c: Config, now: nat, w: World)
      modifies this
      ensures Value() == Next(old(Value()), Received(trusted, c, now, w))
      ensures log == old(log) + Effects(old(Value()), Received(trusted, c, now, w))
    {
      hide Act;
      if !trusted || c.target != id {
        assert log + [] == log;
        return;
      }
      if c.request != 0 && c.request == lastRequest && Since(Tick(now), lastTime) < DUPLICATE_WINDOW {
        log := log + (if lastAck.Some? then [Answer(lastAck.value)] else []);
        return;
      }
      ghost var was, before := Value(), log;
      var r := Perform(c, w);
      var ack := MakeAck(Value(), c.request, c.action, r, w);
      log := log + [Answer(ack)];
      assert log == before + (Act(was, c, w).effects + [Answer(ack)]);
      lastAck, lastRequest, lastTime := Some(ack), c.request, Tick(now);
    }

    method EndOfTurn(now: nat, w: World)
      modifies this
      ensures Value() == Next(old(Value()), Turn(now, w))
      ensures log == old(log) + Effects(old(Value()), Turn(now, w))
    {
      hide ReadInto;
      if !(calibrating && Reached(Tick(now), calibDue) && w.remaining == 0) {
        assert log + [] == log;
        return;
      }
      calibrating := false;
      var r := SensorError;
      ghost var before, fx := log, [];
      if Readable(w) {
        var p := Learned(current, w.motion.value, w.presence.value);
        fx := [ReadBack(w.motion.value, w.presence.value), Save(p, w.save), Current(p, w.save)];
        log := log + [ReadBack(w.motion.value, w.presence.value), Save(p, w.save), Current(p, w.save)];
        current, saved, r := p, w.save, Done;
      } else {
        assert log + [] == log;
      }
      var ack := MakeAck(Value(), calibRequest, CALIBRATE, r, w);
      log := log + [Answer(ack)];
      assert log == before + (fx + [Answer(ack)]);
    }
  }

  /** What was done, written at the end of a log. */
  function After(log: seq<Effect>, a: Acted): Acted {
    Acted(a.n, log + a.effects, a.outcome)
  }
}
