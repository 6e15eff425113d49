/**
 The safety configuration in force: a base, and over it up to six settings from the dashboard. Other tasks
 leave requests in one slot per kind; the safety task takes all slots at once and puts the new configuration
 in force as a whole or not at all.
 */
module Layering {
  import opened Options

  type Millis = nat
  type Tiers = seq<(real, nat, nat)>

  /** Everything the layers do not name. */
  type Rest = seq<int>

  datatype Config = Config(
    heatOn: real, heatOff: real, pauseBudget: Millis, pausePercent: nat, tiers: Tiers, cookware: nat, tau: real,
    absence: Millis, returning: Millis, returnGap: Millis, warning: Millis, shutdown: Millis, rest: Rest)

  datatype Params = Params(v: seq<nat>)
  datatype Attendance = Attendance(fusionAll: bool, pauseBudget: Millis, pausePercent: nat)
  datatype Filter = Filter(absence: Millis, returning: Millis, returnGap: Millis, warning: Millis, shutdown: Millis)
  datatype Radar = Radar(mode: nat, rules: Rest)

  /** What the dashboard's parameters write to: the safety configuration, the health limits, the verify period. */
  datatype Target = Target(safety: Config, health: Rest, verifyPeriod: Millis)

  /** The parts that are only called: the parameter table, the validity checks, the cookware table. */
  datatype World = World(
    write: (Params, Target) -> Target, inRange: Params -> bool, targetValid: Target -> bool, valid: Config -> bool,
    tauOf: nat -> real,
    health: Rest, verifyPeriod: Millis, requireAll: bool, radar: Radar)

  /** The settings from the dashboard in force; none means the configured value. */
  datatype Overlays = Overlays(
    params: Option<Params>, cooking: Option<real>, attendance: Option<Attendance>, tiers: Option<Tiers>,
    cookware: Option<nat>, filter: Option<Filter>)

  const BARE := Overlays(None, None, None, None, None, None)

  // ----------------------------------------------------------------- the layers, one by one

  function WithCooking(c: Config, on: real): Config {
    var gap := c.heatOn - c.heatOff;
    c.(heatOn := on, heatOff := if on - gap > 0.0 then on - gap else 0.0)
  }

  function WithAttendance(c: Config, a: Attendance): Config {
    c.(pauseBudget := a.pauseBudget, pausePercent := a.pausePercent)
  }

  /** The trend stays off if the configuration under it turned it off. */
  function WithCookware(w: World, c: Config, profile: nat): Config {
    if c.tau > 0.0 then c.(cookware := profile, tau := w.tauOf(profile)) else c
  }

  function WithFilter(c: Config, f: Filter): Config {
    c.(absence := f.absence, returning := f.returning, returnGap := f.returnGap, warning := f.warning,
        shutdown := f.shutdown)
  }

  function TargetOf(w: World, base: Config, o: Overlays): Target {
    var t := Target(base, w.health, w.verifyPeriod);
    if o.params.Some? then w.write(o.params.value, t) else t
  }

  /** The one layering: parameters, cooking temperature, attendance, tiers, cookware, filter. */
  function Layer(w: World, base: Config, o: Overlays): Config {
    var c1 := TargetOf(w, base, o).safety;
    var c2 := if o.cooking.Some? then WithCooking(c1, o.cooking.value) else c1;
    var c3 := if o.attendance.Some? then WithAttendance(c2, o.attendance.value) else c2;
    var c4 := if o.tiers.Some? then c3.(tiers := o.tiers.value) else c3;
    var c5 := if o.cookware.Some? then WithCookware(w, c4, o.cookware.value) else c4;
    if o.filter.Some? then WithFilter(c5, o.filter.value) else c5
  }

  /**
   Field by field: which setting decides what in `c`, over the configuration `p`. No two settings write the same
   field; the gap below the cooking temperature is that of `p`, cut off at 0 degrees.
   */
  predicate Decided(w: World, p: Config, o: Overlays, c: Config) {
    && c.heatOn == (if o.cooking.Some? then o.cooking.value else p.heatOn)
    && (o.cooking.None? ==> c.heatOff == p.heatOff)
    && (o.cooking.Some? && o.cooking.value > p.heatOn - p.heatOff ==> c.heatOn - c.heatOff == p.heatOn - p.heatOff)
    && (o.cooking.Some? && o.cooking.value <= p.heatOn - p.heatOff ==> c.heatOff == 0.0)
    && c.pauseBudget == (if o.attendance.Some? then o.attendance.value.pauseBudget else p.pauseBudget)
    && c.pausePercent == (if o.attendance.Some? then o.attendance.value.pausePercent else p.pausePercent)
    && c.tiers == (if o.tiers.Some? then o.tiers.value else p.tiers)
    && (if o.cookware.Some? && p.tau > 0.0 then c.cookware == o.cookware.value && c.tau == w.tauOf(c.cookware)
        else c.cookware == p.cookware && c.tau == p.tau)
    && c.absence == (if o.filter.Some? then o.filter.value.absence else p.absence)
    && c.returning == (if o.filter.Some? then o.filter.value.returning else p.returning)
    && c.returnGap == (if o.filter.Some? then o.filter.value.returnGap else p.returnGap)
    && c.warning == (if o.filter.Some? then o.filter.value.warning else p.warning)
    && c.shutdown == (if o.filter.Some? then o.filter.value.shutdown else p.shutdown)
    && c.rest == p.rest
  }

  /** The layering is the one configuration so decided, over what the parameters write to the base, or the base. */
  lemma {:induction false} LayerByField(w: World, base: Config, o: Overlays, c: Config)
    ensures o.params.None? ==> (c == Layer(w, base, o) <==> Decided(w, base, o, c))
    ensures o.params.Some? ==>
      var p := w.write(o.params.value, Target(base, w.health, w.verifyPeriod)).safety;
      c == Layer(w, base, o) <==> Decided(w, p, o, c)
  {
    var p := TargetOf(w, base, o).safety;
    LayerDecided(w, base, o);
    if Decided(w, p, o, c) {
      OneDecided(w, p, o, c, Layer(w, base, o));
    }
    hide Decided, Layer;
  }

  lemma {:induction false} LayerDecided(w: World, base: Config, o: Overlays)
    ensures Decided(w, TargetOf(w, base, o).safety, o, Layer(w, base, o))
  {
    hide TargetOf;
  }

  lemma {:induction false} OneDecided(w: World, p: Config, o: Overlays, c: Config, d: Config)
    requires Decided(w, p, o, c) && Decided(w, p, o, d)
    ensures c == d
  {
  }

  // ----------------------------------------------------------------- requests and one step of the safety task

  /** The slots: each holds the newest request of its kind, if there is one. An inner none clears the setting. */
  datatype Slots = Slots(
    config: Option<(Config, bool)>, params: Option<Option<Params>>, cooking: Option<Option<real>>,
    attendance: Option<Option<Attendance>>, tiers: Option<Option<Tiers>>, cookware: Option<Option<nat>>,
    filter: Option<Option<Filter>>, radar: Option<Option<Radar>>)

  const EMPTY := Slots(None, None, None, None, None, None, None, None)

  /** What the safety task has in force. */
  datatype State = State(
    base: Config, test: bool, overlays: Overlays, cfg: Config, target: Target, requireAll: bool, radar: Radar)

  function Start(w: World, base: Config): State {
    State(base, false, BARE, base, Target(base, w.health, w.verifyPeriod), w.requireAll, w.radar)
  }

  function Pick<T>(asked: Option<T>, kept: T): T {
    if asked.Some? then asked.value else kept
  }

  function NextBase(s: State, r: Slots): Config {
    if r.config.Some? then r.config.value.0 else s.base
  }

  function NextOverlays(o: Overlays, r: Slots): Overlays {
    Overlays(Pick(r.params, o.params), Pick(r.cooking, o.cooking), Pick(r.attendance, o.attendance),
             Pick(r.tiers, o.tiers), Pick(r.cookware, o.cookware), Pick(r.filter, o.filter))
  }

  /** Some slot other than the radar's is taken. */
  predicate AsksConfig(r: Slots) {
    r.(radar := None) != EMPTY
  }

  predicate Accepts(w: World, s: State, r: Slots) {
    var base, o := NextBase(s, r), NextOverlays(s.overlays, r);
    (o.params.None? || w.targetValid(TargetOf(w, base, o))) && w.valid(Layer(w, base, o))
  }

  function RadarIn(w: World, s: State, r: Slots): Radar {
    if r.radar.None? then s.radar else if r.radar.value.Some? then r.radar.value.value else w.radar
  }

  /** Base, settings and configuration that were accepted together. */
  function InForce(w: World, s: State, r: Slots, base: Config, o: Overlays, cfg: Config, target: Target): State {
    State(
      base, if r.config.Some? then r.config.value.1 else s.test, o, cfg, target.(safety := cfg),
      if r.attendance.None? then s.requireAll
      else if o.attendance.Some? then o.attendance.value.fusionAll
      else w.requireAll,
      s.radar)
  }

  function Step(w: World, s: State, r: Slots): State {
    var t := s.(radar := RadarIn(w, s, r));
    if !AsksConfig(r) || !Accepts(w, s, r) then t
    else
      var base, o := NextBase(s, r), NextOverlays(s.overlays, r);
      InForce(w, t, r, base, o, Layer(w, base, o), TargetOf(w, base, o))
  }

  // ----------------------------------------------------------------- what is always in force

  /** The configuration in force is the layering of the accepted base and settings, and so is all that goes with it. */
  ghost predicate Layered(w: World, s: State) {
    && s.cfg == Layer(w, s.base, s.overlays)
    && s.target == TargetOf(w, s.base, s.overlays).(safety := s.cfg)
    && s.requireAll == (if s.overlays.attendance.Some? then s.overlays.attendance.value.fusionAll else w.requireAll)
  }

  lemma {:induction false} StepKeepsLayered(w: World, s: State, r: Slots)
    requires Layered(w, s)
    ensures Layered(w, Step(w, s, r))
  {
    hide Layer, TargetOf, Accepts;
  }

  /** The state is settled by base, test flag, settings and radar rules: how it came about does not matter. */
  lemma {:induction false} LayeredIsUnique(w: World, s: State, t: State)
    requires Layered(w, s) && Layered(w, t)
    requires s.base == t.base && s.test == t.test && s.overlays == t.overlays && s.radar == t.radar
    ensures s == t
  {
  }

  // ----------------------------------------------------------------- requests of different kinds

  /** No slot is taken in both. */
  predicate Apart(a: Slots, b: Slots) {
    && (a.config.None? || b.config.None?) && (a.params.None? || b.params.None?) && (a.cooking.None? || b.cooking.None?)
    && (a.attendance.None? || b.attendance.None?) && (a.tiers.None? || b.tiers.None?)
    && (a.cookware.None? || b.cookware.None?) && (a.filter.None? || b.filter.None?) && (a.radar.None? || b.radar.None?)
  }

  function Either<T>(a: Option<T>, b: Option<T>): Option<T> {
    if b.Some? then b else a
  }

  /** The slots after the requests of `b` on top of those of `a`: the newer one of a kind wins. */
  function Both(a: Slots, b: Slots): Slots {
    Slots(Either(a.config, b.config), Either(a.params, b.params), Either(a.cooking, b.cooking),
          Either(a.attendance, b.attendance), Either(a.tiers, b.tiers), Either(a.cookware, b.cookware),
          Either(a.filter, b.filter), Either(a.radar, b.radar))
  }

  predicate Taken(w: World, s: State, r: Slots) {
    !AsksConfig(r) || Accepts(w, s, r)
  }

  lemma {:induction false} TakenStep(w: World, s: State, r: Slots)
    requires Layered(w, s) && Taken(w, s, r)
    ensures var t := Step(w, s, r);
      && Layered(w, t) && t.base == NextBase(s, r) && t.overlays == NextOverlays(s.overlays, r)
      && t.radar == RadarIn(w, s, r)
      && t.test == (if r.config.Some? then r.config.value.1 else s.test)
  {
    hide Layer, TargetOf, Accepts;
    StepKeepsLayered(w, s, r);
  }

  /** Batches of different kinds, each taken, give the same whichever goes first, a new base included. */
  lemma {:induction false} OrderDoesNotMatter(w: World, s: State, a: Slots, b: Slots)
    requires Layered(w, s) && Apart(a, b)
    requires Taken(w, s, a) && Taken(w, Step(w, s, a), b)
    requires Taken(w, s, b) && Taken(w, Step(w, s, b), a)
    ensures Step(w, Step(w, s, a), b) == Step(w, Step(w, s, b), a)
  {
    hide Layered, Step, Taken;
    TakenStep(w, s, a);
    TakenStep(w, Step(w, s, a), b);
    TakenStep(w, s, b);
    TakenStep(w, Step(w, s, b), a);
    LayeredIsUnique(w, Step(w, Step(w, s, a), b), Step(w, Step(w, s, b), a));
  }

  /** And the same as both at once: a batch is taken if and only if its second half is, once its first half was. */
  lemma {:induction false} BatchIsSequence(w: World, s: State, a: Slots, b: Slots)
    requires Layered(w, s) && Taken(w, s, a) && AsksConfig(b)
    ensures Accepts(w, s, Both(a, b)) <==> Accepts(w, Step(w, s, a), b)
    ensures Accepts(w, s, Both(a, b)) ==> Step(w, s, Both(a, b)) == Step(w, Step(w, s, a), b)
  {
    hide Layer, TargetOf, Layered;
    var t, both := Step(w, s, a), Both(a, b);
    TakenStep(w, s, a);
    assert NextBase(s, both) == NextBase(t, b);
    assert NextOverlays(s.overlays, both) == NextOverlays(t.overlays, b);
    assert AsksConfig(both);
    if Accepts(w, s, both) {
      TakenStep(w, s, both);
      TakenStep(w, t, b);
      LayeredIsUnique(w, Step(w, s, both), Step(w, t, b));
    }
  }

  // ----------------------------------------------------------------- the cooking temperature

  /** The gap below the cooking temperature is that of the configuration under it, cut off at 0 degrees. */
  lemma {:induction false} CookingKeepsGap(c: Config, on: real)
    requires c.heatOff <= c.heatOn && on >= 0.0
    ensures var d := WithCooking(c, on);
      && d.heatOn == on && 0.0 <= d.heatOff <= d.heatOn
      && (d.heatOn - d.heatOff == c.heatOn - c.heatOff <==> on >= c.heatOn - c.heatOff)
      && (on < c.heatOn - c.heatOff ==> d.heatOff == 0.0)
      && d == c.(heatOn := d.heatOn, heatOff := d.heatOff)
  {
  }

  /** Each one is set on the configuration, never on an earlier one, so that leaves no trace. */
  lemma {:induction false} NewCookingTempIsFresh(w: World, s: State, first: real, second: real)
    requires Layered(w, s)
    ensures var a, b := EMPTY.(cooking := Some(Some(first))), EMPTY.(cooking := Some(Some(second)));
      Accepts(w, s, a) && Accepts(w, Step(w, s, a), b) ==>
        Accepts(w, s, b) && Step(w, Step(w, s, a), b) == Step(w, s, b)
  {
    hide Layer, TargetOf, Layered;
    var a, b := EMPTY.(cooking := Some(Some(first))), EMPTY.(cooking := Some(Some(second)));
    if Accepts(w, s, a) {
      assert Both(a, b) == b;
      BatchIsSequence(w, s, a, b);
    }
  }

  // ----------------------------------------------------------------- any run of requests and turns

  const COOKING_MIN := 0.0
  const COOKING_MAX := 300.0
  const COOKWARE_COUNT: nat := 4

  /** What other tasks ask for, and a turn of the safety task. `COOKWARE_COUNT` asks for the configured profile. */
  datatype Call =
    | AskConfig(config: Config, test: bool)
    | AskParams(params: Option<Params>)
    | AskCooking(on: Option<real>)
    | AskAttendance(attendance: Option<Attendance>)
    | AskTiers(tiers: Option<Tiers>)
    | AskCookware(profile: nat)
    | AskFilter(filter: Option<Filter>)
    | AskRadar(radar: Option<Radar>)
    | Turn

  datatype Kind = KConfig | KParams | KCooking | KAttendance | KTiers | KCookware | KFilter | KRadar

  function KindOf(c: Call): Kind
    requires !c.Turn?
  {
    match c
    case AskConfig(_, _) => KConfig
    case AskParams(_) => KParams
    case AskCooking(_) => KCooking
    case AskAttendance(_) => KAttendance
    case AskTiers(_) => KTiers
    case AskCookware(_) => KCookware
    case AskFilter(_) => KFilter
    case AskRadar(_) => KRadar
  }

  /** The setter's own check. */
  predicate Admits(w: World, c: Call) {
    match c
    case AskConfig(config, _) => w.valid(config)
    case AskParams(p) => p.None? || w.inRange(p.value)
    case AskCooking(on) => on.None? || COOKING_MIN <= on.value <= COOKING_MAX
    case AskCookware(profile) => profile <= COOKWARE_COUNT
    case _ => true
  }

  function Put(r: Slots, c: Call): Slots {
    match c
    case AskConfig(config, test) => r.(config := Some((config, test)))
    case AskParams(p) => r.(params := Some(p))
    case AskCooking(on) => r.(cooking := Some(on))
    case AskAttendance(a) => r.(attendance := Some(a))
    case AskTiers(t) => r.(tiers := Some(t))
    case AskCookware(profile) => r.(cookware := Some(if profile == COOKWARE_COUNT then None else Some(profile)))
    case AskFilter(f) => r.(filter := Some(f))
    case AskRadar(d) => r.(radar := Some(d))
    case Turn => r
  }

  datatype Whole = Whole(state: State, slots: Slots)

  function Do(w: World, x: Whole, c: Call): Whole {
    if c.Turn? then Whole(Step(w, x.state, x.slots), EMPTY)
    else if Admits(w, c) then x.(slots := Put(x.slots, c))
    else x
  }

  /** The state before call number `k`. */
  function At(w: World, base: Config, h: seq<Call>, k: nat): Whole
    requires k <= |h|
  {
    if k == 0 then Whole(Start(w, base), EMPTY) else Do(w, At(w, base, h, k - 1), h[k - 1])
  }

  /** What holds between any two calls. */
  ghost predicate Sound(w: World, x: Whole) {
    && Layered(w, x.state) && w.valid(x.state.cfg) && w.valid(x.state.base)
    && (x.slots.config.Some? ==> w.valid(x.slots.config.value.0))
  }

  lemma {:induction false} DoKeepsSound(w: World, x: Whole, c: Call)
    requires Sound(w, x)
    ensures Sound(w, Do(w, x, c))
  {
    hide Layer, TargetOf;
    if c.Turn? {
      StepKeepsLayered(w, x.state, x.slots);
    } else {
      hide Layered;
    }
  }

  /** In every run of requests and turns, whatever was asked and whatever was refused. */
  lemma {:induction false} AlwaysLayered(w: World, base: Config, h: seq<Call>, k: nat)
    requires w.valid(base) && k <= |h|
    ensures Sound(w, At(w, base, h, k))
  {
    hide Sound, Do;
    if k == 0 {
      StartIsSound(w, base);
    } else {
      AlwaysLayered(w, base, h, k - 1);
      DoKeepsSound(w, At(w, base, h, k - 1), h[k - 1]);
    }
  }

  lemma {:induction false} StartIsSound(w: World, base: Config)
    requires w.valid(base)
    ensures Sound(w, Whole(Start(w, base), EMPTY))
  {
  }

  /** What the setters let through. */
  predicate Posted(w: World, r: Slots) {
    && (r.config.Some? ==> w.valid(r.config.value.0))
    && (r.params.Some? && r.params.value.Some? ==> w.inRange(r.params.value.value))
    && (r.cooking.Some? && r.cooking.value.Some? ==> 0.0 <= r.cooking.value.value <= 300.0)
    && (r.cookware.Some? && r.cookware.value.Some? ==> r.cookware.value.value < 4)
  }

  /** Settings that passed the checks of their setters, and parameters whose target passed that of the safety task. */
  predicate Checked(w: World, base: Config, o: Overlays) {
    && (o.cooking.Some? ==> 0.0 <= o.cooking.value <= 300.0)
    && (o.cookware.Some? ==> o.cookware.value < 4)
    && (o.params.Some? ==>
          && w.inRange(o.params.value)
          && w.targetValid(w.write(o.params.value, Target(base, w.health, w.verifyPeriod))))
  }

  lemma {:induction false} StepKeepsChecked(w: World, s: State, r: Slots)
    requires Posted(w, r) && Checked(w, s.base, s.overlays)
    ensures var t := Step(w, s, r); Checked(w, t.base, t.overlays)
  {
    hide Layer;
  }

  lemma {:induction false} DoKeepsChecked(w: World, x: Whole, c: Call)
    requires Posted(w, x.slots) && Checked(w, x.state.base, x.state.overlays)
    ensures var y := Do(w, x, c); Posted(w, y.slots) && Checked(w, y.state.base, y.state.overlays)
  {
    if c.Turn? {
      StepKeepsChecked(w, x.state, x.slots);
    }
    hide Step, Checked;
  }

  lemma {:induction false} AlwaysChecked(w: World, base: Config, h: seq<Call>, k: nat)
    requires k <= |h|
    ensures var x := At(w, base, h, k); Posted(w, x.slots) && Checked(w, x.state.base, x.state.overlays)
  {
    if k > 0 {
      AlwaysChecked(w, base, h, k - 1);
      DoKeepsChecked(w, At(w, base, h, k - 1), h[k - 1]);
    }
    hide Posted, Checked, Do;
  }

  /**
   In every run, what is in force follows from the base and the settings field by field. With parameters it lies
   over what they write to the base, and health limits and verify period are what they write; without, it lies over
   the base, and both are as configured. All that is in force passed its checks.
   */
  lemma {:induction false} InForceByField(w: World, base: Config, h: seq<Call>, k: nat)
    requires w.valid(base) && k <= |h|
    ensures var s := At(w, base, h, k).state; w.valid(s.base) && w.valid(s.cfg) && s.target.safety == s.cfg
    ensures var s := At(w, base, h, k).state; Checked(w, s.base, s.overlays)
    ensures var s := At(w, base, h, k).state; s.overlays.params.None? ==>
        Decided(w, s.base, s.overlays, s.cfg)
        && s.target.health == w.health && s.target.verifyPeriod == w.verifyPeriod
    ensures var s := At(w, base, h, k).state; s.overlays.params.Some? ==>
        var t := w.write(s.overlays.params.value, Target(s.base, w.health, w.verifyPeriod));
        Decided(w, t.safety, s.overlays, s.cfg)
        && s.target.health == t.health && s.target.verifyPeriod == t.verifyPeriod
    ensures var s := At(w, base, h, k).state;
      s.requireAll == (if s.overlays.attendance.Some? then s.overlays.attendance.value.fusionAll else w.requireAll)
  {
    AlwaysLayered(w, base, h, k);
    AlwaysChecked(w, base, h, k);
    var s := At(w, base, h, k).state;
    LayerByField(w, s.base, s.overlays, s.cfg);
    hide At, Checked, Decided, Layer;
  }

  /** A batch is accepted exactly when the configuration that it asks for, and its parameters' target, are valid. */
  lemma {:induction false} AcceptedExactly(w: World, s: State, r: Slots, c: Config)
    ensures var base, o := NextBase(s, r), NextOverlays(s.overlays, r);
      o.params.None? && Decided(w, base, o, c) ==> (Accepts(w, s, r) <==> w.valid(c))
    ensures var base, o := NextBase(s, r), NextOverlays(s.overlays, r);
      o.params.Some? ==>
        var t := w.write(o.params.value, Target(base, w.health, w.verifyPeriod));
        Decided(w, t.safety, o, c) ==> (Accepts(w, s, r) <==> w.targetValid(t) && w.valid(c))
  {
    LayerByField(w, NextBase(s, r), NextOverlays(s.overlays, r), c);
    hide Decided, Layer, NextBase, NextOverlays;
  }

  predicate Has(r: Slots, k: Kind) {
    match k
    case KConfig => r.config.Some?
    case KParams => r.params.Some?
    case KCooking => r.cooking.Some?
    case KAttendance => r.attendance.Some?
    case KTiers => r.tiers.Some?
    case KCookware => r.cookware.Some?
    case KFilter => r.filter.Some?
    case KRadar => r.radar.Some?
  }

  predicate SameSlot(a: Slots, b: Slots, k: Kind) {
    match k
    case KConfig => a.config == b.config
    case KParams => a.params == b.params
    case KCooking => a.cooking == b.cooking
    case KAttendance => a.attendance == b.attendance
    case KTiers => a.tiers == b.tiers
    case KCookware => a.cookware == b.cookware
    case KFilter => a.filter == b.filter
    case KRadar => a.radar == b.radar
  }

  /** Call `i` was admitted, and before call `k` came neither a turn nor another admitted call of its kind. */
  predicate NewestAsk(w: World, h: seq<Call>, k: nat, i: nat)
    requires k <= |h|
  {
    && i < k && !h[i].Turn? && Admits(w, h[i])
    && forall j | i < j < k :: !h[j].Turn? && (Admits(w, h[j]) ==> KindOf(h[j]) != KindOf(h[i]))
  }

  lemma {:induction false} PutApart(r: Slots, c: Call, k: Kind)
    requires !c.Turn?
    ensures if KindOf(c) == k then SameSlot(Put(r, c), Put(EMPTY, c), k) else SameSlot(Put(r, c), r, k)
    ensures Has(Put(r, c), k) <==> KindOf(c) == k || Has(r, k)
  {
  }

  lemma {:induction false} SlotHoldsAsk(w: World, base: Config, h: seq<Call>, k: nat, i: nat)
    requires k <= |h| && NewestAsk(w, h, k, i)
    ensures SameSlot(At(w, base, h, k).slots, Put(EMPTY, h[i]), KindOf(h[i]))
    ensures Has(At(w, base, h, k).slots, KindOf(h[i]))
  {
    hide SameSlot, Put, Has, Admits, Step;
    var last := k - 1;
    var x := At(w, base, h, last);
    PutApart(x.slots, h[last], KindOf(h[i]));
    if i < last {
      assert NewestAsk(w, h, last, i);
      SlotHoldsAsk(w, base, h, last, i);
      SameSlotJoins(At(w, base, h, k).slots, x.slots, Put(EMPTY, h[i]), KindOf(h[i]));
    }
  }

  lemma {:induction false} SameSlotJoins(a: Slots, b: Slots, c: Slots, k: Kind)
    ensures SameSlot(a, a, k) && (SameSlot(a, b, k) && SameSlot(b, c, k) ==> SameSlot(a, c, k))
  {
  }

  /** A slot is taken exactly when its kind was asked for since the last turn, and it holds the newest such request. */
  lemma {:induction false} SlotIsNewestAsk(w: World, base: Config, h: seq<Call>, k: nat, kind: Kind)
    requires k <= |h|
    ensures var r := At(w, base, h, k).slots;
      && (Has(r, kind) <==> exists i: nat :: NewestAsk(w, h, k, i) && KindOf(h[i]) == kind)
      && forall i: nat | NewestAsk(w, h, k, i) && KindOf(h[i]) == kind :: SameSlot(r, Put(EMPTY, h[i]), kind)
  {
    forall i: nat | NewestAsk(w, h, k, i) && KindOf(h[i]) == kind
      ensures SameSlot(At(w, base, h, k).slots, Put(EMPTY, h[i]), kind) && Has(At(w, base, h, k).slots, kind)
    {
      SlotHoldsAsk(w, base, h, k, i);
    }
    if Has(At(w, base, h, k).slots, kind) {
      var i := AskOfSlot(w, base, h, k, kind);
    }
  }

  lemma {:induction false} AskOfSlot(w: World, base: Config, h: seq<Call>, k: nat, kind: Kind) returns (i: nat)
    requires k <= |h| && Has(At(w, base, h, k).slots, kind)
    ensures NewestAsk(w, h, k, i) && KindOf(h[i]) == kind
  {
    var last := k - 1;
    if !h[last].Turn? && Admits(w, h[last]) && KindOf(h[last]) == kind {
      i := last;
    } else {
      if !h[last].Turn? {
        PutApart(At(w, base, h, last).slots, h[last], kind);
      }
      hide Admits, Put, Step;
      i := AskOfSlot(w, base, h, last, kind);
    }
  }

  // ----------------------------------------------------------------- what a run leaves in force

  /** What a turn takes of a batch: all of it, or, when it is refused, the radar rules, which no check guards. */
  function TakenOf(w: World, s: State, r: Slots): Slots {
    if Taken(w, s, r) then r else EMPTY.(radar := r.radar)
  }

  /** Everything that turns took so far, newer requests over older ones of their kind. */
  function AllTaken(w: World, base: Config, h: seq<Call>, k: nat): Slots
    requires k <= |h|
  {
    if k == 0 then EMPTY
    else
      var before, x := AllTaken(w, base, h, k - 1), At(w, base, h, k - 1);
      if h[k - 1].Turn? then Both(before, TakenOf(w, x.state, x.slots)) else before
  }

  lemma {:induction false} TakenBoth(w: World, s: State, a: Slots, b: Slots)
    requires Layered(w, s) && Taken(w, s, a) && Taken(w, Step(w, s, a), b)
    ensures Taken(w, s, Both(a, b)) && Step(w, s, Both(a, b)) == Step(w, Step(w, s, a), b)
  {
    hide Layer, TargetOf, Layered;
    var t, both := Step(w, s, a), Both(a, b);
    TakenStep(w, s, a);
    TakenStep(w, t, b);
    assert NextBase(s, both) == NextBase(t, b) && NextOverlays(s.overlays, both) == NextOverlays(t.overlays, b);
    if AsksConfig(b) {
      BatchIsSequence(w, s, a, b);
    } else {
      TakenStep(w, s, both);
      LayeredIsUnique(w, Step(w, s, both), Step(w, t, b));
    }
  }

  lemma {:induction false} TurnTakes(w: World, s: State, r: Slots)
    ensures Step(w, s, r) == Step(w, s, TakenOf(w, s, r)) && Taken(w, s, TakenOf(w, s, r))
  {
    hide Layer, TargetOf, Accepts;
  }

  /**
   However requests and turns interleave, what is in force is what one accepted batch would have put in force that
   holds, of each kind, the newest request a turn took. A refused batch leaves no trace but its radar rules, and it
   does not matter how the requests were spread over turns.
   */
  lemma {:induction false} RunIsOneBatch(w: World, base: Config, h: seq<Call>, k: nat)
    requires w.valid(base) && k <= |h|
    ensures var r := AllTaken(w, base, h, k);
      Taken(w, Start(w, base), r) && At(w, base, h, k).state == Step(w, Start(w, base), r)
  {
    hide Step, Taken, TakenOf, Layered, Sound, Admits;
    if k == 0 {
      EmptyTakesNothing(w, Start(w, base));
    } else {
      RunIsOneBatch(w, base, h, k - 1);
      if h[k - 1].Turn? {
        var x := At(w, base, h, k - 1);
        TurnTakes(w, x.state, x.slots);
        StartLayered(w, base);
        TakenBoth(w, Start(w, base), AllTaken(w, base, h, k - 1), TakenOf(w, x.state, x.slots));
      }
    }
  }

  lemma {:induction false} EmptyTakesNothing(w: World, s: State)
    ensures Taken(w, s, EMPTY) && Step(w, s, EMPTY) == s
  {
  }

  lemma {:induction false} StartLayered(w: World, base: Config)
    ensures Layered(w, Start(w, base))
  {
  }

  /** The request of this kind is the one that the state carries out. */
  predicate Shows(w: World, s: State, r: Slots, k: Kind) {
    match k
    case KConfig => r.config == Some((s.base, s.test))
    case KParams => r.params == Some(s.overlays.params)
    case KCooking => r.cooking == Some(s.overlays.cooking)
    case KAttendance => r.attendance == Some(s.overlays.attendance)
    case KTiers => r.tiers == Some(s.overlays.tiers)
    case KCookware => r.cookware == Some(s.overlays.cookware)
    case KFilter => r.filter == Some(s.overlays.filter)
    case KRadar => r.radar.Some? && s.radar == if r.radar.value.Some? then r.radar.value.value else w.radar
  }

  /** The turn at `t` took a request of this kind, and no later one before `k` did. */
  predicate LastTaken(w: World, base: Config, h: seq<Call>, k: nat, t: nat, kind: Kind)
    requires k <= |h|
  {
    && t < k && h[t].Turn? && Has(TakenOf(w, At(w, base, h, t).state, At(w, base, h, t).slots), kind)
    && forall j | t < j < k && h[j].Turn? :: !Has(TakenOf(w, At(w, base, h, j).state, At(w, base, h, j).slots), kind)
  }

  lemma {:induction false} BothHas(a: Slots, b: Slots, kind: Kind)
    ensures if Has(b, kind) then SameSlot(Both(a, b), b, kind) else SameSlot(Both(a, b), a, kind)
  {
  }

  lemma {:induction false} AllTakenIsNewest(w: World, base: Config, h: seq<Call>, k: nat, t: nat, kind: Kind)
    requires k <= |h| && LastTaken(w, base, h, k, t, kind)
    ensures SameSlot(AllTaken(w, base, h, k), At(w, base, h, t).slots, kind) && Has(At(w, base, h, t).slots, kind)
  {
    hide SameSlot, Has, Both, At;
    var last := k - 1;
    var before, x := AllTaken(w, base, h, last), At(w, base, h, last);
    var taken := TakenOf(w, x.state, x.slots);
    BothHas(before, taken, kind);
    TakenAsPosted(w, x.state, x.slots, kind);
    if t == last {
      SameSlotJoins(AllTaken(w, base, h, k), taken, x.slots, kind);
    } else {
      assert LastTaken(w, base, h, last, t, kind);
      AllTakenIsNewest(w, base, h, last, t, kind);
      SameSlotJoins(AllTaken(w, base, h, k), before, At(w, base, h, t).slots, kind);
      hide TakenOf;
    }
  }

  lemma {:induction false} TakenAsPosted(w: World, s: State, r: Slots, kind: Kind)
    ensures Has(TakenOf(w, s, r), kind) ==> SameSlot(TakenOf(w, s, r), r, kind) && Has(r, kind)
    ensures SameSlot(r, r, kind)
  {
    hide Taken;
  }

  lemma {:induction false} StepShows(w: World, s: State, r: Slots, kind: Kind)
    requires Layered(w, s) && Taken(w, s, r) && Has(r, kind)
    ensures Shows(w, Step(w, s, r), r, kind)
  {
    TakenStep(w, s, r);
    hide Step, Layered, Taken;
  }

  /** The last writer wins: of each kind, what is in force is the newest request before the last turn that took one. */
  lemma {:induction false} LastWriterWins(w: World, base: Config, h: seq<Call>, k: nat, t: nat, i: nat)
    requires w.valid(base) && k <= |h| && t < |h| && NewestAsk(w, h, t, i)
    requires LastTaken(w, base, h, k, t, KindOf(h[i]))
    ensures Shows(w, At(w, base, h, k).state, Put(EMPTY, h[i]), KindOf(h[i]))
  {
    hide At, AllTaken, Step, Taken, TakenOf, Layered, Has, SameSlot, Put, Shows, Admits;
    var kind, r := KindOf(h[i]), AllTaken(w, base, h, k);
    RunIsOneBatch(w, base, h, k);
    AllTakenIsNewest(w, base, h, k, t, kind);
    SlotHoldsAsk(w, base, h, t, i);
    StartLayered(w, base);
    SameSlotJoins(r, At(w, base, h, t).slots, Put(EMPTY, h[i]), kind);
    ShownAlike(w, Step(w, Start(w, base), r), r, Put(EMPTY, h[i]), kind);
    SameHas(r, At(w, base, h, t).slots, kind);
    StepShows(w, Start(w, base), r, kind);
  }

  lemma {:induction false} SameHas(a: Slots, b: Slots, kind: Kind)
    requires SameSlot(a, b, kind)
    ensures Has(a, kind) <==> Has(b, kind)
  {
  }

  lemma {:induction false} ShownAlike(w: World, s: State, a: Slots, b: Slots, kind: Kind)
    requires SameSlot(a, b, kind)
    ensures Shows(w, s, a, kind) <==> Shows(w, s, b, kind)
  {
  }

  const CLEAR := Slots(None, Some(None), Some(None), Some(None), Some(None), Some(None), Some(None), Some(None))

  /** After any run, clearing every setting is accepted and puts the base back exactly. */
  lemma {:induction false} ClearingRestoresBase(w: World, base: Config, h: seq<Call>, k: nat)
    requires w.valid(base) && k <= |h|
    ensures var s := At(w, base, h, k).state;
      Accepts(w, s, CLEAR) && Step(w, s, CLEAR) == Start(w, s.base).(test := s.test)
  {
    AlwaysLayered(w, base, h, k);
    hide At;
  }

  // ----------------------------------------------------------------- the slots and the safety task

  class Controller {
    const w: World

    /** The request slots, shared under a lock. */
    var slots: Slots

    /** The safety task's own variables. */
    var base: Config
    var test: bool
    var params: Option<Params>
    var cooking: Option<real>
    var attendance: Option<Attendance>
    var tiers: Option<Tiers>
    var cookware: Option<nat>
    var filter: Option<Filter>
    var cfg: Config
    var target: Target
    var requireAll: bool
    var radar: Radar

    function Value(): State
      reads this
    {
      State(base, test, Overlays(params, cooking, attendance, tiers, cookware, filter), cfg, target, requireAll, radar)
    }

    function All(): Whole
      reads this
    {
      Whole(Value(), slots)
    }

    ghost predicate Valid()
      reads this
    {
      Sound(w, All())
    }

    constructor (world: World, configured: Config)
      requires world.valid(configured)
      ensures Valid() && w == world && All() == Whole(Start(world, configured), EMPTY)
    {
      w, slots, base, test, cfg := world, EMPTY, configured, false, configured;
      params, cooking, attendance, tiers, cookware, filter := None, None, None, None, None, None;
      target := Target(configured, world.health, world.verifyPeriod);
      requireAll, radar := world.requireAll, world.radar;
    }

    method SetSafetyConfig(c: Config, testTimers: bool) returns (ok: bool)
      requires Valid()
      modifies this`slots
      ensures Valid() && ok == Admits(w, AskConfig(c, testTimers))
      ensures All() == Do(w, old(All()), AskConfig(c, testTimers))
    {
      ok := w.valid(c);
      if ok {
        slots := slots.(config := Some((c, testTimers)));
      }
    }

    method SetCookingTemp(on: Option<real>) returns (ok: bool)
      requires Valid()
      modifies this`slots
      ensures ok <==> on.None? || 0.0 <= on.value <= 300.0
      ensures Valid() && ok == Admits(w, AskCooking(on)) && All() == Do(w, old(All()), AskCooking(on))
    {
      ok := on.None? || COOKING_MIN <= on.value <= COOKING_MAX;
      if ok {
        slots := slots.(cooking := Some(on));
      }
    }

    /** `COOKWARE_COUNT` asks for the configured profile. */
    method SetCookware(profile: nat) returns (ok: bool)
      requires Valid()
      modifies this`slots
      ensures ok <==> profile <= 4
      ensures Valid() && ok == Admits(w, AskCookware(profile)) && All() == Do(w, old(All()), AskCookware(profile))
    {
      ok := profile <= COOKWARE_COUNT;
      if ok {
        slots := slots.(cookware := Some(if profile == COOKWARE_COUNT then None else Some(profile)));
      }
    }

    method SetAttendance(a: Option<Attendance>)
      requires Valid()
      modifies this`slots
      ensures Valid() && All() == Do(w, old(All()), AskAttendance(a))
    {
      slots := slots.(attendance := Some(a));
    }

    method SetRadarRules(r: Option<Radar>)
      requires Valid()
      modifies this`slots
      ensures Valid() && All() == Do(w, old(All()), AskRadar(r))
    {
      slots := slots.(radar := Some(r));
    }

    method SetTiers(t: Option<Tiers>)
      requires Valid()
      modifies this`slots
      ensures Valid() && All() == Do(w, old(All()), AskTiers(t))
    {
      slots := slots.(tiers := Some(t));
    }

    method SetPresenceFilter(f: Option<Filter>)
      requires Valid()
      modifies this`slots
      ensures Valid() && All() == Do(w, old(All()), AskFilter(f))
    {
      slots := slots.(filter := Some(f));
    }

    method SetParams(p: Option<Params>) returns (ok: bool)
      requires Valid()
      modifies this`slots
      ensures Valid() && ok == Admits(w, AskParams(p)) && All() == Do(w, old(All()), AskParams(p))
    {
      ok := p.None? || w.inRange(p.value);
      if ok {
        slots := slots.(params := Some(p));
      }
    }

    /** The next configuration, layer by layer, and the parameters' target. */
    method Compose(from: Config, o: Overlays) returns (next: Config, nextTarget: Target)
      ensures next == Layer(w, from, o) && nextTarget == TargetOf(w, from, o)
    {
      hide WithCooking, WithAttendance, WithCookware, WithFilter;
      next := from;
      nextTarget := Target(next, w.health, w.verifyPeriod);
      if o.params.Some? {
        nextTarget := w.write(o.params.value, nextTarget);
        next := nextTarget.safety;
      }
      if o.cooking.Some? {
        next := WithCooking(next, o.cooking.value);
      }
      if o.attendance.Some? {
        next := WithAttendance(next, o.attendance.value);
      }
      if o.tiers.Some? {
        next := next.(tiers := o.tiers.value);
      }
      if o.cookware.Some? {
        next := WithCookware(w, next, o.cookware.value);
      }
      if o.filter.Some? {
        next := WithFilter(next, o.filter.value);
      }
    }

    method SettleOverlays(o: Overlays)
      modifies this`params, this`filter, this`cooking, this`cookware, this`attendance, this`tiers
      ensures Value() == old(Value()).(overlays := o)
    {
      params, filter, cooking, cookware, attendance, tiers :=
        o.params, o.filter, o.cooking, o.cookware, o.attendance, o.tiers;
    }

    method Settle(r: Slots, from: Config, o: Overlays, next: Config, nextTarget: Target)
      requires r.config.Some? ==> from == r.config.value.0
      requires r.config.None? ==> from == base
      modifies this
      ensures slots == old(slots) && Value() == InForce(w, old(Value()), r, from, o, next, nextTarget)
    {
      cfg := next;
      target := nextTarget.(safety := cfg);
      if r.config.Some? {
        base, test := r.config.value.0, r.config.value.1;
      }
      SettleOverlays(o);
      if r.attendance.Some? {
        requireAll := if attendance.Some? then attendance.value.fusionAll else w.requireAll;
      }
    }

    method Ask(r: Slots) returns (from: Config, o: Overlays)
      ensures from == NextBase(Value(), r) && o == NextOverlays(Value().overlays, r)
    {
      from := if r.config.Some? then r.config.value.0 else base;
      o := Overlays(Pick(r.params, params), Pick(r.cooking, cooking), Pick(r.attendance, attendance),
                    Pick(r.tiers, tiers), Pick(r.cookware, cookware), Pick(r.filter, filter));
    }

    /** The request part of one turn of the safety task: the slots are emptied whatever comes of them. */
    method TakeRequests() returns (refused: bool)
      requires Valid()
      modifies this
      ensures Valid() && All() == Do(w, old(All()), Turn)
      ensures refused == (AsksConfig(old(slots)) && !Accepts(w, old(Value()), old(slots)))
    {
      DoKeepsSound(w, All(), Turn);
      hide Layer, TargetOf, InForce, NextOverlays, Sound;
      var r := slots;
      slots, refused := EMPTY, false;
      if r.radar.Some? {
        radar := if r.radar.value.Some? then r.radar.value.value else w.radar;
      }
      if r.config.None? && r.filter.None? && r.cooking.None? && r.cookware.None? && r.tiers.None? && r.attendance.None?
          && r.params.None? {
        return;
      }
      var from, o := Ask(r);
      var next, nextTarget := Compose(from, o);
      if (o.params.None? || w.targetValid(nextTarget)) && w.valid(next) {
        Settle(r, from, o, next, nextTarget);
      } else {
        refused := true;
      }
    }
  }
}
