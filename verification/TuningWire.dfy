/** The radar settings, and the two messages that carry them between controller and presence node. */
module TuningWire {
  import opened Bytes

  type word = x: nat | x < 0x10000 witness 0

  const MAX_GATES := 25

  /** One threshold (0..99) per distance gate. */
  type Thresholds = t: seq<byte> | |t| == 25 witness seq(25, _ => 0)

  const ZEROS: Thresholds := [0, 0, 0, 0, 0, 0, 0, 0, 0, 0, 0, 0, 0, 0, 0, 0, 0, 0, 0, 0, 0, 0, 0, 0, 0]

  datatype Params = Params(
    reportPeriod: byte, rangeMin: word, rangeMax: word, resolution: byte,
    motionSensitivity: byte, presenceSensitivity: byte, disappearDelay: word, lockTime: byte,
    motionGates: set<nat>, presenceGates: set<nat>,
    motionKnown: bool, presenceKnown: bool, motionThresholds: Thresholds, presenceThresholds: Thresholds)

  datatype Field =
    | ReportPeriod | RangeMin | RangeMax | Resolution | MotionSensitivity | PresenceSensitivity
    | DisappearDelay | LockTime | MotionGates | PresenceGates | MotionThresholds | PresenceThresholds

  const RES_80CM: byte := 0
  const RES_20CM: byte := 1
  const SENS_CUSTOM: byte := 3

  const APPLY: byte := 1
  const CALIBRATE: byte := 2
  const READ: byte := 3
  const RESET: byte := 4

  datatype Outcome = Done | Invalid | SensorError

  datatype Config = Config(
    target: nat, request: word, action: byte, fields: set<Field>, calibDelay: word, calibDuration: word, params: Params)

  datatype Ack = Ack(request: word, action: byte, outcome: Outcome, calibRemaining: word, saved: bool, params: Params)

  predicate ThresholdsOk(t: Thresholds) {
    forall i | 0 <= i < |t| :: t[i] <= 99
  }

  /** The sensor's limits. */
  predicate ParamsOk(p: Params) {
    && 1 <= p.reportPeriod <= 5
    && p.rangeMin <= p.rangeMax <= 1100
    && (p.resolution == RES_80CM || p.resolution == RES_20CM)
    && p.motionSensitivity <= SENS_CUSTOM && p.presenceSensitivity <= SENS_CUSTOM
    && (p.motionSensitivity == SENS_CUSTOM ==> p.motionKnown)
    && (p.presenceSensitivity == SENS_CUSTOM ==> p.presenceKnown)
    && 2 <= p.lockTime <= 100
    && (forall g | g in p.motionGates + p.presenceGates :: g < MAX_GATES)
    && ThresholdsOk(p.motionThresholds) && ThresholdsOk(p.presenceThresholds)
  }

  /** The masked fields of `src` over `dst`; thresholds bring the custom sensitivity with them. */
  function Merge(dst: Params, src: Params, fields: set<Field>): Params {
    var p := dst.(
      reportPeriod := if ReportPeriod in fields then src.reportPeriod else dst.reportPeriod,
      rangeMin := if RangeMin in fields then src.rangeMin else dst.rangeMin,
      rangeMax := if RangeMax in fields then src.rangeMax else dst.rangeMax,
      resolution := if Resolution in fields then src.resolution else dst.resolution,
      motionSensitivity := if MotionSensitivity in fields then src.motionSensitivity else dst.motionSensitivity,
      presenceSensitivity := if PresenceSensitivity in fields then src.presenceSensitivity else dst.presenceSensitivity,
      disappearDelay := if DisappearDelay in fields then src.disappearDelay else dst.disappearDelay,
      lockTime := if LockTime in fields then src.lockTime else dst.lockTime,
      motionGates := if MotionGates in fields then src.motionGates else dst.motionGates,
      presenceGates := if PresenceGates in fields then src.presenceGates else dst.presenceGates);
    var q := if MotionThresholds !in fields then p else
      p.(motionThresholds := src.motionThresholds, motionKnown := true, motionSensitivity := SENS_CUSTOM);
    if PresenceThresholds !in fields then q else
      q.(presenceThresholds := src.presenceThresholds, presenceKnown := true, presenceSensitivity := SENS_CUSTOM)
  }

  /**
   Field by field: each is that of the command if its bit is set and the one before otherwise, and thresholds that
   come along make their sensitivity custom.
   */
  predicate TakenOver(p: Params, was: Params, sent: Params, fields: set<Field>) {
    && p.reportPeriod == (if ReportPeriod in fields then sent.reportPeriod else was.reportPeriod)
    && p.rangeMin == (if RangeMin in fields then sent.rangeMin else was.rangeMin)
    && p.rangeMax == (if RangeMax in fields then sent.rangeMax else was.rangeMax)
    && p.resolution == (if Resolution in fields then sent.resolution else was.resolution)
    && p.disappearDelay == (if DisappearDelay in fields then sent.disappearDelay else was.disappearDelay)
    && p.lockTime == (if LockTime in fields then sent.lockTime else was.lockTime)
    && p.motionGates == (if MotionGates in fields then sent.motionGates else was.motionGates)
    && p.presenceGates == (if PresenceGates in fields then sent.presenceGates else was.presenceGates)
    && p.motionThresholds == (if MotionThresholds in fields then sent.motionThresholds else was.motionThresholds)
    && p.presenceThresholds
      == (if PresenceThresholds in fields then sent.presenceThresholds else was.presenceThresholds)
    && p.motionKnown == (MotionThresholds in fields || was.motionKnown)
    && p.presenceKnown == (PresenceThresholds in fields || was.presenceKnown)
    && p.motionSensitivity
      == (if MotionThresholds in fields then 3
          else if MotionSensitivity in fields then sent.motionSensitivity
          else was.motionSensitivity)
    && p.presenceSensitivity
      == (if PresenceThresholds in fields then 3
          else if PresenceSensitivity in fields then sent.presenceSensitivity
          else was.presenceSensitivity)
  }

  /** And that settles the merged settings. */
  lemma {:induction false} MergeTakesFields(dst: Params, src: Params, fields: set<Field>, p: Params)
    ensures p == Merge(dst, src, fields) <==> TakenOver(p, dst, src, fields)
  {
    MergeTakesOver(dst, src, fields);
    if TakenOver(p, dst, src, fields) {
      OneTakenOver(p, Merge(dst, src, fields), dst, src, fields);
    }
    hide Merge, TakenOver;
  }

  lemma {:induction false} MergeTakesOver(dst: Params, src: Params, fields: set<Field>)
    ensures TakenOver(Merge(dst, src, fields), dst, src, fields)
  {
  }

  lemma {:induction false} OneTakenOver(p: Params, q: Params, dst: Params, src: Params, fields: set<Field>)
    requires TakenOver(p, dst, src, fields) && TakenOver(q, dst, src, fields)
    ensures p == q
  {
  }

  predicate GatesWithin(p: Params) {
    && (forall g | g in p.motionGates :: g < 25)
    && (forall g | g in p.presenceGates :: g < 25)
  }

  lemma {:induction false} GatesJoined(p: Params)
    ensures (forall g | g in p.motionGates + p.presenceGates :: g < MAX_GATES) <==> GatesWithin(p)
  {
    if GatesWithin(p) {
      forall g | g in p.motionGates + p.presenceGates ensures g < MAX_GATES {
        assert g in p.motionGates || g in p.presenceGates;
      }
    } else {
      var g :| (g in p.motionGates || g in p.presenceGates) && g >= 25;
      assert g in p.motionGates + p.presenceGates;
    }
  }

  predicate PercentsWithin(t: Thresholds) {
    forall i | 0 <= i < 25 :: t[i] < 100
  }

  /** The limits, in numbers: seconds, centimetres, percent and gate numbers. */
  lemma {:induction false} LimitsMean(p: Params)
    ensures ParamsOk(p) <==>
      && p.reportPeriod in {1, 2, 3, 4, 5} && p.rangeMin <= p.rangeMax && p.rangeMax < 1101
      && p.resolution in {0, 1} && p.motionSensitivity < 4 && p.presenceSensitivity < 4
      && !(p.motionSensitivity == 3 && !p.motionKnown) && !(p.presenceSensitivity == 3 && !p.presenceKnown)
      && 1 < p.lockTime < 101
      && GatesWithin(p) && PercentsWithin(p.motionThresholds) && PercentsWithin(p.presenceThresholds)
  {
    GatesJoined(p);
    PercentsAlike(p.motionThresholds);
    PercentsAlike(p.presenceThresholds);
    hide GatesWithin, PercentsWithin, ThresholdsOk;
  }

  lemma {:induction false} PercentsAlike(t: Thresholds)
    ensures ThresholdsOk(t) <==> PercentsWithin(t)
  {
  }

  /** Thresholds come in first, and then a sensitivity other than custom without them. */
  predicate UndoesCustom(src: Params, a: set<Field>, b: set<Field>) {
    || (MotionThresholds in a && MotionThresholds !in b && MotionSensitivity in b
        && src.motionSensitivity != SENS_CUSTOM)
    || (PresenceThresholds in a && PresenceThresholds !in b && PresenceSensitivity in b
        && src.presenceSensitivity != SENS_CUSTOM)
  }

  /**
   Settings sent in two commands leave what one command with all of them would, and the same sensitivities too
   exactly unless the second undoes the custom sensitivity.
   */
  lemma {:induction false} MergeInTwoSteps(dst: Params, src: Params, a: set<Field>, b: set<Field>)
    ensures var two, one := Merge(Merge(dst, src, a), src, b), Merge(dst, src, a + b);
      (two.motionSensitivity, two.presenceSensitivity) == (one.motionSensitivity, one.presenceSensitivity) <==>
        !UndoesCustom(src, a, b)
    ensures var two, one := Merge(Merge(dst, src, a), src, b), Merge(dst, src, a + b);
      two == one.(motionSensitivity := two.motionSensitivity, presenceSensitivity := two.presenceSensitivity)
  {
    MergeTakesOver(dst, src, a);
    MergeTakesOver(Merge(dst, src, a), src, b);
    MergeTakesOver(dst, src, a + b);
    hide Merge;
  }

  function GateCount(resolution: byte): (n: nat)
    ensures n <= MAX_GATES
  {
    if resolution == RES_20CM then 25 else 15
  }

  /** 25 gates at 20 cm, 15 otherwise. */
  lemma {:induction false} GatesMean(resolution: byte)
    ensures GateCount(resolution) == if resolution == 1 then 25 else 15
  {
  }

  /** Equal except in what a threshold read-back or a calibration writes. */
  predicate SameButThresholds(p: Params, q: Params) {
    p == q.(motionThresholds := p.motionThresholds, presenceThresholds := p.presenceThresholds,
            motionKnown := p.motionKnown, presenceKnown := p.presenceKnown,
            motionSensitivity := p.motionSensitivity, presenceSensitivity := p.presenceSensitivity)
  }
}
