/**
 The dashboard-to-controller command: which members it must have, the values they may take, and the parser
 that checks them in one pass while it scans.
 */
module CtrlCmd {
  import opened CtrlText
  import opened Options
  import JsonText

  datatype Action =
    | Reset
    | PresenceFilter | PresenceFilterDefaults
    | CookingTemp | CookingTempDefaults
    | Cookware | CookwareDefaults
    | Attendance | AttendanceDefaults
    | RadarRules | RadarRulesDefaults
    | Tiers | TiersDefaults
    | Params | ParamsDefaults
    | LogLevel | LogLevelDefaults

  function ActionName(a: Action): string {
    match a
    case Reset => "reset"
    case PresenceFilter => "presence_filter"
    case PresenceFilterDefaults => "presence_filter_defaults"
    case CookingTemp => "cooking_temp"
    case CookingTempDefaults => "cooking_temp_defaults"
    case Cookware => "cookware"
    case CookwareDefaults => "cookware_defaults"
    case Attendance => "attendance"
    case AttendanceDefaults => "attendance_defaults"
    case RadarRules => "radar_rules"
    case RadarRulesDefaults => "radar_rules_defaults"
    case Tiers => "tiers"
    case TiersDefaults => "tiers_defaults"
    case Params => "params"
    case ParamsDefaults => "params_defaults"
    case LogLevel => "log_level"
    case LogLevelDefaults => "log_level_defaults"
  }

  function ActionFromName(s: string): Option<Action> {
    if s == "reset" then Some(Reset)
    else if s == "presence_filter" then Some(PresenceFilter)
    else if s == "presence_filter_defaults" then Some(PresenceFilterDefaults)
    else if s == "cooking_temp" then Some(CookingTemp)
    else if s == "cooking_temp_defaults" then Some(CookingTempDefaults)
    else if s == "cookware" then Some(Cookware)
    else if s == "cookware_defaults" then Some(CookwareDefaults)
    else if s == "attendance" then Some(Attendance)
    else if s == "attendance_defaults" then Some(AttendanceDefaults)
    else if s == "radar_rules" then Some(RadarRules)
    else if s == "radar_rules_defaults" then Some(RadarRulesDefaults)
    else if s == "tiers" then Some(Tiers)
    else if s == "tiers_defaults" then Some(TiersDefaults)
    else if s == "params" then Some(Params)
    else if s == "params_defaults" then Some(ParamsDefaults)
    else if s == "log_level" then Some(LogLevel)
    else if s == "log_level_defaults" then Some(LogLevelDefaults)
    else None
  }

  /** The names on the wire. */
  lemma {:induction false} ActionsSpelled()
    ensures ActionName(Reset) == "reset"
    ensures ActionName(PresenceFilter) == "presence_filter" && ActionName(CookingTemp) == "cooking_temp"
    ensures ActionName(Cookware) == "cookware" && ActionName(Attendance) == "attendance"
    ensures ActionName(RadarRules) == "radar_rules" && ActionName(Tiers) == "tiers"
    ensures ActionName(Params) == "params" && ActionName(LogLevel) == "log_level"
    ensures ActionName(PresenceFilterDefaults) == ActionName(PresenceFilter) + "_defaults"
    ensures ActionName(CookingTempDefaults) == ActionName(CookingTemp) + "_defaults"
    ensures ActionName(CookwareDefaults) == ActionName(Cookware) + "_defaults"
    ensures ActionName(AttendanceDefaults) == ActionName(Attendance) + "_defaults"
    ensures ActionName(RadarRulesDefaults) == ActionName(RadarRules) + "_defaults"
    ensures ActionName(TiersDefaults) == ActionName(Tiers) + "_defaults"
    ensures ActionName(ParamsDefaults) == ActionName(Params) + "_defaults"
    ensures ActionName(LogLevelDefaults) == ActionName(LogLevel) + "_defaults"
  {
  }

  /** The names are told apart a few at a time. */
  predicate Early(a: Action) {
    a.Reset? || a.PresenceFilter? || a.PresenceFilterDefaults? || a.CookingTemp? || a.CookingTempDefaults?
    || a.Cookware? || a.CookwareDefaults? || a.Attendance?
  }

  predicate Late(a: Action) {
    a.TiersDefaults? || a.Params? || a.ParamsDefaults? || a.LogLevel? || a.LogLevelDefaults?
  }

  predicate Last(a: Action) {
    a.LogLevel? || a.LogLevelDefaults?
  }

  lemma {:induction false} EarlyNamesReadBack(a: Action)
    requires Early(a)
    ensures ActionFromName(ActionName(a)) == Some(a)
  {
  }

  lemma {:induction false} MiddleNamesReadBack(a: Action)
    requires !Early(a) && !Late(a)
    ensures ActionFromName(ActionName(a)) == Some(a)
  {
  }

  lemma {:induction false} LateNamesReadBack(a: Action)
    requires Late(a) && !Last(a)
    ensures ActionFromName(ActionName(a)) == Some(a)
  {
  }

  lemma {:induction false} LastNamesReadBack(a: Action)
    requires Last(a)
    ensures ActionFromName(ActionName(a)) == Some(a)
  {
  }

  lemma {:induction false} ActionNamesReadBack(a: Action)
    ensures ActionFromName(ActionName(a)) == Some(a)
  {
    hide ActionFromName, ActionName;
    if Early(a) {
      EarlyNamesReadBack(a);
    } else if !Late(a) {
      MiddleNamesReadBack(a);
    } else if Last(a) {
      LastNamesReadBack(a);
    } else {
      LateNamesReadBack(a);
    }
  }

  predicate EarlyName(s: string) {
    || s == "reset" || s == "presence_filter" || s == "presence_filter_defaults" || s == "cooking_temp"
    || s == "cooking_temp_defaults" || s == "cookware" || s == "cookware_defaults" || s == "attendance"
  }

  lemma {:induction false} EarlyNamesOnly(s: string)
    requires EarlyName(s)
    ensures ActionFromName(s).Some? && ActionName(ActionFromName(s).value) == s
  {
    if s == "reset" || s == "presence_filter" || s == "presence_filter_defaults" || s == "cooking_temp" {
    } else {
    }
  }

  lemma {:induction false} OtherNamesOnly(s: string)
    requires ActionFromName(s).Some? && !EarlyName(s)
    ensures ActionName(ActionFromName(s).value) == s
  {
    if s == "attendance_defaults" || s == "radar_rules" || s == "radar_rules_defaults" || s == "tiers" {
    } else {
    }
  }

  lemma {:induction false} ActionNamesOnly(s: string)
    requires ActionFromName(s).Some?
    ensures ActionName(ActionFromName(s).value) == s
  {
    hide ActionFromName, ActionName, EarlyName;
    if EarlyName(s) {
      EarlyNamesOnly(s);
    } else {
      OtherNamesOnly(s);
    }
  }

  /** What a member's value may be. */
  datatype Rule = Range(min: nat, max: nat) | OneOf(words: seq<string>) | AnyAction | NotEmpty | LogTag

  datatype Entry = Entry(key: string, rule: Rule)

  /** The members with their own bit in the `seen` mask: 5 of the header, then those of the actions. */
  const MAIN: seq<Entry> := [
    Entry("schema_version", Range(2, 2)),
    Entry("type", OneOf(["controller_command"])),
    Entry("controller_id", NotEmpty),
    Entry("request_id", Range(1, 65535)),
    Entry("action", AnyAction),
    Entry("absence_ms", Range(0, 10000)),
    Entry("return_ms", Range(0, 10000)),
    Entry("return_gap_ms", Range(0, 5000)),
    Entry("warning_ms", Range(1000, 3600000)),
    Entry("shutdown_ms", Range(1000, 3600000)),
    Entry("cooking_temp_dc", Range(0, 3000)),
    Entry("pause_budget_ms", Range(0, 600000)),
    Entry("pause_budget_pct", Range(0, 100)),
    Entry("presence_fusion", OneOf(["all", "any"])),
    Entry("radar_mode", OneOf(["off", "observe", "enforce"])),
    Entry("radar_quiet_gap_ms", Range(0, 10000)),
    Entry("radar_dwell_ms", Range(0, 60000)),
    Entry("radar_stationary_min_ms", Range(0, 60000)),
    Entry("radar_settle_window_ms", Range(500, 60000)),
    Entry("radar_settle_span_cm", Range(0, 1000)),
    Entry("radar_zone_max_cm", Range(0, 1200)),
    Entry("cookware", OneOf(["mixed", "light", "heavy", "liquid"])),
    Entry("log_tag", LogTag),
    Entry("log_level", OneOf(["none", "error", "warn", "info", "debug", "verbose"]))
  ]

  /** The settings of rb_params.def. */
  const PARAMS: seq<Entry> := [
    Entry("heat_off_gap_dc", Range(0, 1000)),
    Entry("cooking_trend", Range(0, 1)),
    Entry("cooling_hold_max_ms", Range(60000, 14400000)),
    Entry("falling_hold", Range(0, 1)),
    Entry("falling_hold_max_ms", Range(10000, 600000)),
    Entry("warning_min_after_hold_ms", Range(1000, 600000)),
    Entry("tier_rate", Range(0, 1)),
    Entry("fault_shutdown_ms", Range(10000, 3600000))
  ]

  const TIER_SUFFIXES: seq<string> := ["_temp_dc", "_warning_ms", "_shutdown_ms"]

  /** Where a member's value goes: a field of the command, tier N's field F, or a setting of rb_params.def. */
  datatype Slot = Main(i: nat) | Tier(tier: nat, field: nat) | Param(i: nat)

  predicate Known(s: Slot) {
    match s
    case Main(i) => i < |MAIN|
    case Tier(t, f) => t < 4 && f < 3
    case Param(i) => i < |PARAMS|
  }

  function KeyOf(s: Slot): string
    requires Known(s)
  {
    match s
    case Main(i) => MAIN[i].key
    case Tier(t, f) => "tier" + [(t + '2' as int) as char] + TIER_SUFFIXES[f]
    case Param(i) => PARAMS[i].key
  }

  function RuleOf(s: Slot): Rule
    requires Known(s)
  {
    match s
    case Main(i) => MAIN[i].rule
    case Tier(_, f) => if f == 0 then Range(0, 3000) else Range(1000, 3600000)
    case Param(i) => PARAMS[i].rule
  }

  /** The first entry from `i` on with this key, or the number of entries. */
  function FindFrom(entries: seq<Entry>, key: string, i: nat): (r: nat)
    requires i <= |entries|
    ensures i <= r <= |entries| && (r < |entries| ==> entries[r].key == key)
    ensures forall j | i <= j < r :: entries[j].key != key
    decreases |entries| - i
  {
    if i == |entries| || entries[i].key == key then i else FindFrom(entries, key, i + 1)
  }

  /** tier<N>_temp_dc, tier<N>_warning_ms and tier<N>_shutdown_ms for N = 2..5. */
  function TierKey(key: string): Option<Slot> {
    if |key| < 5 || key[..4] != "tier" || key[4] < '2' || key[4] > '5' then None
    else
      var t := key[4] as int - '2' as int;
      if key[5..] == TIER_SUFFIXES[0] then Some(Tier(t, 0))
      else if key[5..] == TIER_SUFFIXES[1] then Some(Tier(t, 1))
      else if key[5..] == TIER_SUFFIXES[2] then Some(Tier(t, 2))
      else None
  }

  /** The slot of a key, in the order in which the keys are tried. */
  function Lookup(key: string): (r: Option<Slot>)
  {
    var m := FindFrom(MAIN, key, 0);
    if m < |MAIN| then Some(Main(m))
    else if TierKey(key).Some? then TierKey(key)
    else
      var p := FindFrom(PARAMS, key, 0);
      if p < |PARAMS| then Some(Param(p)) else None
  }

  lemma {:induction false} MainKeysDiffer(i: nat, j: nat)
    requires i < j < |MAIN|
    ensures MAIN[i].key != MAIN[j].key
  {
  }

  lemma {:induction false} ParamKeysDiffer(i: nat, j: nat)
    requires i < j < |PARAMS|
    ensures PARAMS[i].key != PARAMS[j].key
  {
  }

  lemma {:induction false} ParamsAreNotMain(i: nat, j: nat)
    requires i < |PARAMS| && j < |MAIN|
    ensures PARAMS[i].key != MAIN[j].key
  {
  }

  /** Only tier keys begin like tier keys. */
  lemma {:induction false} NoMainTierKeys(i: nat)
    requires i < |MAIN|
    ensures TierKey(MAIN[i].key) == None
  {
    hide PARAMS;
  }

  lemma {:induction false} NoParamTierKeys(i: nat)
    requires i < |PARAMS|
    ensures TierKey(PARAMS[i].key) == None
  {
    hide MAIN;
  }

  lemma {:induction false} TierKeyReadBack(t: nat, f: nat)
    requires t < 4 && f < 3
    ensures TierKey(KeyOf(Tier(t, f))) == Some(Tier(t, f))
  {
    var key := KeyOf(Tier(t, f));
    assert key[..4] == "tier" && key[5..] == TIER_SUFFIXES[f];
    assert |TIER_SUFFIXES[0]| == 8 && |TIER_SUFFIXES[1]| == 11 && |TIER_SUFFIXES[2]| == 12;
  }

  lemma {:induction false} TierKeysAreNotMain(t: nat, f: nat)
    requires t < 4 && f < 3
    ensures FindFrom(MAIN, KeyOf(Tier(t, f)), 0) == |MAIN|
  {
    hide FindFrom, TierKey;
    TierKeyReadBack(t, f);
    var m := FindFrom(MAIN, KeyOf(Tier(t, f)), 0);
    if m < |MAIN| {
      NoMainTierKeys(m);
    }
  }

  /** A slot's key leads to the slot, so no two slots share a key. */
  lemma {:induction false} LookupKey(s: Slot)
    requires Known(s)
    ensures Lookup(KeyOf(s)) == Some(s)
  {
    hide TierKey, FindFrom;
    match s
    case Main(i) => LookupMain(i);
    case Tier(t, f) =>
      TierKeyReadBack(t, f);
      TierKeysAreNotMain(t, f);
    case Param(i) =>
      LookupParam(i);
      NoParamTierKeys(i);
  }

  lemma {:induction false} LookupMain(i: nat)
    requires i < |MAIN|
    ensures FindFrom(MAIN, MAIN[i].key, 0) == i
  {
    hide FindFrom;
    var m := FindFrom(MAIN, MAIN[i].key, 0);
    if m < i { MainKeysDiffer(m, i); }
  }

  lemma {:induction false} LookupParam(i: nat)
    requires i < |PARAMS|
    ensures FindFrom(MAIN, PARAMS[i].key, 0) == |MAIN| && FindFrom(PARAMS, PARAMS[i].key, 0) == i
  {
    hide FindFrom;
    var m := FindFrom(MAIN, PARAMS[i].key, 0);
    if m < |MAIN| { ParamsAreNotMain(i, m); }
    var p := FindFrom(PARAMS, PARAMS[i].key, 0);
    if p < i { ParamKeysDiffer(p, i); }
  }

  lemma {:induction false} TierKeyFinds(key: string)
    requires TierKey(key).Some?
    ensures Known(TierKey(key).value) && KeyOf(TierKey(key).value) == key
  {
    hide MAIN, PARAMS;
    var t := TierKey(key).value;
    assert key[..4] == "tier" && key[4] == (t.tier + '2' as int) as char && key[5..] == TIER_SUFFIXES[t.field];
    hide TierKey, TIER_SUFFIXES;
    assert key == key[..4] + [key[4]] + key[5..];
  }

  lemma {:induction false} LookupFinds(key: string)
    requires Lookup(key).Some?
    ensures Known(Lookup(key).value) && KeyOf(Lookup(key).value) == key
  {
    hide FindFrom, TierKey, MAIN, PARAMS, TIER_SUFFIXES;
    if TierKey(key).Some? {
      TierKeyFinds(key);
    }
  }

  // ----------------------------------------------------------------- which members make a command

  /** An ESP-IDF style tag (1..15 letters, digits, _ - .) or "*". */
  predicate LogTagOk(tag: string) {
    tag == "*" || (1 <= |tag| <= 15 && forall c | c in tag :: TagChar(c))
  }

  predicate TagChar(c: char) {
    'A' <= c <= 'Z' || 'a' <= c <= 'z' || '0' <= c <= '9' || c == '_' || c == '-' || c == '.'
  }

  predicate Fits(r: Rule, v: Token) {
    match r
    case Range(min, max) => v.Number? && min <= NumberOf(v.digits) <= max
    case OneOf(words) => v.Text? && v.s in words
    case AnyAction => v.Text? && ActionFromName(v.s).Some?
    case NotEmpty => v.Text? && v.s != ""
    case LogTag => v.Text? && LogTagOk(v.s)
  }

  const VERSION := Main(0)
  const TYPE := Main(1)
  const CONTROLLER := Main(2)
  const REQUEST := Main(3)
  const ACTION := Main(4)
  const HEADER: set<Slot> := {VERSION, TYPE, CONTROLLER, REQUEST, ACTION}

  /** The values that go with an action. */
  function Needed(a: Action): set<Slot> {
    match a
    case PresenceFilter => {Main(5), Main(6), Main(7), Main(8), Main(9)}
    case CookingTemp => {Main(10)}
    case Attendance => {Main(11), Main(12), Main(13)}
    case RadarRules => {Main(14), Main(15), Main(16), Main(17), Main(18), Main(19), Main(20)}
    case Cookware => {Main(21)}
    case LogLevel => {Main(22), Main(23)}
    case Tiers => set t, f | 0 <= t < 4 && 0 <= f < 3 :: Tier(t, f)
    case Params => set i | 0 <= i < |PARAMS| :: Param(i)
    case _ => {}
  }

  datatype Val = Num(n: nat) | Word(s: string)

  function Denotes(v: Token): Val {
    match v
    case Number(d) => Num(NumberOf(d))
    case Text(s) => Word(s)
  }

  /** A command: its header, and the value of each slot that its action needs. */
  datatype Command = Command(action: Action, requestId: nat, controllerId: string, values: map<Slot, Val>)

  /** A value that `Fits` could have come from. */
  predicate InRange(r: Rule, v: Val) {
    match r
    case Range(min, max) => v.Num? && min <= v.n <= max
    case OneOf(words) => v.Word? && v.s in words
    case AnyAction => false
    case NotEmpty => v.Word? && v.s != ""
    case LogTag => v.Word? && LogTagOk(v.s)
  }

  predicate ValidCommand(c: Command) {
    && 1 <= c.requestId <= 65535
    && c.controllerId != ""
    && c.values.Keys == Needed(c.action)
    && forall s | s in c.values :: Known(s) && InRange(RuleOf(s), c.values[s])
  }

  /** The value that the member in slot `s` has to spell. */
  predicate SpellsSlot(c: Command, s: Slot, v: Token) {
    if s == VERSION then Denotes(v) == Num(2)
    else if s == TYPE then v == Text("controller_command")
    else if s == CONTROLLER then v == Text(c.controllerId)
    else if s == REQUEST then Denotes(v) == Num(c.requestId)
    else if s == ACTION then v == Text(ActionName(c.action))
    else s in c.values && Denotes(v) == c.values[s]
  }

  /** The members are exactly those of the command, each once, in any order. */
  ghost predicate Spells(ms: seq<Member>, c: Command) {
    && (forall i, j | 0 <= i < j < |ms| :: ms[i].key != ms[j].key)
    && (forall m | m in ms :: IsSpelled(c, m))
    && (forall s | s in HEADER + Needed(c.action) :: IsNamed(ms, s))
  }

  predicate IsSpelled(c: Command, m: Member) {
    var s := Lookup(m.key);
    s.Some? && s.value in HEADER + Needed(c.action) && SpellsSlot(c, s.value, m.value)
  }

  ghost predicate IsNamed(ms: seq<Member>, s: Slot) {
    Known(s) && exists m :: m in ms && m.key == KeyOf(s)
  }

  // ----------------------------------------------------------------- members by slot

  /** A member is known and has an allowed value. */
  predicate MemberOk(m: Member) {
    Lookup(m.key).Some? && Known(Lookup(m.key).value) && Fits(RuleOf(Lookup(m.key).value), m.value)
  }

  function SlotOf(m: Member): Slot
    requires MemberOk(m)
  {
    Lookup(m.key).value
  }

  ghost predicate AllOk(ms: seq<Member>) {
    forall i | 0 <= i < |ms| :: MemberOk(ms[i])
  }

  /** All members are allowed and no key comes twice. */
  ghost predicate WellMade(ms: seq<Member>) {
    && AllOk(ms)
    && (forall i, j | 0 <= i < j < |ms| :: ms[i].key != ms[j].key)
  }

  /** The values by slot. */
  ghost function Collect(ms: seq<Member>): map<Slot, Token>
    requires AllOk(ms)
  {
    if ms == [] then map[]
    else Collect(ms[..|ms| - 1])[SlotOf(ms[|ms| - 1]) := ms[|ms| - 1].value]
  }

  predicate Complete(tab: map<Slot, Token>) {
    && HEADER <= tab.Keys
    && tab[ACTION].Text? && ActionFromName(tab[ACTION].s).Some?
    && tab.Keys == HEADER + Needed(ActionFromName(tab[ACTION].s).value)
    && tab[REQUEST].Number? && tab[CONTROLLER].Text?
  }

  function CommandOf(tab: map<Slot, Token>): Command
    requires Complete(tab)
  {
    Command(ActionFromName(tab[ACTION].s).value, NumberOf(tab[REQUEST].digits), tab[CONTROLLER].s,
            map s | s in tab && s !in HEADER :: Denotes(tab[s]))
  }

  /** The command that a text spells, if it does. */
  ghost function Parsed(t: string): Option<Command> {
    var ms := Lex(t);
    if ms.None? || !WellMade(ms.value) || !Complete(Collect(ms.value)) then None
    else Some(CommandOf(Collect(ms.value)))
  }

  lemma {:induction false} SameSlotSameKey(m: Member, n: Member)
    requires MemberOk(m) && MemberOk(n) && SlotOf(m) == SlotOf(n)
    ensures m.key == n.key
  {
    hide Lookup, Fits, RuleOf, KeyOf;
    LookupFinds(m.key);
    LookupFinds(n.key);
  }

  lemma {:induction false} CollectAt(ms: seq<Member>, i: nat)
    requires WellMade(ms) && i < |ms|
    ensures SlotOf(ms[i]) in Collect(ms) && Collect(ms)[SlotOf(ms[i])] == ms[i].value
    decreases |ms|
  {
    hide Lookup, MemberOk, SlotOf;
    var n := |ms| - 1;
    if i < n {
      CollectAt(ms[..n], i);
      if SlotOf(ms[i]) == SlotOf(ms[n]) {
        SameSlotSameKey(ms[i], ms[n]);
      }
    }
  }

  lemma {:induction false} CollectOnly(ms: seq<Member>, s: Slot) returns (i: nat)
    requires WellMade(ms) && s in Collect(ms)
    ensures i < |ms| && SlotOf(ms[i]) == s && Collect(ms)[s] == ms[i].value
    decreases |ms|
  {
    hide Lookup, MemberOk, SlotOf;
    var n := |ms| - 1;
    if s == SlotOf(ms[n]) {
      i := n;
    } else {
      i := CollectOnly(ms[..n], s);
    }
  }

  // ----------------------------------------------------------------- printed commands are parsed, and nothing else

  lemma {:induction false} SpelledMemberOk(c: Command, m: Member)
    requires ValidCommand(c) && IsSpelled(c, m)
    ensures MemberOk(m)
  {
    hide Lookup, KeyOf, Needed, ActionName, ActionFromName, LogTagOk;
    LookupFinds(m.key);
    ActionNamesReadBack(c.action);
    var s := Lookup(m.key).value;
    if s in HEADER {
      HeaderRules();
    } else {
      assert s in c.values;
      assert s != ACTION;
      FitsWhatIsInRange(s, m.value);
    }
  }

  lemma {:induction false} HeaderRules()
    ensures RuleOf(VERSION) == Range(2, 2) && RuleOf(TYPE) == OneOf(["controller_command"])
    ensures RuleOf(CONTROLLER) == NotEmpty && RuleOf(REQUEST) == Range(1, 65535) && RuleOf(ACTION) == AnyAction
  {
    hide RuleOf, MAIN, PARAMS;
    VersionRule();
    TypeRule();
    ControllerRule();
    RequestRule();
    ActionRule();
  }

  lemma {:induction false} VersionRule()
    ensures RuleOf(VERSION) == Range(2, 2)
  {
    hide PARAMS;
  }

  lemma {:induction false} TypeRule()
    ensures RuleOf(TYPE) == OneOf(["controller_command"])
  {
    hide PARAMS;
  }

  lemma {:induction false} ControllerRule()
    ensures RuleOf(CONTROLLER) == NotEmpty
  {
    hide PARAMS;
  }

  lemma {:induction false} RequestRule()
    ensures RuleOf(REQUEST) == Range(1, 65535)
  {
    hide PARAMS;
  }

  lemma {:induction false} ActionRule()
    ensures RuleOf(ACTION) == AnyAction
  {
    hide PARAMS;
  }

  lemma {:induction false} FitsWhatIsInRange(s: Slot, v: Token)
    requires Known(s) && InRange(RuleOf(s), Denotes(v))
    ensures Fits(RuleOf(s), v)
  {
    hide RuleOf, LogTagOk;
  }

  lemma {:induction false} SpelledIsWellMade(ms: seq<Member>, c: Command)
    requires ValidCommand(c) && Spells(ms, c)
    ensures WellMade(ms)
    ensures forall s | s in Collect(ms) :: s in HEADER + Needed(c.action) && SpellsSlot(c, s, Collect(ms)[s])
    ensures HEADER + Needed(c.action) <= Collect(ms).Keys
  {
    hide *;
    MembersAreOk(ms, c);
    SpelledSlotsOnly(ms, c);
    SpelledSlotsAll(ms, c);
  }

  lemma {:induction false} MembersAreOk(ms: seq<Member>, c: Command)
    requires ValidCommand(c) && Spells(ms, c)
    ensures WellMade(ms)
  {
    hide ValidCommand, MemberOk, IsSpelled, IsNamed, HEADER, Needed;
    forall i | 0 <= i < |ms| ensures MemberOk(ms[i]) {
      assert ms[i] in ms;
      SpelledMemberOk(c, ms[i]);
    }
  }

  lemma {:induction false} SpelledSlot(m: Member, c: Command)
    requires MemberOk(m) && IsSpelled(c, m)
    ensures SlotOf(m) in HEADER + Needed(c.action) && SpellsSlot(c, SlotOf(m), m.value)
  {
    hide HEADER, Needed, SpellsSlot, Lookup, MemberOk;
    SlotIsLookup(m);
  }

  lemma {:induction false} SpelledSlotsOnly(ms: seq<Member>, c: Command)
    requires Spells(ms, c) && WellMade(ms)
    ensures forall s | s in Collect(ms) :: s in HEADER + Needed(c.action) && SpellsSlot(c, s, Collect(ms)[s])
  {
    hide MemberOk, SlotOf, SpellsSlot, IsSpelled, IsNamed, HEADER, Needed, Collect;
    forall s | s in Collect(ms)
      ensures s in HEADER + Needed(c.action) && SpellsSlot(c, s, Collect(ms)[s])
    {
      var i := CollectOnly(ms, s);
      assert ms[i] in ms;
      SpelledSlot(ms[i], c);
    }
  }

  lemma {:induction false} NamedSlotFound(ms: seq<Member>, s: Slot)
    requires WellMade(ms) && IsNamed(ms, s)
    ensures s in Collect(ms)
  {
    hide MemberOk, SlotOf, Collect, Lookup, KeyOf, Known;
    var m :| m in ms && m.key == KeyOf(s);
    var i :| 0 <= i < |ms| && ms[i] == m;
    LookupKey(s);
    SlotIsLookup(m);
    CollectAt(ms, i);
  }

  lemma {:induction false} SpelledSlotsAll(ms: seq<Member>, c: Command)
    requires Spells(ms, c) && WellMade(ms)
    ensures HEADER + Needed(c.action) <= Collect(ms).Keys
  {
    hide AllOk, IsSpelled, IsNamed, HEADER, Needed, Collect;
    forall s | s in HEADER + Needed(c.action) ensures s in Collect(ms) {
      NamedSlotFound(ms, s);
    }
  }

  lemma {:induction false} SlotIsLookup(m: Member)
    requires MemberOk(m)
    ensures Lookup(m.key) == Some(SlotOf(m))
  {
    hide Lookup;
  }

  /** Members that spell a command make that command. */
  lemma {:induction false} SpelledIsCommand(ms: seq<Member>, c: Command)
    requires ValidCommand(c) && Spells(ms, c)
    ensures WellMade(ms) && Complete(Collect(ms)) && CommandOf(Collect(ms)) == c
  {
    hide Lookup, MemberOk, Spells, Collect, Needed, ActionName, ActionFromName, Known, RuleOf, MAIN, PARAMS;
    SpelledIsWellMade(ms, c);
    ActionNamesReadBack(c.action);
    var tab := Collect(ms);
    assert tab.Keys == HEADER + Needed(c.action);
    NeededIsNotHeader(c.action);
    assert CommandOf(tab).values == c.values;
  }

  lemma {:induction false} NeededIsNotHeader(a: Action)
    ensures Needed(a) !! HEADER && forall s | s in Needed(a) :: Known(s)
  {
  }

  ghost predicate TabFits(tab: map<Slot, Token>) {
    forall s | s in tab :: Known(s) && Fits(RuleOf(s), tab[s])
  }

  lemma {:induction false} TableFits(ms: seq<Member>)
    requires WellMade(ms) && Complete(Collect(ms))
    ensures TabFits(Collect(ms))
  {
    hide Lookup, KeyOf, Collect, Needed, ActionName, ActionFromName, Fits, RuleOf, MemberOk, SlotOf;
    forall s | s in Collect(ms) ensures Known(s) && Fits(RuleOf(s), Collect(ms)[s]) {
      var i := CollectOnly(ms, s);
      MemberFits(ms[i]);
    }
  }

  lemma {:induction false} MemberIsSpelled(ms: seq<Member>, i: nat)
    requires WellMade(ms) && Complete(Collect(ms)) && i < |ms| && TabFits(Collect(ms))
    ensures IsSpelled(CommandOf(Collect(ms)), ms[i])
  {
    hide Lookup, KeyOf, Collect, Needed, ActionName, ActionFromName, Fits, RuleOf, MemberOk, SlotOf, CommandOf, TabFits;
    var tab := Collect(ms);
    FieldsOfCommand(tab);
    SlotIsLookup(ms[i]);
    CollectAt(ms, i);
    FittingIsSpelled(tab, SlotOf(ms[i]));
  }

  lemma {:induction false} AllAreSpelled(ms: seq<Member>)
    requires WellMade(ms) && Complete(Collect(ms)) && TabFits(Collect(ms))
    ensures forall m | m in ms :: IsSpelled(CommandOf(Collect(ms)), m)
  {
    hide AllOk, Collect, CommandOf, Complete, IsSpelled, TabFits, HEADER;
    forall m | m in ms ensures IsSpelled(CommandOf(Collect(ms)), m) {
      var i :| 0 <= i < |ms| && ms[i] == m;
      MemberIsSpelled(ms, i);
    }
  }

  lemma {:induction false} AllAreNamed(ms: seq<Member>)
    requires WellMade(ms) && Complete(Collect(ms))
    ensures forall s | s in HEADER + Needed(CommandOf(Collect(ms)).action) :: IsNamed(ms, s)
  {
    hide AllOk, Collect, CommandOf, Complete, Needed, IsNamed, HEADER;
    SlotsOfCommand(Collect(ms));
    forall s | s in HEADER + Needed(CommandOf(Collect(ms)).action) ensures IsNamed(ms, s) {
      SlotIsNamed(ms, s);
    }
  }

  /** Members that make a command spell it, and its values are in range. */
  lemma {:induction false} CommandIsSpelled(ms: seq<Member>)
    requires WellMade(ms) && Complete(Collect(ms))
    ensures ValidCommand(CommandOf(Collect(ms))) && Spells(ms, CommandOf(Collect(ms)))
  {
    hide AllOk, Collect, CommandOf, Complete, Needed, ValidCommand, IsSpelled, IsNamed, TabFits, HEADER;
    TableFits(ms);
    FittingIsValid(Collect(ms));
    AllAreSpelled(ms);
    AllAreNamed(ms);
  }

  lemma {:induction false} SlotsOfCommand(tab: map<Slot, Token>)
    requires Complete(tab)
    ensures tab.Keys == HEADER + Needed(CommandOf(tab).action)
  {
    hide Complete, CommandOf, Needed, HEADER;
    FieldsOfCommand(tab);
  }

  lemma {:induction false} SlotIsNamed(ms: seq<Member>, s: Slot)
    requires WellMade(ms) && s in Collect(ms)
    ensures IsNamed(ms, s)
  {
    hide Lookup, KeyOf, Collect, MemberOk, SlotOf;
    var i := CollectOnly(ms, s);
    SlotIsLookup(ms[i]);
    LookupFinds(ms[i].key);
    assert ms[i] in ms && ms[i].key == KeyOf(s);
  }

  lemma {:induction false} MemberFits(m: Member)
    requires MemberOk(m)
    ensures Known(SlotOf(m)) && Fits(RuleOf(SlotOf(m)), m.value)
  {
    hide Lookup, Fits, RuleOf;
  }

  lemma {:induction false} FieldsOfCommand(tab: map<Slot, Token>)
    requires Complete(tab)
    ensures var c := CommandOf(tab);
      && HEADER <= tab.Keys && tab[ACTION].Text? && tab[CONTROLLER].Text? && tab[REQUEST].Number?
      && ActionFromName(tab[ACTION].s) == Some(c.action)
      && tab.Keys == HEADER + Needed(c.action) && c.values.Keys == Needed(c.action)
      && c.requestId == NumberOf(tab[REQUEST].digits) && c.controllerId == tab[CONTROLLER].s
      && forall s | s in c.values :: c.values[s] == Denotes(tab[s])
  {
    hide ActionFromName, Needed;
    NeededIsNotHeader(ActionFromName(tab[ACTION].s).value);
  }

  lemma {:induction false} FittingIsValid(tab: map<Slot, Token>)
    requires Complete(tab) && TabFits(tab)
    ensures ValidCommand(CommandOf(tab))
  {
    hide ActionFromName, Needed, RuleOf, LogTagOk, CommandOf;
    FieldsOfCommand(tab);
    HeaderRules();
    var c := CommandOf(tab);
    NeededIsNotHeader(c.action);
    forall s | s in c.values
      ensures InRange(RuleOf(s), c.values[s])
    {
      OnlyActionIsAnyAction(s);
    }
  }

  lemma {:induction false} OnlyActionIsAnyAction(s: Slot)
    requires Known(s) && s !in HEADER
    ensures RuleOf(s) != AnyAction
  {
  }

  lemma {:induction false} FittingIsSpelled(tab: map<Slot, Token>, s: Slot)
    requires Complete(tab) && TabFits(tab) && s in tab
    ensures SpellsSlot(CommandOf(tab), s, tab[s])
  {
    hide ActionFromName, ActionName, Needed, RuleOf, LogTagOk, CommandOf;
    FieldsOfCommand(tab);
    HeaderRules();
    if s == ACTION {
      ActionNamesOnly(tab[s].s);
    }
  }

  /** What `t` is for a command: some members that spell it, with some whitespace. */
  ghost predicate Prints(t: string, c: Command, ms: seq<Member>, l: Layout) {
    && |l.members| == |ms| > 0 && SpacesOnly(l)
    && (forall m | m in ms :: Writable(m))
    && Spells(ms, c)
    && t == Render(ms, l)
  }

  /** A valid command, printed with its members in any order and any whitespace between the tokens, is parsed. */
  lemma {:induction false} PrintedIsParsed(t: string, c: Command, ms: seq<Member>, l: Layout)
    requires ValidCommand(c) && Prints(t, c, ms, l)
    ensures Parsed(t) == Some(c)
  {
    hide Spells, Writable, SpacesOnly, Complete, CommandOf, Collect;
    LexWritten(ms, l);
    SpelledIsCommand(ms, c);
  }

  /** Whatever is parsed is a valid command printed in that way. */
  lemma {:induction false} ParsedIsPrinted(t: string) returns (ms: seq<Member>, l: Layout)
    requires Parsed(t).Some?
    ensures ValidCommand(Parsed(t).value) && Prints(t, Parsed(t).value, ms, l)
  {
    hide Spells, Writable, SpacesOnly, CommandOf, ValidCommand;
    ms := Lex(t).value;
    CommandIsSpelled(ms);
    l := LexIsWritten(t);
  }

  // ----------------------------------------------------------------- commands written in decimal digits

  /** How a sender writes the value of a slot: numbers in decimal digits. */
  function TokenOf(c: Command, s: Slot): Token
    requires s in HEADER || s in c.values
  {
    if s == VERSION then Number("2")
    else if s == TYPE then Text("controller_command")
    else if s == CONTROLLER then Text(c.controllerId)
    else if s == REQUEST then Number(JsonText.Digits(c.requestId))
    else if s == ACTION then Text(ActionName(c.action))
    else
      match c.values[s]
      case Num(n) => Number(JsonText.Digits(n))
      case Word(w) => Text(w)
  }

  function MemberOf(c: Command, s: Slot): Member
    requires Known(s) && (s in HEADER || s in c.values)
  {
    Member(KeyOf(s), TokenOf(c, s))
  }

  /** The members of the slots in some order. */
  function WrittenIn(c: Command, order: seq<Slot>): seq<Member>
    requires forall s | s in order :: Known(s) && (s in HEADER || s in c.values)
  {
    seq(|order|, i requires 0 <= i < |order| => MemberOf(c, order[i]))
  }

  predicate OrderOf(c: Command, order: seq<Slot>) {
    && (forall s | s in order :: s in HEADER + Needed(c.action))
    && (forall s | s in HEADER + Needed(c.action) :: s in order)
    && (forall i, j | 0 <= i < j < |order| :: order[i] != order[j])
  }

  lemma {:induction false} SlotsHaveValues(c: Command, order: seq<Slot>)
    requires ValidCommand(c) && OrderOf(c, order)
    ensures forall s | s in order :: Known(s) && (s in HEADER || s in c.values)
  {
    hide Needed, HEADER, Known;
    forall s | s in order ensures Known(s) && (s in HEADER || s in c.values) {
      NeededIsKnown(s, c.action);
    }
  }

  lemma {:induction false} TokenSpells(c: Command, s: Slot)
    requires Known(s) && (s in HEADER || s in c.values)
    ensures SpellsSlot(c, s, TokenOf(c, s))
  {
    hide ActionName, MAIN, PARAMS, NumberOf, JsonText.Digits;
    if s == VERSION {
      TwoIsTwo();
    } else if s == REQUEST {
      NumberOfDigits(c.requestId);
    } else if s !in HEADER && c.values[s].Num? {
      NumberOfDigits(c.values[s].n);
    }
  }

  lemma {:induction false} TwoIsTwo()
    ensures NumberOf("2") == 2
  {
    NumberOfDigits(2);
  }

  lemma {:induction false} MemberSpells(c: Command, s: Slot)
    requires Known(s) && (s in HEADER || s in c.values) && s in HEADER + Needed(c.action)
    ensures IsSpelled(c, MemberOf(c, s))
  {
    hide Lookup, KeyOf, TokenOf, SpellsSlot, Known, HEADER, Needed;
    LookupKey(s);
    TokenSpells(c, s);
  }

  lemma {:induction false} SameKeySameSlot(s: Slot, t: Slot)
    requires Known(s) && Known(t) && KeyOf(s) == KeyOf(t)
    ensures s == t
  {
    hide Lookup, KeyOf, Known;
    LookupKey(s);
    LookupKey(t);
  }

  lemma {:induction false} WrittenSpells(c: Command, order: seq<Slot>)
    requires ValidCommand(c) && OrderOf(c, order)
    requires forall s | s in order :: Known(s) && (s in HEADER || s in c.values)
    ensures Spells(WrittenIn(c, order), c)
  {
    hide ValidCommand, Lookup, KeyOf, TokenOf, Known, HEADER, Needed, IsSpelled;
    var ms := WrittenIn(c, order);
    forall i, j | 0 <= i < j < |ms| ensures ms[i].key != ms[j].key {
      assert order[i] in order && order[j] in order;
      if ms[i].key == ms[j].key {
        SameKeySameSlot(order[i], order[j]);
      }
    }
    forall m | m in ms ensures IsSpelled(c, m) {
      var i :| 0 <= i < |ms| && ms[i] == m;
      assert order[i] in order;
      MemberSpells(c, order[i]);
    }
    forall s | s in HEADER + Needed(c.action) ensures IsNamed(ms, s) {
      var i :| 0 <= i < |order| && order[i] == s;
      assert ms[i] in ms;
    }
  }

  /** A command written with its numbers in decimal, in any order and any whitespace, is read as that command. */
  lemma {:induction false} DecimalIsParsed(c: Command, order: seq<Slot>, l: Layout)
    requires ValidCommand(c) && OrderOf(c, order) && |l.members| == |order| > 0 && SpacesOnly(l)
    requires forall s | s in order :: Known(s) && (s in HEADER || s in c.values) && Writable(MemberOf(c, s))
    ensures Parsed(Render(WrittenIn(c, order), l)) == Some(c)
  {
    hide ValidCommand, OrderOf, SpacesOnly, Spells, Writable, Parsed, Render, MemberOf, Known, HEADER;
    WrittenSpells(c, order);
    var ms := WrittenIn(c, order);
    forall m | m in ms ensures Writable(m) {
      var i :| 0 <= i < |ms| && ms[i] == m;
      assert order[i] in order;
    }
    PrintedIsParsed(Render(ms, l), c, ms, l);
  }

  /** The number of a slot. */
  function NumberAt(c: Command, s: Slot): Option<nat> {
    if s == VERSION then Some(2)
    else if s == REQUEST then Some(c.requestId)
    else if s !in HEADER && s in c.values && c.values[s].Num? then Some(c.values[s].n)
    else None
  }

  /** Up to zeros in front, the member holds the decimal digits of its slot's number. */
  ghost predicate HoldsDecimal(c: Command, m: Member) {
    var s := Lookup(m.key);
    && s.Some? && NumberAt(c, s.value).Some?
    && exists k: nat :: m.value == Number(Zeros(k) + JsonText.Digits(NumberAt(c, s.value).value))
  }

  lemma {:induction false} SpelledNumber(c: Command, m: Member)
    requires IsSpelled(c, m) && Writable(m) && m.value.Number?
    ensures HoldsDecimal(c, m)
  {
    hide Lookup, NumberOf, JsonText.Digits, Zeros, ActionName, DigitsFrom, Needed;
    var d := m.value.digits;
    OnlyDigits(0, d);
    var k := DigitsOfNumber(d);
    assert NumberAt(c, Lookup(m.key).value) == Some(NumberOf(d));
  }

  /** Whatever is accepted: every number in the text is its slot's number in decimal, but for zeros in front. */
  lemma {:induction false} ParsedNumbers(t: string) returns (ms: seq<Member>, l: Layout)
    requires Parsed(t).Some?
    ensures Prints(t, Parsed(t).value, ms, l)
    ensures forall m | m in ms && m.value.Number? :: HoldsDecimal(Parsed(t).value, m)
  {
    hide Parsed, IsSpelled, IsNamed, Writable, SpacesOnly, HoldsDecimal, Render;
    ms, l := ParsedIsPrinted(t);
    forall m | m in ms && m.value.Number? ensures HoldsDecimal(Parsed(t).value, m) {
      SpelledNumber(Parsed(t).value, m);
    }
  }

  /** The member with this key takes exactly the numbers from `min` to `max`, written in decimal. */
  ghost predicate TakesNumbers(key: string, min: nat, max: nat) {
    && Lookup(key).Some? && Known(Lookup(key).value)
    && forall n: nat :: Fits(RuleOf(Lookup(key).value), Number(JsonText.Digits(n))) <==> min <= n <= max
  }

  /** And this one exactly these words. */
  ghost predicate TakesWords(key: string, words: seq<string>) {
    && Lookup(key).Some? && Known(Lookup(key).value)
    && forall w :: Fits(RuleOf(Lookup(key).value), Text(w)) <==> w in words
  }

  lemma {:induction false} RangeTaken(s: Slot, key: string, min: nat, max: nat)
    requires Known(s) && KeyOf(s) == key && RuleOf(s) == Range(min, max)
    ensures TakesNumbers(key, min, max)
  {
    hide KeyOf, RuleOf, Lookup, Known, JsonText.Digits, NumberOf;
    LookupKey(s);
    forall n: nat ensures Fits(Range(min, max), Number(JsonText.Digits(n))) <==> min <= n <= max {
      NumberOfDigits(n);
    }
  }

  lemma {:induction false} WordsTaken(s: Slot, key: string, words: seq<string>)
    requires Known(s) && KeyOf(s) == key && RuleOf(s) == OneOf(words)
    ensures TakesWords(key, words)
  {
    hide KeyOf, RuleOf, Lookup, Known;
    LookupKey(s);
  }

  /** The limits of the presence filter, in milliseconds. */
  lemma {:induction false} AbsenceRanges()
    ensures TakesNumbers("absence_ms", 0, 10_000) && TakesNumbers("return_ms", 0, 10_000)
  {
    hide TakesNumbers, PARAMS;
    RangeTaken(Main(5), "absence_ms", 0, 10_000);
    RangeTaken(Main(6), "return_ms", 0, 10_000);
  }

  lemma {:induction false} ReturnRanges()
    ensures TakesNumbers("return_gap_ms", 0, 5_000)
  {
    hide TakesNumbers, PARAMS;
    RangeTaken(Main(7), "return_gap_ms", 0, 5_000);
  }

  lemma {:induction false} TimeoutRanges()
    ensures TakesNumbers("warning_ms", 1_000, 3_600_000) && TakesNumbers("shutdown_ms", 1_000, 3_600_000)
  {
    hide TakesNumbers, PARAMS;
    RangeTaken(Main(8), "warning_ms", 1_000, 3_600_000);
    RangeTaken(Main(9), "shutdown_ms", 1_000, 3_600_000);
  }

  /** The cooking temperature, in tenths of a degree. */
  lemma {:induction false} CookingRange()
    ensures TakesNumbers("cooking_temp_dc", 0, 3_000)
  {
    hide TakesNumbers, PARAMS;
    RangeTaken(Main(10), "cooking_temp_dc", 0, 3_000);
  }

  /** The attendance settings. */
  lemma {:induction false} PauseRanges()
    ensures TakesNumbers("pause_budget_ms", 0, 600_000) && TakesNumbers("pause_budget_pct", 0, 100)
  {
    hide TakesNumbers, PARAMS;
    RangeTaken(Main(11), "pause_budget_ms", 0, 600_000);
    RangeTaken(Main(12), "pause_budget_pct", 0, 100);
  }

  /** The radar rules. */
  lemma {:induction false} RadarTimeRanges()
    ensures TakesNumbers("radar_quiet_gap_ms", 0, 10_000) && TakesNumbers("radar_dwell_ms", 0, 60_000)
  {
    hide TakesNumbers, PARAMS;
    RangeTaken(Main(15), "radar_quiet_gap_ms", 0, 10_000);
    RangeTaken(Main(16), "radar_dwell_ms", 0, 60_000);
  }

  lemma {:induction false} RadarWindowRanges()
    ensures TakesNumbers("radar_stationary_min_ms", 0, 60_000) && TakesNumbers("radar_settle_window_ms", 500, 60_000)
  {
    hide TakesNumbers, PARAMS;
    RangeTaken(Main(17), "radar_stationary_min_ms", 0, 60_000);
    RangeTaken(Main(18), "radar_settle_window_ms", 500, 60_000);
  }

  lemma {:induction false} RadarPlaceRanges()
    ensures TakesNumbers("radar_settle_span_cm", 0, 1_000) && TakesNumbers("radar_zone_max_cm", 0, 1_200)
  {
    hide TakesNumbers, PARAMS;
    RangeTaken(Main(19), "radar_settle_span_cm", 0, 1_000);
    RangeTaken(Main(20), "radar_zone_max_cm", 0, 1_200);
  }

  /** The other settings. */
  lemma {:induction false} HoldRanges()
    ensures TakesNumbers("heat_off_gap_dc", 0, 1_000) && TakesNumbers("cooking_trend", 0, 1)
    ensures TakesNumbers("cooling_hold_max_ms", 60_000, 14_400_000) && TakesNumbers("falling_hold", 0, 1)
  {
    hide TakesNumbers, MAIN;
    RangeTaken(Param(0), "heat_off_gap_dc", 0, 1_000);
    RangeTaken(Param(1), "cooking_trend", 0, 1);
    RangeTaken(Param(2), "cooling_hold_max_ms", 60_000, 14_400_000);
    RangeTaken(Param(3), "falling_hold", 0, 1);
  }

  lemma {:induction false} OtherRanges()
    ensures TakesNumbers("falling_hold_max_ms", 10_000, 600_000)
    ensures TakesNumbers("warning_min_after_hold_ms", 1_000, 600_000)
    ensures TakesNumbers("tier_rate", 0, 1) && TakesNumbers("fault_shutdown_ms", 10_000, 3_600_000)
  {
    hide TakesNumbers, MAIN;
    RangeTaken(Param(4), "falling_hold_max_ms", 10_000, 600_000);
    RangeTaken(Param(5), "warning_min_after_hold_ms", 1_000, 600_000);
    RangeTaken(Param(6), "tier_rate", 0, 1);
    RangeTaken(Param(7), "fault_shutdown_ms", 10_000, 3_600_000);
  }

  /** The tiers 2 to 5. */
  lemma {:induction false} TierRanges(tier: char)
    requires '2' <= tier <= '5'
    ensures TakesNumbers("tier" + [tier] + "_temp_dc", 0, 3_000)
    ensures TakesNumbers("tier" + [tier] + "_warning_ms", 1_000, 3_600_000)
    ensures TakesNumbers("tier" + [tier] + "_shutdown_ms", 1_000, 3_600_000)
  {
    hide TakesNumbers, MAIN, PARAMS;
    var t := tier as int - '2' as int;
    RangeTaken(Tier(t, 0), "tier" + [tier] + "_temp_dc", 0, 3_000);
    RangeTaken(Tier(t, 1), "tier" + [tier] + "_warning_ms", 1_000, 3_600_000);
    RangeTaken(Tier(t, 2), "tier" + [tier] + "_shutdown_ms", 1_000, 3_600_000);
  }

  /** Every number of a command, by its key, with its limits. */
  lemma {:induction false} NumberRanges(tier: char)
    ensures TakesNumbers("absence_ms", 0, 10_000) && TakesNumbers("return_ms", 0, 10_000)
    ensures TakesNumbers("return_gap_ms", 0, 5_000) && TakesNumbers("warning_ms", 1_000, 3_600_000)
    ensures TakesNumbers("shutdown_ms", 1_000, 3_600_000) && TakesNumbers("cooking_temp_dc", 0, 3_000)
    ensures TakesNumbers("pause_budget_ms", 0, 600_000) && TakesNumbers("pause_budget_pct", 0, 100)
    ensures TakesNumbers("radar_quiet_gap_ms", 0, 10_000) && TakesNumbers("radar_dwell_ms", 0, 60_000)
    ensures TakesNumbers("radar_stationary_min_ms", 0, 60_000) && TakesNumbers("radar_settle_window_ms", 500, 60_000)
    ensures TakesNumbers("radar_settle_span_cm", 0, 1_000) && TakesNumbers("radar_zone_max_cm", 0, 1_200)
    ensures TakesNumbers("heat_off_gap_dc", 0, 1_000) && TakesNumbers("cooking_trend", 0, 1)
    ensures TakesNumbers("cooling_hold_max_ms", 60_000, 14_400_000) && TakesNumbers("falling_hold", 0, 1)
    ensures TakesNumbers("falling_hold_max_ms", 10_000, 600_000) && TakesNumbers("tier_rate", 0, 1)
    ensures TakesNumbers("warning_min_after_hold_ms", 1_000, 600_000)
    ensures TakesNumbers("fault_shutdown_ms", 10_000, 3_600_000)
    ensures '2' <= tier <= '5' ==>
      && TakesNumbers("tier" + [tier] + "_temp_dc", 0, 3_000)
      && TakesNumbers("tier" + [tier] + "_warning_ms", 1_000, 3_600_000)
      && TakesNumbers("tier" + [tier] + "_shutdown_ms", 1_000, 3_600_000)
  {
    hide *;
    AbsenceRanges();
    ReturnRanges();
    TimeoutRanges();
    CookingRange();
    PauseRanges();
    RadarTimeRanges();
    RadarWindowRanges();
    RadarPlaceRanges();
    HoldRanges();
    OtherRanges();
    if '2' <= tier <= '5' {
      TierRanges(tier);
    }
  }

  /** And the words of the others. */
  lemma {:induction false} WordChoices()
    ensures TakesWords("presence_fusion", ["all", "any"]) && TakesWords("radar_mode", ["off", "observe", "enforce"])
    ensures TakesWords("cookware", ["mixed", "light", "heavy", "liquid"])
    ensures TakesWords("log_level", ["none", "error", "warn", "info", "debug", "verbose"])
  {
    hide TakesWords, PARAMS;
    WordsTaken(Main(13), "presence_fusion", ["all", "any"]);
    WordsTaken(Main(14), "radar_mode", ["off", "observe", "enforce"]);
    WordsTaken(Main(21), "cookware", ["mixed", "light", "heavy", "liquid"]);
    WordsTaken(Main(23), "log_level", ["none", "error", "warn", "info", "debug", "verbose"]);
  }

  predicate TagCode(n: int) {
    65 <= n <= 90 || 97 <= n <= 122 || 48 <= n <= 57 || n == 95 || n == 45 || n == 46
  }

  /** A log tag is a star or 1 to 15 characters: letters, digits, underscores, dashes and dots, by their codes. */
  lemma {:induction false} LogTagMeans(tag: string)
    ensures LogTagOk(tag) <==>
      tag == [42 as char] || (1 <= |tag| <= 15 && forall i | 0 <= i < |tag| :: TagCode(tag[i] as int))
  {
    assert [42 as char] == "*";
    if forall i | 0 <= i < |tag| :: TagCode(tag[i] as int) {
      assert forall c | c in tag :: TagChar(c);
    }
    if forall c | c in tag :: TagChar(c) {
      forall i | 0 <= i < |tag| ensures TagCode(tag[i] as int) {
        assert TagChar(tag[i]);
      }
    }
  }

  /** So a text parses as a command exactly when the command is valid and the text is a print of it. */
  lemma {:induction false} ParsedExactlyWhenPrinted(t: string, c: Command)
    ensures Parsed(t) == Some(c) <==> ValidCommand(c) && exists ms, l :: Prints(t, c, ms, l)
  {
    hide Parsed, Prints, ValidCommand;
    if Parsed(t) == Some(c) {
      var ms, l := ParsedIsPrinted(t);
    }
    if ms, l :| ValidCommand(c) && Prints(t, c, ms, l) {
      PrintedIsParsed(t, c, ms, l);
    }
  }

  // ----------------------------------------------------------------- the code: one pass with bit masks

  /** What a scanned value must satisfy: a string or a number. */
  predicate Allowed(r: Rule, v: Val) {
    match r
    case Range(min, max) => v.Num? && min <= v.n <= max
    case OneOf(words) => v.Word? && v.s in words
    case AnyAction => v.Word? && ActionFromName(v.s).Some?
    case NotEmpty => v.Word? && v.s != ""
    case LogTag => v.Word? && LogTagOk(v.s)
  }

  lemma {:induction false} AllowedIsFits(r: Rule, v: Token)
    ensures Allowed(r, Denotes(v)) == Fits(r, v)
  {
  }

  /** A key, the colon, and a value. */
  method TakeMember(scan: Scanner) returns (ok: bool, key: string, v: Val, ghost m: Member)
    requires scan.Valid()
    modifies scan
    ensures scan.Valid() && ok == ReadMember(old(scan.Ahead())).Some?
    ensures ok ==> (m, scan.Ahead()) == ReadMember(old(scan.Ahead())).value && key == m.key && v == Denotes(m.value)
  {
    hide ReadBody, ReadDigits, NumberFrom, Trim;
    key, v, m := "", Num(0), Member("", Number(""));
    ok, key := scan.TakeString(KEY_LEN);
    if !ok { return; }
    ok := scan.Take(':');
    if !ok { return; }
    scan.SkipSpace();
    if scan.p < |scan.text| && scan.text[scan.p] == '"' {
      var str;
      ok, str := scan.TakeString(STR_LEN);
      v, m := Word(str), Member(key, Text(str));
    } else {
      var num;
      ghost var digits;
      ok, num, digits := scan.TakeUint();
      v, m := Num(num), Member(key, Number(digits));
    }
  }

  /** A mask is the set of its bits: the places of the members in MAIN and PARAMS, and 3 * tier + field. */
  datatype Masks = Masks(seen: set<nat>, tiers: set<nat>, params: set<nat>)

  function Bits(lo: nat, hi: nat): (s: set<nat>)
    ensures forall i {:trigger i in s} :: i in s <==> lo <= i < hi
    decreases if lo < hi then hi - lo else 0
  {
    if lo >= hi then {} else {lo} + Bits(lo + 1, hi)
  }

  predicate BitSet(k: Masks, s: Slot) {
    match s
    case Main(i) => i in k.seen
    case Tier(t, f) => 3 * t + f in k.tiers
    case Param(i) => i in k.params
  }

  function SetBit(k: Masks, s: Slot): Masks {
    match s
    case Main(i) => k.(seen := k.seen + {i})
    case Tier(t, f) => k.(tiers := k.tiers + {3 * t + f})
    case Param(i) => k.(params := k.params + {i})
  }

  predicate MasksInRange(k: Masks) {
    k.seen <= Bits(0, |MAIN|) && k.tiers <= Bits(0, 12) && k.params <= Bits(0, |PARAMS|)
  }

  /** The final checks: all of the header, and exactly the action's own members. */
  predicate MasksComplete(k: Masks, a: Action) {
    && k.seen >= Bits(0, 5)
    && (if a == PresenceFilter then k.seen >= Bits(5, 10) else k.seen !! Bits(5, 10))
    && (a == CookingTemp) == (10 in k.seen)
    && (a == Cookware) == (21 in k.seen)
    && (if a == Tiers then k.tiers == Bits(0, 12) else k.tiers == {})
    && (if a == RadarRules then k.seen >= Bits(14, 21) else k.seen !! Bits(14, 21))
    && (if a == Attendance then k.seen >= Bits(11, 14) else k.seen !! Bits(11, 14))
    && (if a == LogLevel then k.seen >= Bits(22, 24) else k.seen !! Bits(22, 24))
    && (if a == Params then k.params == Bits(0, |PARAMS|) else k.params == {})
  }

  /** The one action that a slot goes with; none for the header. */
  function Owner(s: Slot): Option<Action> {
    match s
    case Main(i) =>
      if i < 5 then None
      else if i < 10 then Some(PresenceFilter)
      else if i == 10 then Some(CookingTemp)
      else if i < 14 then Some(Attendance)
      else if i < 21 then Some(RadarRules)
      else if i == 21 then Some(Cookware)
      else Some(LogLevel)
    case Tier(_, _) => Some(Tiers)
    case Param(_) => Some(Params)
  }

  lemma {:induction false} OwnerNeeds(s: Slot, a: Action)
    requires Known(s)
    ensures s in HEADER <==> Owner(s) == None
    ensures s in Needed(a) <==> Owner(s) == Some(a)
  {
  }

  predicate Expected(s: Slot, a: Action) {
    Owner(s) == None || Owner(s) == Some(a)
  }

  lemma {:induction false} MasksCompleteMeans(k: Masks, a: Action)
    requires MasksInRange(k)
    ensures MasksComplete(k, a) <==> forall s | Known(s) :: BitSet(k, s) == Expected(s, a)
  {
    hide Bits;
    if MasksComplete(k, a) {
      CompleteMasksExpected(k, a);
    }
    if forall s | Known(s) :: BitSet(k, s) == Expected(s, a) {
      ExpectedMasksComplete(k, a);
    }
  }

  lemma {:induction false} CompleteMasksExpected(k: Masks, a: Action)
    requires MasksInRange(k) && MasksComplete(k, a)
    ensures forall s | Known(s) :: BitSet(k, s) == Expected(s, a)
  {
    hide Bits;
    forall s | Known(s) ensures BitSet(k, s) == Expected(s, a) {
      match s
      case Main(i) =>
      case Tier(t, f) => assert 3 * t + f < 12;
      case Param(i) =>
    }
  }

  /** Exactly the bits up to `n` are set if they are wanted, and none otherwise. */
  predicate AllSet(bits: set<nat>, n: nat, want: bool) {
    forall i | 0 <= i < n :: (i in bits) == want
  }

  predicate SeenExpected(seen: set<nat>, a: Action) {
    forall i | 0 <= i < |MAIN| :: (i in seen) == Expected(Main(i), a)
  }

  lemma {:induction false} BitsOfSlots(k: Masks, a: Action)
    requires forall s | Known(s) :: BitSet(k, s) == Expected(s, a)
    ensures SeenExpected(k.seen, a) && AllSet(k.tiers, 12, a == Tiers) && AllSet(k.params, |PARAMS|, a == Params)
  {
    hide MAIN, PARAMS;
    forall i | 0 <= i < |MAIN| ensures (i in k.seen) == Expected(Main(i), a) {
      assert Known(Main(i)) && BitSet(k, Main(i)) == (i in k.seen);
    }
    forall i | 0 <= i < 12 ensures (i in k.tiers) == (a == Tiers) {
      var s := Tier(i / 3, i % 3);
      assert Known(s) && BitSet(k, s) == (i in k.tiers);
    }
    forall i | 0 <= i < |PARAMS| ensures (i in k.params) == (a == Params) {
      assert Known(Param(i)) && BitSet(k, Param(i)) == (i in k.params);
    }
  }

  lemma {:induction false} RangeOfBits(seen: set<nat>, lo: nat, hi: nat, want: bool)
    requires forall i | lo <= i < hi :: (i in seen) == want
    ensures if want then seen >= Bits(lo, hi) else seen !! Bits(lo, hi)
  {
    hide Bits;
  }

  /** The checks of the `seen` mask. */
  predicate SeenOk(seen: set<nat>, a: Action) {
    && seen >= Bits(0, 5)
    && (if a == PresenceFilter then seen >= Bits(5, 10) else seen !! Bits(5, 10))
    && (a == CookingTemp) == (10 in seen)
    && (a == Cookware) == (21 in seen)
    && (if a == RadarRules then seen >= Bits(14, 21) else seen !! Bits(14, 21))
    && (if a == Attendance then seen >= Bits(11, 14) else seen !! Bits(11, 14))
    && (if a == LogLevel then seen >= Bits(22, 24) else seen !! Bits(22, 24))
  }

  lemma {:induction false} MainCount()
    ensures |MAIN| == 24
  {
    hide PARAMS;
  }

  lemma {:induction false} SeenRange(seen: set<nat>, a: Action, lo: nat, hi: nat, want: bool)
    requires SeenExpected(seen, a) && hi <= |MAIN| && forall i | lo <= i < hi :: Expected(Main(i), a) == want
    ensures if want then seen >= Bits(lo, hi) else seen !! Bits(lo, hi)
  {
    hide Bits, MAIN, Expected;
    RangeOfBits(seen, lo, hi, want);
  }

  lemma {:induction false} SeenComplete(seen: set<nat>, a: Action)
    requires SeenExpected(seen, a)
    ensures SeenOk(seen, a)
  {
    hide Bits, MAIN;
    MainCount();
    assert Expected(Main(10), a) == (a == CookingTemp) && Expected(Main(21), a) == (a == Cookware);
    SeenRange(seen, a, 0, 5, true);
    SeenRange(seen, a, 5, 10, a == PresenceFilter);
    SeenRange(seen, a, 14, 21, a == RadarRules);
    SeenRange(seen, a, 11, 14, a == Attendance);
    SeenRange(seen, a, 22, 24, a == LogLevel);
  }

  lemma {:induction false} AllOrNone(bits: set<nat>, n: nat, want: bool)
    requires bits <= Bits(0, n) && AllSet(bits, n, want)
    ensures if want then bits == Bits(0, n) else bits == {}
  {
    hide Bits;
  }

  lemma {:induction false} ExpectedMasksComplete(k: Masks, a: Action)
    requires MasksInRange(k)
    requires forall s | Known(s) :: BitSet(k, s) == Expected(s, a)
    ensures MasksComplete(k, a)
  {
    BitsOfSlots(k, a);
    hide MasksComplete, Bits, Known, BitSet, Expected, MAIN, PARAMS, SeenOk, SeenExpected, AllSet;
    SeenComplete(k.seen, a);
    AllOrNone(k.tiers, 12, a == Tiers);
    AllOrNone(k.params, |PARAMS|, a == Params);
    MasksInParts(k, a);
  }

  lemma {:induction false} MasksInParts(k: Masks, a: Action)
    ensures MasksComplete(k, a) <==>
      && SeenOk(k.seen, a)
      && (if a == Tiers then k.tiers == Bits(0, 12) else k.tiers == {})
      && (if a == Params then k.params == Bits(0, |PARAMS|) else k.params == {})
  {
    hide Bits, MAIN, PARAMS;
  }

  /** The command as far as it has been filled in. */
  datatype Filled = Filled(action: Option<Action>, requestId: nat, controllerId: string, values: map<Slot, Val>)

  function Store(f: Filled, s: Slot, v: Val): Filled
    requires Known(s) && Allowed(RuleOf(s), v)
  {
    HeaderRules();
    if s == ACTION then f.(action := ActionFromName(v.s))
    else if s == REQUEST then f.(requestId := v.n)
    else if s == CONTROLLER then f.(controllerId := v.s)
    else if s in HEADER then f
    else f.(values := f.values[s := v])
  }

  /** The masks and fields hold what the members so far said. */
  ghost predicate Holds(tab: map<Slot, Token>, k: Masks, f: Filled) {
    && MasksInRange(k)
    && (forall s | s in tab :: Known(s) && Fits(RuleOf(s), tab[s]))
    && (forall s | Known(s) :: BitSet(k, s) == (s in tab))
    && (ACTION in tab ==> tab[ACTION].Text? && f.action == ActionFromName(tab[ACTION].s))
    && (REQUEST in tab ==> tab[REQUEST].Number? && f.requestId == NumberOf(tab[REQUEST].digits))
    && (CONTROLLER in tab ==> tab[CONTROLLER].Text? && f.controllerId == tab[CONTROLLER].s)
    && f.values == map s | s in tab && s !in HEADER :: Denotes(tab[s])
  }

  lemma {:induction false} HoldsNothing()
    ensures Holds(map[], Masks({}, {}, {}), Filled(None, 0, "", map[]))
  {
    hide Bits, RuleOf, Fits, ActionFromName, NumberFrom;
  }

  lemma {:induction false} SetBitSets(k: Masks, s: Slot)
    requires MasksInRange(k) && Known(s)
    ensures MasksInRange(SetBit(k, s))
    ensures forall u | Known(u) :: BitSet(SetBit(k, s), u) == (u == s || BitSet(k, u))
  {
    hide Bits;
  }

  lemma {:induction false} HoldsOneMore(tab: map<Slot, Token>, k: Masks, f: Filled, s: Slot, v: Token)
    requires Holds(tab, k, f) && Known(s) && Fits(RuleOf(s), v) && !BitSet(k, s)
    ensures Allowed(RuleOf(s), Denotes(v))
    ensures Holds(tab[s := v], SetBit(k, s), Store(f, s, Denotes(v)))
  {
    hide RuleOf, Fits, Allowed, NumberFrom, ActionFromName, MasksInRange, BitSet, SetBit;
    AllowedIsFits(RuleOf(s), v);
    SetBitSets(k, s);
    HeaderValues(s, v);
  }

  /** The kinds of value that the header fields take. */
  lemma {:induction false} HeaderValues(s: Slot, v: Token)
    requires Known(s) && Fits(RuleOf(s), v)
    ensures s == REQUEST ==> v.Number?
    ensures s == ACTION || s == CONTROLLER ==> v.Text?
  {
    HeaderRules();
  }

  lemma {:induction false} HoldsComplete(tab: map<Slot, Token>, k: Masks, f: Filled)
    requires Holds(tab, k, f)
    ensures ACTION in tab && f.action.Some? && MasksComplete(k, f.action.value) <==> Complete(tab)
    ensures Complete(tab) ==> CommandOf(tab) == Command(f.action.value, f.requestId, f.controllerId, f.values)
  {
    hide RuleOf, Fits, MasksComplete, BitSet, Needed, NumberFrom, ActionFromName, MAIN, PARAMS;
    if ACTION in tab && f.action.Some? {
      MasksTellSlots(tab, k, f.action.value);
    }
  }

  lemma {:induction false} MasksTellSlots(tab: map<Slot, Token>, k: Masks, a: Action)
    requires MasksInRange(k) && (forall s | Known(s) :: BitSet(k, s) == (s in tab)) && forall s | s in tab :: Known(s)
    ensures MasksComplete(k, a) <==> tab.Keys == HEADER + Needed(a)
  {
    hide MasksComplete, BitSet, Needed, HEADER, Known, Expected, MAIN, PARAMS;
    MasksCompleteMeans(k, a);
    forall s | Known(s) ensures Expected(s, a) <==> s in HEADER + Needed(a) {
      ExpectedIsNeeded(s, a);
    }
    forall s | s in HEADER + Needed(a) ensures Known(s) {
      NeededIsKnown(s, a);
    }
  }

  lemma {:induction false} ExpectedIsNeeded(s: Slot, a: Action)
    requires Known(s)
    ensures Expected(s, a) <==> s in HEADER + Needed(a)
  {
    hide Needed, HEADER, Known, Owner;
    OwnerNeeds(s, a);
  }

  lemma {:induction false} NeededIsKnown(s: Slot, a: Action)
    requires s in HEADER + Needed(a)
    ensures Known(s)
  {
    NeededIsNotHeader(a);
    hide Needed, PARAMS;
  }

  /** The members from here on, when the last one was followed by a comma (`more`) or not. */
  function LexRest(more: bool, t: string): Option<seq<Member>> {
    if more then LexMembers(t)
    else
      var e := Eat(t, '}');
      if e.Some? && Trim(e.value) == [] then Some([]) else None
  }

  function Prepend(done: seq<Member>, r: Option<seq<Member>>): Option<seq<Member>> {
    if r.None? then None else Some(done + r.value)
  }

  lemma {:induction false} LexOneMore(done: seq<Member>, t: string)
    requires ReadMember(t).Some?
    ensures var (m, rest) := ReadMember(t).value;
      var comma := Eat(rest, ',');
      Prepend(done, LexMembers(t)) ==
        if comma.Some? then Prepend(done + [m], LexMembers(comma.value))
        else Prepend(done + [m], LexRest(false, Trim(rest)))
  {
    hide ReadMember;
    var (m, rest) := ReadMember(t).value;
    assert Trim(Trim(rest)) == Trim(rest);
    if Eat(rest, ',').Some? {
      var r := LexMembers(Eat(rest, ',').value);
      if r.Some? {
        assert done + ([m] + r.value) == (done + [m]) + r.value;
      }
    } else {
      assert done + [m] + [] == done + [m];
    }
  }

  /** A member that is refused, or comes twice, spoils whatever follows. */
  ghost predicate Spoiled(done: seq<Member>, m: Member) {
    !MemberOk(m) || exists i :: 0 <= i < |done| && done[i].key == m.key
  }

  lemma {:induction false} SpoiledText(done: seq<Member>, m: Member, r: Option<seq<Member>>)
    requires Spoiled(done, m) && Prepend(done + [m], r).Some?
    ensures !WellMade(Prepend(done + [m], r).value)
  {
    hide MemberOk;
    var all := done + [m] + r.value;
    assert all[|done|] == m;
    if MemberOk(m) {
      var i :| 0 <= i < |done| && done[i].key == m.key;
      assert all[i] == done[i];
    }
  }

  /** The members so far make sense, and the masks and fields hold them. */
  ghost predicate Progress(done: seq<Member>, k: Masks, f: Filled) {
    WellMade(done) && Holds(Collect(done), k, f)
  }

  lemma {:induction false} ProgressStart()
    ensures Progress([], Masks({}, {}, {}), Filled(None, 0, "", map[]))
  {
    HoldsNothing();
  }

  /** One more member: refused or a duplicate, or the masks and fields take it in. */
  lemma {:induction false} ProgressStep(done: seq<Member>, k: Masks, f: Filled, m: Member)
    requires Progress(done, k, f)
    ensures var slot := Lookup(m.key);
      && (slot.Some? ==> Known(slot.value))
      && if slot == None || !Allowed(RuleOf(slot.value), Denotes(m.value)) || BitSet(k, slot.value)
          then Spoiled(done, m)
         else Progress(done + [m], SetBit(k, slot.value), Store(f, slot.value, Denotes(m.value)))
  {
    hide Lookup, RuleOf, Fits, Allowed, Holds, SetBit, Store, BitSet, Denotes;
    var slot := Lookup(m.key);
    if slot.Some? {
      LookupFinds(m.key);
      AllowedIsFits(RuleOf(slot.value), m.value);
      if Allowed(RuleOf(slot.value), Denotes(m.value)) {
        BitMeansCollected(done, k, f, slot.value);
        if BitSet(k, slot.value) {
          var i := CollectOnly(done, slot.value);
          SameSlotSameKey(done[i], m);
        } else {
          HoldsOneMore(Collect(done), k, f, slot.value, m.value);
          forall i | 0 <= i < |done| ensures done[i].key != m.key {
            CollectAt(done, i);
          }
          assert (done + [m])[..|done|] == done;
        }
      }
    }
  }

  lemma {:induction false} BitMeansCollected(done: seq<Member>, k: Masks, f: Filled, s: Slot)
    requires Progress(done, k, f) && Known(s)
    ensures BitSet(k, s) == (s in Collect(done))
  {
    hide BitSet;
  }

  lemma {:induction false} ProgressEnd(done: seq<Member>, k: Masks, f: Filled, t: string)
    requires Progress(done, k, f) && Lex(t) == Some(done)
    ensures Parsed(t) ==
      if f.action == None || !MasksComplete(k, f.action.value) then None
      else Some(Command(f.action.value, f.requestId, f.controllerId, f.values))
  {
    hide Lex, Complete, MasksComplete, CommandOf;
    hide Holds;
    HoldsComplete(Collect(done), k, f);
    if ACTION !in Collect(done) {
      NoActionIncomplete(Collect(done), k, f);
    }
  }

  lemma {:induction false} NoActionIncomplete(tab: map<Slot, Token>, k: Masks, f: Filled)
    requires Holds(tab, k, f) && ACTION !in tab
    ensures f.action == None || !MasksComplete(k, f.action.value)
  {
    assert Known(ACTION) && BitSet(k, ACTION) == (ACTION in tab);
  }

  /** Leading whitespace does not matter, and nothing comes of a text without a member. */
  lemma {:induction false} LexTrimmed(t: string)
    ensures LexMembers(Trim(t)) == LexMembers(t)
    ensures ReadMember(t) == None ==> LexMembers(t) == None
  {
    assert Trim(Trim(t)) == Trim(t);
    assert ReadMember(Trim(t)) == ReadMember(t) by {
      hide ReadBody, ReadValue;
    }
  }

  lemma {:induction false} PrependNothing(r: Option<seq<Member>>)
    ensures Prepend([], r) == r
  {
    if r.Some? {
      assert [] + r.value == r.value;
    }
  }

  lemma {:induction false} NoObject(t: string)
    requires Eat(t, '{').None? || (Eat(Eat(t, '{').value, '}').None? && LexMembers(Eat(t, '{').value).None?)
    ensures Parsed(t) == None
  {
    hide LexMembers, Eat;
  }

  lemma {:induction false} LoopStarts(start: string)
    ensures LexMembers(start) == Prepend([], LexRest(true, Trim(start)))
  {
    LexTrimmed(start);
    PrependNothing(LexMembers(start));
    hide LexMembers, Trim;
  }

  /** No member where one has to be. */
  lemma {:induction false} NoMember(start: string, done: seq<Member>, here: string)
    requires LexMembers(start) == Prepend(done, LexRest(true, here)) && ReadMember(here).None?
    ensures LexMembers(start).None?
  {
    LexTrimmed(here);
    hide LexMembers, Trim, ReadMember;
  }

  /** The text ahead once a member is taken, and its comma if there is one. */
  function Next(rest: string): (bool, string) {
    if Eat(rest, ',').Some? then (true, Eat(rest, ',').value) else (false, Trim(rest))
  }

  lemma {:induction false} LoopGoesOn(start: string, done: seq<Member>, here: string)
    requires LexMembers(start) == Prepend(done, LexRest(true, here)) && ReadMember(here).Some?
    ensures var (m, rest) := ReadMember(here).value;
      LexMembers(start) == Prepend(done + [m], LexRest(Next(rest).0, Next(rest).1))
  {
    LexOneMore(done, here);
    hide LexMembers, Trim, ReadMember, Eat, Prepend;
  }

  lemma {:induction false} MemberSpoils(start: string, done: seq<Member>, m: Member, r: Option<seq<Member>>, t: string)
    requires LexMembers(start) == Prepend(done + [m], r) && Spoiled(done, m)
    requires Eat(t, '{') == Some(start) && Eat(start, '}').None?
    ensures Parsed(t) == None
  {
    hide LexMembers, Eat, Spoiled, Complete, CommandOf, WellMade;
    if LexMembers(start).Some? {
      SpoiledText(done, m, r);
    }
  }

  /** What is left once the closing brace is due. */
  ghost predicate Closing(t: string, start: string, done: seq<Member>, ahead: string) {
    && Eat(t, '{') == Some(start)
    && if Eat(start, '}').Some? then done == [] && ahead == start
       else LexMembers(start) == Prepend(done, LexRest(false, ahead))
  }

  lemma {:induction false} Closed(t: string, start: string, done: seq<Member>, ahead: string)
    requires Closing(t, start, done, ahead)
    ensures var e := Eat(ahead, '}');
      if e.Some? && Trim(e.value) == [] then Lex(t) == Some(done) else Lex(t) == None && Parsed(t) == None
  {
    hide LexMembers, Eat, Trim, Complete, CommandOf, WellMade;
    assert done + [] == done;
  }

  lemma {:induction false} TookComma(behind: string)
    ensures Next(behind) == if Eat(behind, ',').Some? then (true, Eat(behind, ',').value) else (false, Trim(behind))
  {
  }

  lemma {:induction false} ClosingHere(t: string, start: string, done: seq<Member>, ahead: string)
    requires Eat(t, '{') == Some(start)
    requires Eat(start, '}').Some? ==> done == [] && ahead == start
    requires Eat(start, '}').None? ==> LexMembers(start) == Prepend(done, LexRest(false, ahead))
    ensures Closing(t, start, done, ahead)
  {
  }

  /** Parses and checks one command. */
  method Parse(json: string) returns (r: Option<Command>)
    ensures r == Parsed(json)
  {
    hide ReadMember, LexMembers, LexRest, Lex, Prepend, Closing, Parsed, Next, Lookup, Trim, Eat, RuleOf, Allowed, Fits;
    hide Progress, WellMade, Spoiled, Complete, CommandOf, MasksComplete, BitSet, SetBit, Store, Known, Denotes;
    var scan := new Scanner(json);
    var ok := scan.Take('{');
    if !ok {
      NoObject(json);
      return None;
    }
    ghost var start := scan.Ahead();
    var k, f := Masks({}, {}, {}), Filled(None, 0, "", map[]);
    ghost var done: seq<Member> := [];
    ProgressStart();
    ok := scan.Take('}');
    ghost var ahead := start;
    if !ok {
      var more := true;
      LoopStarts(start);
      while more
        invariant scan.Valid() && fresh(scan) && scan.text == json
        invariant LexMembers(start) == Prepend(done, LexRest(more, scan.Ahead()))
        invariant Progress(done, k, f)
        decreases more, |scan.Ahead()|
      {
        ghost var here := scan.Ahead();
        var key, v;
        ghost var m;
        ok, key, v, m := TakeMember(scan);
        if !ok {
          NoMember(start, done, here);
          NoObject(json);
          return None;
        }
        LoopGoesOn(start, done, here);
        ghost var behind := scan.Ahead();
        ProgressStep(done, k, f, m);
        var slot := Lookup(key);
        if slot == None || !Allowed(RuleOf(slot.value), v) || BitSet(k, slot.value) {
          MemberSpoils(start, done, m, LexRest(Next(behind).0, Next(behind).1), json);
          return None;
        }
        k, f := SetBit(k, slot.value), Store(f, slot.value, v);
        done := done + [m];
        more := scan.Take(',');
        TookComma(behind);
      }
      ahead := scan.Ahead();
      ok := scan.Take('}');
    }
    ClosingHere(json, start, done, ahead);
    Closed(json, start, done, ahead);
    if !ok { return None; }
    scan.SkipSpace();
    if scan.p != |json| { return None; }
    ProgressEnd(done, k, f, json);
    if f.action == None || !MasksComplete(k, f.action.value) { return None; }
    return Some(Command(f.action.value, f.requestId, f.controllerId, f.values));
  }
}
