/**
  What configurations as a whole do. `MeaningIs` gives the settings after any configuration field by field, each from
  the last statement about it, and says exactly when a configuration is refused and what is left then. The tree behind
  a token sequence can be recovered, and two oddities of the grammar's actions are stated exactly.
 */
module ConfigMeaning {
  import opened Wrappers
  import opened ConfigTables
  import opened ConfigSyntax
  import opened ConfigReference

  // ---------- What the statements say about each field ----------

  /** The value that the last item with one gives; `otherwise` if none has one. */
  function Last<A, T>(items: seq<A>, value: A -> Option<T>, otherwise: T): T {
    if items == [] then otherwise
    else
      var v := value(items[|items| - 1]);
      if v.Some? then v.value else Last(items[..|items| - 1], value, otherwise)
  }

  /** An item whose value no later one overrides decides; without any (`i == -1`) the old value stays. */
  lemma {:induction false} LastDecides<A, T>(items: seq<A>, value: A -> Option<T>, otherwise: T, i: int)
    requires -1 <= i < |items| && (i >= 0 ==> value(items[i]).Some?)
    requires forall k :: i < k < |items| ==> value(items[k]).None?
    ensures Last(items, value, otherwise) == if i == -1 then otherwise else value(items[i]).value
    decreases |items|
  {
    if i < |items| - 1 { LastDecides(items[..|items| - 1], value, otherwise, i); }
  }

  function Debug(o: OptionStmt): Option<int> { if o.DebugLevel? then Some(o.level) else None }

  function Pid(o: OptionStmt): Option<string> { if o.PidFile? then Some(o.path) else None }

  function Window(o: OptionStmt): Option<int> { if o.WindowSize? then Some(o.seconds) else None }

  function Shm(o: OptionStmt): Option<string> { if o.InputShm? then Some(o.name) else None }

  function Filter(o: OptionStmt): Option<Option<string>> { if o.InputFilter? then Some(Some(o.expr)) else None }

  function Connection(o: OptionStmt): Option<string> { if o.DbConnect? then Some(o.connection) else None }

  function Interval(o: OptionStmt): Option<int> { if o.ExportInterval? then Some(o.interval) else None }

  function MinPps(o: OptionStmt): Option<int> { if o.ExportMinPps? then Some(o.pps) else None }

  function Start(o: OptionStmt): Option<string> { if o.StartCommand? then Some(o.command) else None }

  function Stop(o: OptionStmt): Option<string> { if o.StopCommand? then Some(o.command) else None }

  function StartOrStop(o: OptionStmt): Option<string> {
    if o.StartCommand? || o.StopCommand? then Some(o.command) else None
  }

  function Delay(o: OptionStmt): Option<int> { if o.StopDelay? then Some(o.delay) else None }

  /** The settings after a list of accepted options. What the command line gave stays; the stop command is never set. */
  function AfterOptions(os: seq<OptionStmt>, s: Settings): Settings {
    s.(debug := if s.debugFromArg then s.debug else Last(os, Debug, s.debug),
       pidFile := if s.pidFromArg then s.pidFile else Last(os, Pid, s.pidFile),
       windowSize := Last(os, Window, s.windowSize),
       shm := Last(os, Shm, s.shm),
       filter := Last(os, Filter, s.filter),
       dbConnection := Last(os, Connection, s.dbConnection),
       exportInterval := Last(os, Interval, s.exportInterval),
       exportMinPps := Last(os, MinPps, s.exportMinPps),
       execStart := Last(os, StartOrStop, s.execStart),
       stopDelay := Last(os, Delay, s.stopDelay))
  }

  function FilterExpr(p: Param): Option<Option<string>> { if p.SetFilter? then Some(Some(p.expr)) else None }

  function DynamicFields(p: Param): Option<Option<string>> { if p.SetDynamic? then Some(Some(p.fields)) else None }

  /** A limit in bits per second is kept in bytes, but only where it is written with a factor. */
  function BytesLimit(p: Param): Option<nat> {
    match p
    case Limit(n, BitsPerSecond) => Some(n)
    case ScaledLimit(n, k, BitsPerSecond) => Some(n * k / 8)
    case _ => None
  }

  function PktsLimit(p: Param): Option<nat> {
    match p
    case Limit(n, PacketsPerSecond) => Some(n)
    case ScaledLimit(n, k, PacketsPerSecond) => Some(n * k)
    case _ => None
  }

  function FlowsLimit(p: Param): Option<nat> {
    match p
    case Limit(n, FlowsPerSecond) => Some(n)
    case ScaledLimit(n, k, FlowsPerSecond) => Some(n * k)
    case _ => None
  }

  /** The profile its own parameters make; a limit that is never given is 0, which is none. */
  function Built(name: string, ps: seq<Param>): Profile {
    Profile(name, Last(ps, FilterExpr, None), Last(ps, DynamicFields, None),
            Last(ps, BytesLimit, 0), Last(ps, PktsLimit, 0), Last(ps, FlowsLimit, 0))
  }

  /** The profiles a list of rules declares, in order. */
  function ProfilesOf(rs: seq<Rule>): seq<Profile> {
    if rs == [] then []
    else
      var r := rs[|rs| - 1];
      ProfilesOf(rs[..|rs| - 1]) + if r.ProfileRule? then [Built(r.name, r.params)] else []
  }

  function AfterRules(rs: seq<Rule>, s: Settings): Settings {
    s.(dbProfiles := s.dbProfiles || ProfilesFromDb in rs, profiles := s.profiles + ProfilesOf(rs))
  }

  /** The settings after an accepted configuration. */
  function AfterConfig(c: Config, s: Settings): Settings {
    AfterRules(c.rules, AfterOptions(c.options, s))
  }

  // ---------- What is accepted ----------

  /** An input filter must not be empty and must compile; every other option is accepted. */
  predicate OptionAccepted(o: OptionStmt, s: Settings, env: Env) {
    o.InputFilter? ==> o.expr != "" && env.compilesFilter(s, o.expr)
  }

  ghost predicate OptionsAccepted(os: seq<OptionStmt>, s: Settings, env: Env) {
    forall k :: 0 <= k < |os| ==> OptionAccepted(os[k], AfterOptions(os[..k], s), env)
  }

  /** A profile is being built on top of those that are there. */
  function Building(name: string, ps: seq<Param>, s: Settings): Settings {
    s.(profiles := s.profiles + [Built(name, ps)])
  }

  predicate ParamAccepted(p: Param, s: Settings, env: Env) {
    (p.SetFilter? ==> env.acceptsFilter(s, p.expr)) && (p.SetDynamic? ==> env.acceptsDynamic(s, p.fields))
  }

  ghost predicate ParamsAccepted(name: string, ps: seq<Param>, s: Settings, env: Env) {
    forall j :: 0 <= j < |ps| ==> ParamAccepted(ps[j], Building(name, ps[..j], s), env)
  }

  ghost predicate RuleAccepted(r: Rule, s: Settings, env: Env) {
    r.ProfileRule? ==> env.allocatesProfile(s, r.name) && ParamsAccepted(r.name, r.params, s, env)
  }

  ghost predicate RulesAccepted(rs: seq<Rule>, s: Settings, env: Env) {
    forall k :: 0 <= k < |rs| ==> RuleAccepted(rs[k], AfterRules(rs[..k], s), env)
  }

  ghost predicate Accepted(c: Config, s: Settings, env: Env) {
    OptionsAccepted(c.options, s, env) && RulesAccepted(c.rules, AfterOptions(c.options, s), env)
  }

  // ---------- What a refused statement leaves ----------

  /** The first refused option leaves what was there, without the input filter unless its own text was empty. */
  ghost predicate OptionRefused(os: seq<OptionStmt>, s: Settings, env: Env, t: Settings) {
    exists k :: 0 <= k < |os| && OptionsAccepted(os[..k], s, env) &&
      var before := AfterOptions(os[..k], s);
      !OptionAccepted(os[k], before, env) && t == if os[k].expr == "" then before else before.(filter := None)
  }

  /** The first refused parameter leaves the profile as built so far. */
  ghost predicate ParamRefused(name: string, ps: seq<Param>, s: Settings, env: Env, t: Settings) {
    exists j :: 0 <= j < |ps| && ParamsAccepted(name, ps[..j], s, env) && t == Building(name, ps[..j], s) &&
      !ParamAccepted(ps[j], t, env)
  }

  ghost predicate RuleRefused(r: Rule, s: Settings, env: Env, t: Settings) {
    r.ProfileRule? &&
    if env.allocatesProfile(s, r.name) then ParamRefused(r.name, r.params, s, env, t) else t == s
  }

  ghost predicate RulesRefused(rs: seq<Rule>, s: Settings, env: Env, t: Settings) {
    exists k :: 0 <= k < |rs| && RulesAccepted(rs[..k], s, env) && RuleRefused(rs[k], AfterRules(rs[..k], s), env, t)
  }

  ghost predicate Refused(c: Config, s: Settings, env: Env, t: Settings) {
    OptionRefused(c.options, s, env, t) ||
    (OptionsAccepted(c.options, s, env) && RulesRefused(c.rules, AfterOptions(c.options, s), env, t))
  }

  // ---------- The meaning of a configuration is that ----------

  lemma {:induction false} OptionsEnd(os: seq<OptionStmt>, s: Settings, env: Env)
    requires os != []
    ensures var before := ApplyOptions(os[..|os| - 1], s, env);
      ApplyOptions(os, s, env) ==
      if before.Done? then ApplyOption(os[|os| - 1], before.settings, env) else before
    decreases |os|
  {
    var m := |os| - 1;
    if m > 0 {
      assert os[..m][1..] == os[1..][..m - 1];
      match ApplyOption(os[0], s, env)
      case Aborted(_) =>
      case Done(s') => OptionsEnd(os[1..], s', env);
    }
  }

  /** One option, on what the ones before it left. */
  lemma OptionSets(os: seq<OptionStmt>, s: Settings, env: Env)
    requires os != []
    ensures var o, before := os[|os| - 1], AfterOptions(os[..|os| - 1], s);
      ApplyOption(o, before, env) ==
      if OptionAccepted(o, before, env) then Done(AfterOptions(os, s))
      else Aborted(if o.expr == "" then before else before.(filter := None))
  {}

  lemma OneOption(o: OptionStmt, s: Settings, env: Env)
    ensures var a := ApplyOption(o, s, env); a.Done? ==> a.settings == AfterOptions([o], s)
  {
    assert [o][..0] == [];
    NoOptions(s);
    OptionSets([o], s, env);
  }

  lemma {:induction false} OptionsDo(os: seq<OptionStmt>, s: Settings, env: Env)
    ensures var a := ApplyOptions(os, s, env);
      if a.Done? then OptionsAccepted(os, s, env) && a.settings == AfterOptions(os, s)
      else !OptionsAccepted(os, s, env) && OptionRefused(os, s, env, a.settings)
    decreases |os|
  {
    hide ApplyOption, AfterOptions;
    if os == [] {
      assert AfterOptions([], s) == s by { NoOptions(s); }
    } else {
      var m := |os| - 1;
      var before := os[..m];
      assert forall k :: 0 <= k <= m ==> before[..k] == os[..k];
      OptionsDo(before, s, env);
      OptionsEnd(os, s, env);
      OptionSets(os, s, env);
    }
  }

  lemma NoOptions(s: Settings)
    ensures AfterOptions([], s) == s
  {}

  lemma {:induction false} ParamsEnd(ps: seq<Param>, p: nat, s: Settings, env: Env)
    requires ps != [] && p < |s.profiles|
    ensures var before := ApplyParams(ps[..|ps| - 1], p, s, env);
      ApplyParams(ps, p, s, env) ==
      if before.Done? then ApplyParam(ps[|ps| - 1], p, before.settings, env) else before
    decreases |ps|
  {
    var m := |ps| - 1;
    if m > 0 {
      assert ps[..m][1..] == ps[1..][..m - 1];
      match ApplyParam(ps[0], p, s, env)
      case Aborted(_) =>
      case Done(s') => ParamsEnd(ps[1..], p, s', env);
    }
  }

  lemma ParamSets(name: string, ps: seq<Param>, s: Settings, env: Env)
    requires ps != []
    ensures var prm, before := ps[|ps| - 1], Building(name, ps[..|ps| - 1], s);
      ApplyParam(prm, |s.profiles|, before, env) ==
      if ParamAccepted(prm, before, env) then Done(Building(name, ps, s)) else Aborted(before)
  {
    var p, before := Built(name, ps), Building(name, ps[..|ps| - 1], s);
    assert before.profiles[|s.profiles| := p] == s.profiles + [p];
  }

  lemma {:induction false} ParamsDo(name: string, ps: seq<Param>, s: Settings, env: Env)
    ensures var a := ApplyParams(ps, |s.profiles|, Building(name, [], s), env);
      if a.Done? then ParamsAccepted(name, ps, s, env) && a.settings == Building(name, ps, s)
      else !ParamsAccepted(name, ps, s, env) && ParamRefused(name, ps, s, env, a.settings)
    decreases |ps|
  {
    hide Built, ParamEffect;
    if ps != [] {
      var m := |ps| - 1;
      var before := ps[..m];
      assert forall j :: 0 <= j <= m ==> before[..j] == ps[..j];
      ParamsDo(name, before, s, env);
      ParamsEnd(ps, |s.profiles|, Building(name, [], s), env);
      ParamSets(name, ps, s, env);
    }
  }

  lemma RuleDoes(rs: seq<Rule>, s: Settings, env: Env)
    requires rs != []
    ensures var r, before := rs[|rs| - 1], AfterRules(rs[..|rs| - 1], s);
      var a := ApplyRule(r, before, env);
      if a.Done? then RuleAccepted(r, before, env) && a.settings == AfterRules(rs, s)
      else !RuleAccepted(r, before, env) && RuleRefused(r, before, env, a.settings)
  {
    hide Built;
    var m := |rs| - 1;
    var r, before := rs[m], AfterRules(rs[..m], s);
    assert rs == rs[..m] + [r];
    if r.ProfileRule? {
      ParamsDo(r.name, r.params, before, env);
      assert Built(r.name, []) == FreshProfile(r.name) by { NoParams(r.name); }
      assert before.profiles + [Built(r.name, r.params)] == s.profiles + ProfilesOf(rs);
    }
  }

  lemma NoParams(name: string)
    ensures Built(name, []) == FreshProfile(name)
  {}

  lemma {:induction false} RulesEnd(rs: seq<Rule>, s: Settings, env: Env)
    requires rs != []
    ensures var before := ApplyRules(rs[..|rs| - 1], s, env);
      ApplyRules(rs, s, env) ==
      if before.Done? then ApplyRule(rs[|rs| - 1], before.settings, env) else before
    decreases |rs|
  {
    hide ApplyRule;
    var m := |rs| - 1;
    if m > 0 {
      assert rs[..m][1..] == rs[1..][..m - 1];
      match ApplyRule(rs[0], s, env)
      case Aborted(_) =>
      case Done(s') => RulesEnd(rs[1..], s', env);
    }
  }

  lemma {:induction false} RulesDo(rs: seq<Rule>, s: Settings, env: Env)
    ensures var a := ApplyRules(rs, s, env);
      if a.Done? then RulesAccepted(rs, s, env) && a.settings == AfterRules(rs, s)
      else !RulesAccepted(rs, s, env) && RulesRefused(rs, s, env, a.settings)
    decreases |rs|
  {
    hide ApplyRule, AfterRules, RuleAccepted, RuleRefused;
    if rs == [] {
      assert AfterRules([], s) == s by { NoRules(s); }
    } else {
      var m := |rs| - 1;
      var before := rs[..m];
      assert forall k :: 0 <= k <= m ==> before[..k] == rs[..k];
      RulesDo(before, s, env);
      RulesEnd(rs, s, env);
      RuleDoes(rs, s, env);
    }
  }

  lemma NoRules(s: Settings)
    ensures AfterRules([], s) == s
  {
    assert s.profiles + ProfilesOf([]) == s.profiles;
  }

  /**
    A configuration is accepted if and only if each of its filters, profiles and parameters is, on the settings the
    statements before it leave. Then every field has the value of the last statement about it, and otherwise the
    settings are those before the first refused statement, but for the input filter it may have dropped.
   */
  lemma MeaningIs(c: Config, s: Settings, env: Env)
    ensures var a := Meaning(c, s, env);
      if a.Done? then Accepted(c, s, env) && a.settings == AfterConfig(c, s)
      else !Accepted(c, s, env) && Refused(c, s, env, a.settings)
  {
    hide ApplyOptions, ApplyRules, AfterOptions, AfterRules;
    OptionsDo(c.options, s, env);
    RulesDo(c.rules, AfterOptions(c.options, s), env);
  }

  /** The parser accepts exactly the spelled configurations that are accepted, and leaves what they mean. */
  lemma FieldsOfParser(tokens: seq<Token>, s: Settings, env: Env)
    ensures Reference(tokens, s, env).result == 0 <==> exists c :: Spell(c) == tokens && Accepted(c, s, env)
    ensures forall c :: Spell(c) == tokens ==>
      var t := Reference(tokens, s, env).settings;
      if Reference(tokens, s, env).result == 0 then t == AfterConfig(c, s) else Refused(c, s, env, t)
  {
    LanguageOfParser(tokens, s, env);
    hide Meaning, Accepted, AfterConfig, Refused, Reference, Spell;
    forall c
      ensures Meaning(c, s, env).Done? <==> Accepted(c, s, env)
    {
      MeaningIs(c, s, env);
    }
    forall c | Spell(c) == tokens
      ensures var t := Reference(tokens, s, env).settings;
        if Reference(tokens, s, env).result == 0 then t == AfterConfig(c, s) else Refused(c, s, env, t)
    {
      MeaningIs(c, s, env);
      OneReading(tokens, c, s, env);
    }
  }

  lemma OneReading(tokens: seq<Token>, c: Config, s: Settings, env: Env)
    requires Spell(c) == tokens
    ensures Reference(tokens, s, env).result == 0 <==> Meaning(c, s, env).Done?
  {
    SentenceRead(c);
    ExecuteConfig(c, s, env);
  }

  // ---------- Each statement as it is written ----------

  /** A configuration file of just this one option is accepted and leaves the settings `t`. */
  predicate Yields(option: seq<Token>, s: Settings, env: Env, t: Settings) {
    Reference([Keyword(OPTIONS), Keyword(OBRACE)] + option + [Keyword(SEMICOLON), Keyword(EBRACE)], s, env) ==
    Outcome(0, t)
  }

  lemma OneTerminated<T>(spell: T -> seq<Token>, item: T)
    ensures Terminated(spell, [item]) == spell(item) + [Keyword(SEMICOLON)]
  {
    assert [item][1..] == [] && Terminated(spell, []) == [];
  }

  lemma OptionYields(o: OptionStmt, s: Settings, env: Env)
    requires OptionAccepted(o, s, env)
    ensures Yields(SpellOption(o), s, env, AfterOptions([o], s))
  {
    var c := Config([o], []);
    assert [o][..0] == [];
    OneTerminated(SpellOption, o);
    assert SpellOptions(c.options) == SpellOption(o) + [Keyword(SEMICOLON)] && SpellRules(c.rules) == [];
    assert Spell(c) == [Keyword(OPTIONS), Keyword(OBRACE)] + SpellOption(o) + [Keyword(SEMICOLON), Keyword(EBRACE)];
    hide Reference, Spell, Last;
    NoOptions(s);
    NoRules(AfterOptions([o], s));
    assert Accepted(c, s, env);
    FieldsOfParser(Spell(c), s, env);
  }

  lemma NumberOptionsAsWritten(n: Count, s: Settings, env: Env)
    ensures Yields([Keyword(DEBUG), Keyword(LEVEL), Number(n)], s, env, if s.debugFromArg then s else s.(debug := n))
    ensures Yields([Keyword(WINDOW), Keyword(SIZE), Number(n)], s, env, s.(windowSize := n))
    ensures Yields([Keyword(DB), Keyword(EXPORT), Keyword(INTERVAL), Number(n)], s, env, s.(exportInterval := n))
    ensures Yields([Keyword(DB), Keyword(EXPORT), Keyword(MIN), Keyword(PPS), Number(n)], s, env, s.(exportMinPps := n))
    ensures Yields([Keyword(ACTION), Keyword(STOP), Keyword(DELAY), Number(n)], s, env, s.(stopDelay := n))
  {
    hide Yields;
    NoOptions(s);
    OptionYields(DebugLevel(n), s, env);
    OptionYields(WindowSize(n), s, env);
    OptionYields(ExportInterval(n), s, env);
    OptionYields(ExportMinPps(n), s, env);
    OptionYields(StopDelay(n), s, env);
  }

  lemma TextOptionsAsWritten(x: string, s: Settings, env: Env)
    ensures Yields([Keyword(PID), Keyword(FILE), Text(x)], s, env, if s.pidFromArg then s else s.(pidFile := x))
    ensures Yields([Keyword(INPUT), Keyword(SHM), Text(x)], s, env, s.(shm := x))
    ensures Yields([Keyword(DB), Keyword(CONNECT), Text(x)], s, env, s.(dbConnection := x))
    ensures Yields([Keyword(ACTION), Keyword(START), Keyword(COMMAND), Text(x)], s, env, s.(execStart := x))
    ensures Yields([Keyword(ACTION), Keyword(STOP), Keyword(COMMAND), Text(x)], s, env, s.(execStart := x))
    ensures x != "" && env.compilesFilter(s, x) ==>
            Yields([Keyword(INPUT), Keyword(FILTER), Text(x)], s, env, s.(filter := Some(x)))
  {
    hide Yields;
    NoOptions(s);
    OptionYields(PidFile(x), s, env);
    OptionYields(InputShm(x), s, env);
    OptionYields(DbConnect(x), s, env);
    OptionYields(StartCommand(x), s, env);
    OptionYields(StopCommand(x), s, env);
    if x != "" && env.compilesFilter(s, x) { OptionYields(InputFilter(x), s, env); }
  }

  /** A configuration file of one profile with one parameter. */
  function ProfileFile(name: string, param: seq<Token>): seq<Token> {
    [Keyword(OPTIONS), Keyword(OBRACE), Keyword(EBRACE)] +
    ([Keyword(PROFILE), Text(name), Keyword(OBRACE)] + (param + [Keyword(SEMICOLON)]) + [Keyword(EBRACE)])
  }

  /** It is accepted and adds the profile `p`. */
  predicate YieldsProfile(param: seq<Token>, name: string, s: Settings, env: Env, p: Profile) {
    Reference(ProfileFile(name, param), s, env) == Outcome(0, s.(profiles := s.profiles + [p]))
  }

  lemma ProfileFileSpelled(name: string, prm: Param)
    ensures Spell(Config([], [ProfileRule(name, [prm])])) == ProfileFile(name, SpellParam(prm))
  {
    var r := ProfileRule(name, [prm]);
    OneTerminated(SpellParam, prm);
    assert [r][1..] == [] && SpellRules([]) == [] && SpellRules([r]) == SpellRule(r) + [] && SpellOptions([]) == [];
  }

  lemma ParamYields(prm: Param, name: string, s: Settings, env: Env)
    requires env.allocatesProfile(s, name) && ParamAccepted(prm, s.(profiles := s.profiles + [FreshProfile(name)]), env)
    ensures YieldsProfile(SpellParam(prm), name, s, env, Built(name, [prm]))
  {
    hide Reference, Spell, ProfileFile, SpellParam;
    var r := ProfileRule(name, [prm]);
    assert [prm][..0] == [] && [r][..0] == [];
    ProfileFileSpelled(name, prm);
    NoParams(name);
    NoOptions(s);
    NoRules(s);
    assert RuleAccepted(r, s, env);
    assert Accepted(Config([], [r]), s, env);
    assert ProfilesOf([r]) == [] + [Built(name, [prm])];
    FieldsOfParser(ProfileFile(name, SpellParam(prm)), s, env);
  }

  lemma ParamsAsWritten(name: string, n: Count, k: Scale, x: string, s: Settings, env: Env)
    requires env.allocatesProfile(s, name)
    ensures YieldsProfile([Keyword(LIMIT), Number(n), Keyword(BITPS)], name, s, env, Profile(name, None, None, n, 0, 0))
    ensures YieldsProfile([Keyword(LIMIT), Number(n), Keyword(PPS)], name, s, env, Profile(name, None, None, 0, n, 0))
    ensures YieldsProfile([Keyword(LIMIT), Number(n), Keyword(FPS)], name, s, env, Profile(name, None, None, 0, 0, n))
    ensures YieldsProfile([Keyword(LIMIT), Number(n), Factor(k), Keyword(BITPS)], name, s, env,
                          Profile(name, None, None, n * k / 8, 0, 0))
    ensures YieldsProfile([Keyword(LIMIT), Number(n), Factor(k), Keyword(PPS)], name, s, env,
                          Profile(name, None, None, 0, n * k, 0))
    ensures YieldsProfile([Keyword(LIMIT), Number(n), Factor(k), Keyword(FPS)], name, s, env,
                          Profile(name, None, None, 0, 0, n * k))
    ensures var extended := s.(profiles := s.profiles + [FreshProfile(name)]);
      (env.acceptsFilter(extended, x) ==>
         YieldsProfile([Keyword(FILTER), Text(x)], name, s, env, Profile(name, Some(x), None, 0, 0, 0))) &&
      (env.acceptsDynamic(extended, x) ==>
         YieldsProfile([Keyword(DYNAMIC), Text(x)], name, s, env, Profile(name, None, Some(x), 0, 0, 0)))
  {
    hide YieldsProfile;
    NoParams(name);
    var extended := s.(profiles := s.profiles + [FreshProfile(name)]);
    ParamYields(Limit(n, BitsPerSecond), name, s, env);
    ParamYields(Limit(n, PacketsPerSecond), name, s, env);
    ParamYields(Limit(n, FlowsPerSecond), name, s, env);
    ParamYields(ScaledLimit(n, k, BitsPerSecond), name, s, env);
    ParamYields(ScaledLimit(n, k, PacketsPerSecond), name, s, env);
    ParamYields(ScaledLimit(n, k, FlowsPerSecond), name, s, env);
    if env.acceptsFilter(extended, x) { ParamYields(SetFilter(x), name, s, env); }
    if env.acceptsDynamic(extended, x) { ParamYields(SetDynamic(x), name, s, env); }
  }

  lemma RefusedRuleKeeps(r: Rule, s: Settings, env: Env, t: Settings)
    requires RuleRefused(r, s, env, t)
    ensures s.profiles <= t.profiles && t.execStop == s.execStop
  {}

  lemma RefusedRulesKeep(rs: seq<Rule>, s: Settings, env: Env, t: Settings)
    requires RulesRefused(rs, s, env, t)
    ensures s.profiles <= t.profiles && t.execStop == s.execStop
  {
    var k :| 0 <= k < |rs| && RuleRefused(rs[k], AfterRules(rs[..k], s), env, t);
    RefusedRuleKeeps(rs[k], AfterRules(rs[..k], s), env, t);
  }

  /** Accepted or not, a configuration leaves earlier profiles and the stop command alone. */
  lemma MeaningKeeps(c: Config, s: Settings, env: Env)
    ensures var t := Meaning(c, s, env).settings; s.profiles <= t.profiles && t.execStop == s.execStop
  {
    MeaningIs(c, s, env);
    hide Meaning, Accepted, Last, OptionsAccepted, RulesAccepted, RulesRefused;
    var t := Meaning(c, s, env).settings;
    if RulesRefused(c.rules, AfterOptions(c.options, s), env, t) {
      RefusedRulesKeep(c.rules, AfterOptions(c.options, s), env, t);
    }
  }

  // ---------- No parameter lands on another profile ----------

  /**
    A configuration that is accepted adds exactly the profiles it declares, in order, each with the parameters
    between its own braces; one that is refused leaves the profiles that were there before as they were.
   */
  lemma ParametersStayHome(c: Config, s: Settings, env: Env)
    ensures var a := Meaning(c, s, env);
      s.profiles <= a.settings.profiles && (a.Done? ==> a.settings.profiles == s.profiles + ProfilesOf(c.rules))
  {
    hide Refused, Accepted;
    MeaningIs(c, s, env);
    MeaningKeeps(c, s, env);
  }

  // ---------- The tree behind a token sequence ----------

  /** The options at the head of a reading, and what follows them. */
  function TakeOptions(r: Reading): (seq<OptionStmt>, Reading) {
    if r.Then? && r.event.SetOption? then
      var (os, rest) := TakeOptions(r.rest);
      ([r.event.option] + os, rest)
    else ([], r)
  }

  function TakeParams(r: Reading): (result: (seq<Param>, Reading))
    ensures result.1 == r || result.1 < r
  {
    if r.Then? && r.event.SetParam? then
      var (ps, rest) := TakeParams(r.rest);
      ([r.event.param] + ps, rest)
    else ([], r)
  }

  function TakeRules(r: Reading): seq<Rule> {
    if r.Then? then
      match r.event
      case LoadProfilesFromDb => [ProfilesFromDb] + TakeRules(r.rest)
      case Open(name) =>
        var (ps, rest) := TakeParams(r.rest);
        [ProfileRule(name, ps)] + TakeRules(rest)
      case _ => []
    else []
  }

  /** The configuration a complete reading stands for. */
  function TreeOf(r: Reading): Config {
    var (os, rest) := TakeOptions(r);
    Config(os, TakeRules(rest))
  }

  function WithoutEmptyRules(rs: seq<Rule>): seq<Rule> {
    if rs == [] then [] else (if rs[0] == NoRule then [] else [rs[0]]) + WithoutEmptyRules(rs[1..])
  }

  lemma {:induction false} TakesOptions(os: seq<OptionStmt>, rest: Reading)
    requires !(rest.Then? && rest.event.SetOption?)
    ensures TakeOptions(OptionEvents(os, rest)) == (os, rest)
    decreases |os|
  {
    if os != [] {
      TakesOptions(os[1..], rest);
      assert OptionEvents(os, rest) == Then(SetOption(os[0]), OptionEvents(os[1..], rest));
      assert [os[0]] + os[1..] == os;
    }
  }

  lemma {:induction false} TakesParams(ps: seq<Param>, rest: Reading)
    requires !(rest.Then? && rest.event.SetParam?)
    ensures TakeParams(ParamEvents(ps, rest)) == (ps, rest)
    decreases |ps|
  {
    if ps != [] {
      TakesParams(ps[1..], rest);
      assert ParamEvents(ps, rest) == Then(SetParam(ps[0]), ParamEvents(ps[1..], rest));
      assert [ps[0]] + ps[1..] == ps;
    }
  }

  lemma {:induction false} TakesRules(rs: seq<Rule>)
    ensures var r := RulesEvents(rs, Complete);
      TakeRules(r) == WithoutEmptyRules(rs) && !(r.Then? && (r.event.SetParam? || r.event.SetOption?))
    decreases |rs|
  {
    if rs != [] {
      TakesRules(rs[1..]);
      if rs[0].ProfileRule? { TakesParams(rs[0].params, RulesEvents(rs[1..], Complete)); }
    }
  }

  /** Reading the spelling of a configuration gives it back, up to the rules the grammar lets be empty. */
  lemma TreeBack(c: Config)
    ensures TreeOf(Read(Spell(c))) == Config(c.options, WithoutEmptyRules(c.rules))
  {
    SentenceRead(c);
    TakesRules(c.rules);
    TakesOptions(c.options, RulesEvents(c.rules, Complete));
  }

  /** The grammar is ambiguous in its empty rules only. */
  lemma SpellingDeterminesTree(c: Config, d: Config)
    requires Spell(c) == Spell(d)
    ensures c.options == d.options && WithoutEmptyRules(c.rules) == WithoutEmptyRules(d.rules)
  {
    TreeBack(c);
    TreeBack(d);
  }

  // ---------- Two oddities ----------

  /** No configuration whatsoever changes the stop command: "action stop command" writes the start command. */
  lemma StopCommandNeverSet(c: Config, s: Settings, env: Env)
    ensures Meaning(c, s, env).settings.execStop == s.execStop
    ensures forall cmd :: ApplyOption(StopCommand(cmd), s, env) == ApplyOption(StartCommand(cmd), s, env)
  {
    hide Meaning;
    MeaningKeeps(c, s, env);
  }

  function IsStop(o: OptionStmt): Option<bool> {
    if o.StartCommand? || o.StopCommand? then Some(o.StopCommand?) else None
  }

  lemma {:induction false} LastOfEither(os: seq<OptionStmt>, start: string, stop: string)
    ensures Last(os, StartOrStop, start) ==
            if Last(os, IsStop, false) then Last(os, Stop, stop) else Last(os, Start, start)
    decreases |os|
  {
    if os != [] { LastOfEither(os[..|os| - 1], start, stop); }
  }

  /**
    An accepted configuration asks for the last start command and the last stop command. It gets the former unless a
    stop command with another argument comes after it, and the latter only if it asks for the one that was there.
   */
  lemma StartCommandIsLast(c: Config, s: Settings, env: Env)
    requires Meaning(c, s, env).Done?
    ensures var s' := Meaning(c, s, env).settings;
      var start, stop := Last(c.options, Start, s.execStart), Last(c.options, Stop, s.execStop);
      s'.execStart == Last(c.options, StartOrStop, s.execStart) &&
      (s'.execStart == start <==> !Last(c.options, IsStop, false) || stop == start) &&
      (s'.execStop == stop <==> stop == s.execStop)
  {
    MeaningIs(c, s, env);
    LastOfEither(c.options, s.execStart, s.execStop);
  }

  /** A limit means the same written out or with a factor, unless it is a positive one in bits per second. */
  lemma FactorAgreesExcept(p: Profile, n: Count, k: Scale, u: LimitUnit, s: Settings, env: Env)
    requires n * k < 0x8000_0000
    ensures ParamEffect(ScaledLimit(n, k, u), p, s, env) == ParamEffect(Limit(n * k, u), p, s, env) <==>
            (u != BitsPerSecond || n == 0)
  {
    var whole := n * k;
    assert whole == 0 <==> n == 0;
    if u == BitsPerSecond {
      assert ParamEffect(ScaledLimit(n, k, u), p, s, env).value.bytes == whole / 8;
      assert ParamEffect(Limit(whole, u), p, s, env).value.bytes == whole;
    }
  }
}
