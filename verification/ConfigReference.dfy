/**
  A predictive reading of the configuration language, one statement at a time.

  `Read` lists the statements of a token sequence up to its end or its first syntax error; `Reference` executes them.
  `LanguageOfParser` shows that this accepts exactly the spelled configurations none of whose statements is
  refused, and does what the configuration means.
 */
module ConfigReference {
  import opened Wrappers
  import opened ConfigTables
  import opened ConfigSyntax

  /** The parser's return value and the settings it leaves. */
  datatype Outcome = Outcome(result: int, settings: Settings)

  /** One executed semantic action; a parameter goes to the profile opened last. */
  datatype Event = SetOption(option: OptionStmt) | Open(name: string) | SetParam(param: Param) | LoadProfilesFromDb

  /** The events a token sequence gives rise to, and whether it is then complete or stuck on a syntax error. */
  datatype Reading = Complete | Stuck | Then(event: Event, rest: Reading)

  /** `tokens` spells `phrase` from position `i` on. */
  predicate At(tokens: seq<Token>, i: nat, phrase: seq<Token>) {
    i + |phrase| <= |tokens| && forall j :: 0 <= j < |phrase| ==> tokens[i + j] == phrase[j]
  }

  function InputAt(tokens: seq<Token>, i: nat): Option<OptionStmt>
    requires Kind(tokens, i) == INPUT
  {
    if Kind(tokens, i + 2) != STRING then None
    else if Kind(tokens, i + 1) == SHM then Some(InputShm(tokens[i + 2].text))
    else if Kind(tokens, i + 1) == FILTER then Some(InputFilter(tokens[i + 2].text))
    else None
  }

  function DbAt(tokens: seq<Token>, i: nat): Option<OptionStmt>
    requires Kind(tokens, i) == DB
  {
    var k1, k2, k3 := Kind(tokens, i + 1), Kind(tokens, i + 2), Kind(tokens, i + 3);
    if k1 == CONNECT && k2 == STRING then Some(DbConnect(tokens[i + 2].text))
    else if k1 == EXPORT && k2 == INTERVAL && k3 == NUMBER then Some(ExportInterval(tokens[i + 3].count))
    else if k1 == EXPORT && k2 == MIN && k3 == PPS && Kind(tokens, i + 4) == NUMBER then
      Some(ExportMinPps(tokens[i + 4].count))
    else None
  }

  function ActionAt(tokens: seq<Token>, i: nat): Option<OptionStmt>
    requires Kind(tokens, i) == ACTION
  {
    var k1, k2, k3 := Kind(tokens, i + 1), Kind(tokens, i + 2), Kind(tokens, i + 3);
    if k1 == START && k2 == COMMAND && k3 == STRING then Some(StartCommand(tokens[i + 3].text))
    else if k1 == STOP && k2 == COMMAND && k3 == STRING then Some(StopCommand(tokens[i + 3].text))
    else if k1 == STOP && k2 == DELAY && k3 == NUMBER then Some(StopDelay(tokens[i + 3].count))
    else None
  }

  /** The option statement that starts at `i`, None when an option keyword begins something else. */
  function OptionAt(tokens: seq<Token>, i: nat): Option<OptionStmt>
  {
    var k0, k1, k2 := Kind(tokens, i), Kind(tokens, i + 1), Kind(tokens, i + 2);
    if k0 == DEBUG then if k1 == LEVEL && k2 == NUMBER then Some(DebugLevel(tokens[i + 2].count)) else None
    else if k0 == PID then if k1 == FILE && k2 == STRING then Some(PidFile(tokens[i + 2].text)) else None
    else if k0 == WINDOW then if k1 == SIZE && k2 == NUMBER then Some(WindowSize(tokens[i + 2].count)) else None
    else if k0 == INPUT then InputAt(tokens, i)
    else if k0 == DB then DbAt(tokens, i)
    else if k0 == ACTION then ActionAt(tokens, i)
    else Some(NoOption)
  }

  function UnitAt(tokens: seq<Token>, i: nat): Option<LimitUnit>
  {
    match Kind(tokens, i)
    case 9 => Some(BitsPerSecond)
    case 10 => Some(PacketsPerSecond)
    case 11 => Some(FlowsPerSecond)
    case _ => None
  }

  /** The profile parameter that starts at `i`. */
  function ParamAt(tokens: seq<Token>, i: nat): Option<Param>
  {
    var k1, k2 := Kind(tokens, i + 1), Kind(tokens, i + 2);
    match Kind(tokens, i)
    case 8 => if k1 == STRING then Some(SetFilter(tokens[i + 1].text)) else None
    case 29 => if k1 == STRING then Some(SetDynamic(tokens[i + 1].text)) else None
    case 7 =>
      if k1 == NUMBER && UnitAt(tokens, i + 2).Some? then Some(Limit(tokens[i + 1].count, UnitAt(tokens, i + 2).value))
      else if k1 == NUMBER && k2 == FACTOR && UnitAt(tokens, i + 3).Some? then
        Some(ScaledLimit(tokens[i + 1].count, tokens[i + 2].scale, UnitAt(tokens, i + 3).value))
      else None
    case _ => Some(NoParam)
  }

  lemma InputSpelled(tokens: seq<Token>, i: nat)
    requires Kind(tokens, i) == INPUT && InputAt(tokens, i).Some?
    ensures At(tokens, i, SpellOption(InputAt(tokens, i).value))
  {}

  lemma DbSpelled(tokens: seq<Token>, i: nat)
    requires Kind(tokens, i) == DB && DbAt(tokens, i).Some?
    ensures At(tokens, i, SpellOption(DbAt(tokens, i).value))
  {
    var phrase := SpellOption(DbAt(tokens, i).value);
    assert tokens[i] == phrase[0] && tokens[i + 1] == phrase[1] && tokens[i + 2] == phrase[2];
    assert |phrase| > 3 ==> tokens[i + 3] == phrase[3];
    assert |phrase| > 4 ==> tokens[i + 4] == phrase[4];
  }

  lemma ActionSpelled(tokens: seq<Token>, i: nat)
    requires Kind(tokens, i) == ACTION && ActionAt(tokens, i).Some?
    ensures At(tokens, i, SpellOption(ActionAt(tokens, i).value))
  {
    var phrase := SpellOption(ActionAt(tokens, i).value);
    assert tokens[i] == phrase[0] && tokens[i + 1] == phrase[1];
    assert tokens[i + 2] == phrase[2] && tokens[i + 3] == phrase[3];
  }

  lemma OptionSpelled(tokens: seq<Token>, i: nat)
    requires i <= |tokens| && OptionAt(tokens, i).Some?
    ensures At(tokens, i, SpellOption(OptionAt(tokens, i).value))
  {
    var k := Kind(tokens, i);
    if k == INPUT { InputSpelled(tokens, i); }
    if k == DB { DbSpelled(tokens, i); }
    if k == ACTION { ActionSpelled(tokens, i); }
  }

  lemma ParamSpelled(tokens: seq<Token>, i: nat)
    requires i <= |tokens| && ParamAt(tokens, i).Some?
    ensures At(tokens, i, SpellParam(ParamAt(tokens, i).value))
  {}

  function Left(tokens: seq<Token>, i: nat): nat { if i < |tokens| then |tokens| - i else 0 }

  function ReadStart(tokens: seq<Token>, i: nat): Reading {
    if Kind(tokens, i) == OPTIONS && Kind(tokens, i + 1) == OBRACE then ReadOptions(tokens, i + 2) else Stuck
  }

  function ReadOptions(tokens: seq<Token>, i: nat): Reading
    decreases Left(tokens, i), 1
  {
    if Kind(tokens, i) == EBRACE then ReadRules(tokens, i + 1) else
    match OptionAt(tokens, i)
    case None => Stuck
    case Some(o) => Then(SetOption(o), ReadOptionEnd(tokens, i + |SpellOption(o)|))
  }

  function ReadOptionEnd(tokens: seq<Token>, i: nat): Reading
    decreases Left(tokens, i), 0
  {
    if Kind(tokens, i) == SEMICOLON then ReadOptions(tokens, i + 1) else Stuck
  }

  function ReadRules(tokens: seq<Token>, i: nat): Reading
    decreases Left(tokens, i), 2
  {
    if Kind(tokens, i) != PROFILE then ReadEnd(tokens, i)
    else if Kind(tokens, i + 1) == DB && Kind(tokens, i + 2) == SEMICOLON then
      Then(LoadProfilesFromDb, ReadRules(tokens, i + 3))
    else if Kind(tokens, i + 1) == STRING && Kind(tokens, i + 2) == OBRACE then
      Then(Open(tokens[i + 1].text), ReadParams(tokens, i + 3))
    else Stuck
  }

  function ReadParams(tokens: seq<Token>, i: nat): Reading
    decreases Left(tokens, i), 2
  {
    if Kind(tokens, i) == EBRACE then ReadRules(tokens, i + 1) else ReadParam(tokens, i)
  }

  function ReadParam(tokens: seq<Token>, i: nat): Reading
    decreases Left(tokens, i), 1
  {
    match ParamAt(tokens, i)
    case None => Stuck
    case Some(p) => Then(SetParam(p), ReadParamEnd(tokens, i + |SpellParam(p)|))
  }

  function ReadParamEnd(tokens: seq<Token>, i: nat): Reading
    decreases Left(tokens, i), 0
  {
    if Kind(tokens, i) == SEMICOLON then ReadParams(tokens, i + 1) else Stuck
  }

  function ReadEnd(tokens: seq<Token>, i: nat): Reading {
    if Kind(tokens, i) == END then Complete else Stuck
  }

  function Read(tokens: seq<Token>): Reading {
    ReadStart(tokens, 0)
  }

  // ---------- What the events do ----------

  function ApplyEvent(e: Event, s: Settings, env: Env): Applied {
    match e
    case SetOption(o) => ApplyOption(o, s, env)
    case Open(name) => OpenProfile(name, s, env)
    case SetParam(p) => if s.profiles == [] then Done(s) else ApplyParam(p, |s.profiles| - 1, s, env)
    case LoadProfilesFromDb => Done(s.(dbProfiles := true))
  }

  function Execute(r: Reading, s: Settings, env: Env): Outcome {
    match r
    case Complete => Outcome(0, s)
    case Stuck => Outcome(1, s)
    case Then(e, rest) =>
      match ApplyEvent(e, s, env)
      case Aborted(s') => Outcome(1, s')
      case Done(s') => Execute(rest, s', env)
  }

  /** The outcome of parsing `tokens`. */
  function Reference(tokens: seq<Token>, s: Settings, env: Env): Outcome {
    Execute(Read(tokens), s, env)
  }

  // ---------- The events of a configuration, and that they do what it means ----------

  function ListEvents<T>(event: T -> Event, items: seq<T>, rest: Reading): Reading {
    if items == [] then rest else Then(event(items[0]), ListEvents(event, items[1..], rest))
  }

  function OptionEvent(o: OptionStmt): Event { SetOption(o) }

  function ParamEvent(p: Param): Event { SetParam(p) }

  function OptionEvents(os: seq<OptionStmt>, rest: Reading): Reading { ListEvents(OptionEvent, os, rest) }

  function ParamEvents(ps: seq<Param>, rest: Reading): Reading { ListEvents(ParamEvent, ps, rest) }

  function RuleEvents(r: Rule, rest: Reading): Reading {
    match r
    case NoRule => rest
    case ProfilesFromDb => Then(LoadProfilesFromDb, rest)
    case ProfileRule(name, ps) => Then(Open(name), ParamEvents(ps, rest))
  }

  function RulesEvents(rs: seq<Rule>, rest: Reading): Reading {
    if rs == [] then rest else RuleEvents(rs[0], RulesEvents(rs[1..], rest))
  }

  function Events(c: Config): Reading {
    OptionEvents(c.options, RulesEvents(c.rules, Complete))
  }

  function Continue(a: Applied, rest: Reading, env: Env): Outcome {
    match a case Aborted(s) => Outcome(1, s) case Done(s) => Execute(rest, s, env)
  }

  lemma {:induction false} ExecuteOptions(os: seq<OptionStmt>, rest: Reading, s: Settings, env: Env)
    ensures Execute(OptionEvents(os, rest), s, env) == Continue(ApplyOptions(os, s, env), rest, env)
    decreases |os|
  {
    if os != [] {
      match ApplyOption(os[0], s, env)
      case Aborted(_) =>
      case Done(s') => ExecuteOptions(os[1..], rest, s', env);
    }
  }

  lemma {:induction false} ExecuteParams(ps: seq<Param>, rest: Reading, s: Settings, env: Env)
    requires s.profiles != []
    ensures Execute(ParamEvents(ps, rest), s, env) == Continue(ApplyParams(ps, |s.profiles| - 1, s, env), rest, env)
    decreases |ps|
  {
    if ps != [] {
      match ApplyParam(ps[0], |s.profiles| - 1, s, env)
      case Aborted(_) =>
      case Done(s') => ExecuteParams(ps[1..], rest, s', env);
    }
  }

  lemma ExecuteRule(r: Rule, rest: Reading, s: Settings, env: Env)
    ensures Execute(RuleEvents(r, rest), s, env) == Continue(ApplyRule(r, s, env), rest, env)
  {
    if r.ProfileRule? {
      match OpenProfile(r.name, s, env)
      case Aborted(_) =>
      case Done(s') => ExecuteParams(r.params, rest, s', env);
    }
  }

  lemma {:induction false} ExecuteRules(rs: seq<Rule>, rest: Reading, s: Settings, env: Env)
    ensures Execute(RulesEvents(rs, rest), s, env) == Continue(ApplyRules(rs, s, env), rest, env)
    decreases |rs|
  {
    if rs != [] {
      ExecuteRule(rs[0], RulesEvents(rs[1..], rest), s, env);
      match ApplyRule(rs[0], s, env)
      case Aborted(_) =>
      case Done(s') => ExecuteRules(rs[1..], rest, s', env);
    }
  }

  lemma ExecuteConfig(c: Config, s: Settings, env: Env)
    ensures Execute(Events(c), s, env) == Continue(Meaning(c, s, env), Complete, env)
  {
    ExecuteOptions(c.options, RulesEvents(c.rules, Complete), s, env);
    match ApplyOptions(c.options, s, env)
    case Aborted(_) =>
    case Done(s') => ExecuteRules(c.rules, Complete, s', env);
  }

  // ---------- Every sentence is read as what it means ----------

  lemma AtSplit(tokens: seq<Token>, i: nat, a: seq<Token>, b: seq<Token>)
    requires At(tokens, i, a + b)
    ensures At(tokens, i, a) && At(tokens, i + |a|, b)
  {
    forall j | 0 <= j < |a| ensures tokens[i + j] == a[j] { assert (a + b)[j] == a[j]; }
    forall j | 0 <= j < |b| ensures tokens[i + |a| + j] == b[j] { assert (a + b)[|a| + j] == b[j]; }
  }

  lemma AtJoin(tokens: seq<Token>, i: nat, a: seq<Token>, b: seq<Token>)
    requires At(tokens, i, a) && At(tokens, i + |a|, b)
    ensures At(tokens, i, a + b)
  {
    forall j | 0 <= j < |a + b| ensures tokens[i + j] == (a + b)[j] {
      if j >= |a| { assert tokens[i + |a| + (j - |a|)] == b[j - |a|]; }
    }
  }

  lemma OptionRecognised(tokens: seq<Token>, i: nat, o: OptionStmt)
    requires At(tokens, i, SpellOption(o) + [Keyword(SEMICOLON)])
    ensures OptionAt(tokens, i) == Some(o) && Kind(tokens, i) != EBRACE &&
        Kind(tokens, i + |SpellOption(o)|) == SEMICOLON
  {
    var phrase := SpellOption(o) + [Keyword(SEMICOLON)];
    assert tokens[i + 0] == phrase[0];
    assert o != NoOption ==> tokens[i + 1] == phrase[1] && tokens[i + 2] == phrase[2];
    assert |phrase| > 4 ==> tokens[i + 3] == phrase[3];
    assert |phrase| > 5 ==> tokens[i + 4] == phrase[4];
    assert tokens[i + |SpellOption(o)|] == phrase[|SpellOption(o)|];
  }

  lemma ParamRecognised(tokens: seq<Token>, i: nat, p: Param)
    requires At(tokens, i, SpellParam(p) + [Keyword(SEMICOLON)])
    ensures ParamAt(tokens, i) == Some(p) && Kind(tokens, i) != EBRACE && Kind(tokens, i + |SpellParam(p)|) == SEMICOLON
  {
    var phrase := SpellParam(p) + [Keyword(SEMICOLON)];
    assert tokens[i + 0] == phrase[0];
    assert p != NoParam ==> tokens[i + 1] == phrase[1];
    assert |phrase| > 3 ==> tokens[i + 2] == phrase[2];
    assert |phrase| > 4 ==> tokens[i + 3] == phrase[3];
    assert tokens[i + |SpellParam(p)|] == phrase[|SpellParam(p)|];
  }

  lemma OptionRead(tokens: seq<Token>, i: nat, o: OptionStmt)
    requires At(tokens, i, SpellOption(o) + [Keyword(SEMICOLON)])
    ensures ReadOptions(tokens, i) == Then(SetOption(o), ReadOptions(tokens, i + |SpellOption(o)| + 1))
  {
    OptionRecognised(tokens, i, o);
  }

  lemma ParamRead(tokens: seq<Token>, i: nat, p: Param)
    requires At(tokens, i, SpellParam(p) + [Keyword(SEMICOLON)])
    ensures ReadParams(tokens, i) == Then(SetParam(p), ReadParams(tokens, i + |SpellParam(p)| + 1))
  {
    ParamRecognised(tokens, i, p);
    assert ReadParams(tokens, i) == ReadParam(tokens, i);
    assert ReadParamEnd(tokens, i + |SpellParam(p)|) == ReadParams(tokens, i + |SpellParam(p)| + 1);
  }

  /** Where item `o` is spelled, with its semicolon, reading yields its event and goes on behind it. */
  predicate ReadsItem<T>(tokens: seq<Token>, spell: T -> seq<Token>, event: T -> Event, read: nat -> Reading,
                         k: nat, o: T)
  {
    At(tokens, k, spell(o) + [Keyword(SEMICOLON)]) ==> read(k) == Then(event(o), read(k + |spell(o)| + 1))
  }

  lemma {:induction false} ListRead<T(!new)>(
      tokens: seq<Token>, spell: T -> seq<Token>, event: T -> Event, read: nat -> Reading, i: nat, items: seq<T>)
    requires forall k: nat, o :: ReadsItem(tokens, spell, event, read, k, o)
    requires At(tokens, i, Terminated(spell, items))
    ensures read(i) == ListEvents(event, items, read(i + |Terminated(spell, items)|))
    decreases |items|
  {
    if items != [] {
      var head := spell(items[0]) + [Keyword(SEMICOLON)];
      AtSplit(tokens, i, head, Terminated(spell, items[1..]));
      assert ReadsItem(tokens, spell, event, read, i, items[0]);
      ListRead(tokens, spell, event, read, i + |head|, items[1..]);
    }
  }

  function OptionsReader(tokens: seq<Token>): nat -> Reading { (k: nat) => ReadOptions(tokens, k) }

  lemma OptionsReadItems(tokens: seq<Token>)
    ensures forall k: nat, o :: ReadsItem(tokens, SpellOption, OptionEvent, OptionsReader(tokens), k, o)
  {
    forall k: nat, o ensures ReadsItem(tokens, SpellOption, OptionEvent, OptionsReader(tokens), k, o) {
      if At(tokens, k, SpellOption(o) + [Keyword(SEMICOLON)]) { OptionRead(tokens, k, o); }
    }
  }

  lemma OptionsRead(tokens: seq<Token>, i: nat, os: seq<OptionStmt>)
    requires At(tokens, i, SpellOptions(os))
    ensures ReadOptions(tokens, i) == OptionEvents(os, ReadOptions(tokens, i + |SpellOptions(os)|))
  {
    OptionsReadItems(tokens);
    ListRead(tokens, SpellOption, OptionEvent, OptionsReader(tokens), i, os);
  }

  function ParamsReader(tokens: seq<Token>): nat -> Reading { (k: nat) => ReadParams(tokens, k) }

  lemma ParamsReadItems(tokens: seq<Token>)
    ensures forall k: nat, p :: ReadsItem(tokens, SpellParam, ParamEvent, ParamsReader(tokens), k, p)
  {
    forall k: nat, p ensures ReadsItem(tokens, SpellParam, ParamEvent, ParamsReader(tokens), k, p) {
      if At(tokens, k, SpellParam(p) + [Keyword(SEMICOLON)]) { ParamRead(tokens, k, p); }
    }
  }

  lemma ParamsRead(tokens: seq<Token>, i: nat, ps: seq<Param>)
    requires At(tokens, i, SpellParams(ps))
    ensures ReadParams(tokens, i) == ParamEvents(ps, ReadParams(tokens, i + |SpellParams(ps)|))
  {
    ParamsReadItems(tokens);
    ListRead(tokens, SpellParam, ParamEvent, ParamsReader(tokens), i, ps);
  }

  lemma RuleRead(tokens: seq<Token>, i: nat, r: Rule)
    requires At(tokens, i, SpellRule(r))
    ensures ReadRules(tokens, i) == RuleEvents(r, ReadRules(tokens, i + |SpellRule(r)|))
  {
    match r
    case NoRule =>
    case ProfilesFromDb =>
      var phrase := SpellRule(r);
      assert tokens[i + 0] == phrase[0] && tokens[i + 1] == phrase[1] && tokens[i + 2] == phrase[2];
    case ProfileRule(name, ps) =>
      var head := [Keyword(PROFILE), Text(name), Keyword(OBRACE)];
      AtSplit(tokens, i, head + SpellParams(ps), [Keyword(EBRACE)]);
      AtSplit(tokens, i, head, SpellParams(ps));
      assert tokens[i + 0] == head[0] && tokens[i + 1] == head[1] && tokens[i + 2] == head[2];
      assert tokens[i + 3 + |SpellParams(ps)| + 0] == [Keyword(EBRACE)][0];
      ParamsRead(tokens, i + 3, ps);
  }

  lemma RulesUncons(tokens: seq<Token>, i: nat, rs: seq<Rule>)
    requires rs != [] && At(tokens, i, SpellRules(rs))
    ensures At(tokens, i, SpellRule(rs[0])) && At(tokens, i + |SpellRule(rs[0])|, SpellRules(rs[1..]))
    ensures |SpellRules(rs)| == |SpellRule(rs[0])| + |SpellRules(rs[1..])|
  {
    hide SpellRule;
    AtSplit(tokens, i, SpellRule(rs[0]), SpellRules(rs[1..]));
  }

  lemma {:induction false} RulesRead(tokens: seq<Token>, i: nat, rs: seq<Rule>)
    requires At(tokens, i, SpellRules(rs))
    ensures ReadRules(tokens, i) == RulesEvents(rs, ReadRules(tokens, i + |SpellRules(rs)|))
    decreases |rs|
  {
    if rs != [] {
      RulesUncons(tokens, i, rs);
      RuleRead(tokens, i, rs[0]);
      RulesRead(tokens, i + |SpellRule(rs[0])|, rs[1..]);
    }
  }

  /** `tokens` is "options {", a body up to position `e`, "}", and the rest. */
  predicate Framed(tokens: seq<Token>, body: seq<Token>, rest: seq<Token>) {
    Kind(tokens, 0) == OPTIONS && Kind(tokens, 1) == OBRACE && At(tokens, 2, body) &&
    Kind(tokens, 2 + |body|) == EBRACE && At(tokens, 3 + |body|, rest) && 3 + |body| + |rest| == |tokens|
  }

  lemma FramedSplit(body: seq<Token>, rest: seq<Token>)
    ensures Framed([Keyword(OPTIONS), Keyword(OBRACE)] + body + [Keyword(EBRACE)] + rest, body, rest)
  {
    var a, c := [Keyword(OPTIONS), Keyword(OBRACE)], [Keyword(EBRACE)];
    var tokens := a + body + c + rest;
    forall j | 0 <= j < |body| ensures tokens[2 + j] == body[j] {}
    forall j | 0 <= j < |rest| ensures tokens[3 + |body| + j] == rest[j] {}
  }

  lemma FramedJoin(tokens: seq<Token>, body: seq<Token>, rest: seq<Token>)
    requires Framed(tokens, body, rest)
    ensures tokens == [Keyword(OPTIONS), Keyword(OBRACE)] + body + [Keyword(EBRACE)] + rest
  {
    var a, c := [Keyword(OPTIONS), Keyword(OBRACE)], [Keyword(EBRACE)];
    var whole := a + body + c + rest;
    forall j | 0 <= j < |tokens| ensures tokens[j] == whole[j] {
      if 2 <= j < 2 + |body| { assert tokens[2 + (j - 2)] == body[j - 2]; }
      if 3 + |body| <= j { assert tokens[3 + |body| + (j - 3 - |body|)] == rest[j - 3 - |body|]; }
    }
  }

  lemma RulesToEnd(tokens: seq<Token>, i: nat, rs: seq<Rule>)
    requires At(tokens, i, SpellRules(rs)) && i + |SpellRules(rs)| == |tokens|
    ensures ReadRules(tokens, i) == RulesEvents(rs, Complete)
  {
    RulesRead(tokens, i, rs);
    assert ReadRules(tokens, |tokens|) == Complete;
  }

  lemma FramedRead(tokens: seq<Token>, os: seq<OptionStmt>, rs: seq<Rule>)
    requires Framed(tokens, SpellOptions(os), SpellRules(rs))
    ensures Read(tokens) == OptionEvents(os, RulesEvents(rs, Complete))
  {
    var e := 2 + |SpellOptions(os)|;
    OptionsRead(tokens, 2, os);
    RulesToEnd(tokens, e + 1, rs);
    assert ReadOptions(tokens, e) == ReadRules(tokens, e + 1);
  }

  /** Reading the spelling of any configuration gives its statements back, in order. */
  lemma SentenceRead(c: Config)
    ensures Read(Spell(c)) == Events(c)
  {
    FramedSplit(SpellOptions(c.options), SpellRules(c.rules));
    FramedRead(Spell(c), c.options, c.rules);
  }

  // ---------- Whatever is read completely is a sentence ----------

  /** The events end in success rather than in a syntax error. */
  predicate Completes(r: Reading) {
    match r case Complete => true case Stuck => false case Then(_, rest) => Completes(rest)
  }

  lemma TerminatedAt<T>(tokens: seq<Token>, spell: T -> seq<Token>, i: nat, item: T, rest: seq<T>)
    requires At(tokens, i, spell(item) + [Keyword(SEMICOLON)])
    requires At(tokens, i + |spell(item)| + 1, Terminated(spell, rest))
    ensures At(tokens, i, Terminated(spell, [item] + rest))
    ensures |Terminated(spell, [item] + rest)| == |spell(item)| + 1 + |Terminated(spell, rest)|
  {
    AtJoin(tokens, i, spell(item) + [Keyword(SEMICOLON)], Terminated(spell, rest));
    assert ([item] + rest)[1..] == rest;
  }

  /** Where a list item can be read, `pick` is that item and reading goes on behind its semicolon. */
  predicate ItemRead<T>(tokens: seq<Token>, spell: T -> seq<Token>, read: nat -> Reading, pick: nat -> T, k: nat) {
    k <= |tokens| && Completes(read(k)) && Kind(tokens, k) != EBRACE ==>
      At(tokens, k, spell(pick(k)) + [Keyword(SEMICOLON)]) && Completes(read(k + |spell(pick(k))| + 1))
  }

  lemma {:induction false} ListComplete<T(!new)>(
      tokens: seq<Token>, spell: T -> seq<Token>, read: nat -> Reading, pick: nat -> T, i: nat) returns (items: seq<T>)
    requires forall k: nat :: ItemRead(tokens, spell, read, pick, k)
    requires i <= |tokens| && Completes(read(i))
    ensures At(tokens, i, Terminated(spell, items)) && Kind(tokens, i + |Terminated(spell, items)|) == EBRACE
    ensures Completes(read(i + |Terminated(spell, items)|))
    decreases |tokens| - i
  {
    if Kind(tokens, i) == EBRACE {
      items := [];
    } else {
      assert ItemRead(tokens, spell, read, pick, i);
      var rest := ListComplete(tokens, spell, read, pick, i + |spell(pick(i))| + 1);
      items := [pick(i)] + rest;
      TerminatedAt(tokens, spell, i, pick(i), rest);
    }
  }

  function PickParam(tokens: seq<Token>, i: nat): Param {
    match ParamAt(tokens, i) case Some(p) => p case None => NoParam
  }

  function PickOption(tokens: seq<Token>, i: nat): OptionStmt {
    match OptionAt(tokens, i) case Some(o) => o case None => NoOption
  }

  lemma ParamComplete(tokens: seq<Token>, i: nat)
    requires i <= |tokens| && Completes(ReadParams(tokens, i)) && Kind(tokens, i) != EBRACE
    ensures var p := PickParam(tokens, i);
      At(tokens, i, SpellParam(p) + [Keyword(SEMICOLON)]) && Completes(ReadParams(tokens, i + |SpellParam(p)| + 1))
  {
    assert ReadParams(tokens, i) == ReadParam(tokens, i);
    var p := PickParam(tokens, i);
    assert Completes(ReadParamEnd(tokens, i + |SpellParam(p)|));
    ParamSpelled(tokens, i);
    AtJoin(tokens, i, SpellParam(p), [Keyword(SEMICOLON)]);
  }

  lemma OptionComplete(tokens: seq<Token>, i: nat)
    requires i <= |tokens| && Completes(ReadOptions(tokens, i)) && Kind(tokens, i) != EBRACE
    ensures var o := PickOption(tokens, i);
      At(tokens, i, SpellOption(o) + [Keyword(SEMICOLON)]) && Completes(ReadOptions(tokens, i + |SpellOption(o)| + 1))
  {
    var o := PickOption(tokens, i);
    assert Completes(ReadOptionEnd(tokens, i + |SpellOption(o)|));
    OptionSpelled(tokens, i);
    AtJoin(tokens, i, SpellOption(o), [Keyword(SEMICOLON)]);
  }

  lemma ParamsComplete(tokens: seq<Token>, i: nat) returns (ps: seq<Param>)
    requires i <= |tokens| && Completes(ReadParams(tokens, i))
    ensures At(tokens, i, SpellParams(ps)) && Kind(tokens, i + |SpellParams(ps)|) == EBRACE
    ensures Completes(ReadRules(tokens, i + |SpellParams(ps)| + 1))
  {
    var read, pick := ParamsReader(tokens), (k: nat) => PickParam(tokens, k);
    forall k: nat ensures ItemRead(tokens, SpellParam, read, pick, k) {
      if k <= |tokens| && Completes(ReadParams(tokens, k)) && Kind(tokens, k) != EBRACE { ParamComplete(tokens, k); }
    }
    ps := ListComplete(tokens, SpellParam, read, pick, i);
  }

  lemma ProfileSpelledAt(tokens: seq<Token>, i: nat, name: string, body: seq<Token>)
    requires i + 2 < |tokens| && tokens[i] == Keyword(PROFILE) && tokens[i + 1] == Text(name) &&
        tokens[i + 2] == Keyword(OBRACE)
    requires At(tokens, i + 3, body) && Kind(tokens, i + 3 + |body|) == EBRACE
    ensures At(tokens, i, [Keyword(PROFILE), Text(name), Keyword(OBRACE)] + body + [Keyword(EBRACE)])
  {
    AtJoin(tokens, i, [Keyword(PROFILE), Text(name), Keyword(OBRACE)], body);
    AtJoin(tokens, i, [Keyword(PROFILE), Text(name), Keyword(OBRACE)] + body, [Keyword(EBRACE)]);
  }

  /** `r` is spelled from position `i` on, and what follows it is read completely too. */
  predicate RuleThenComplete(tokens: seq<Token>, i: nat, r: Rule) {
    At(tokens, i, SpellRule(r)) && |SpellRule(r)| > 0 && Completes(ReadRules(tokens, i + |SpellRule(r)|))
  }

  lemma DbRuleComplete(tokens: seq<Token>, i: nat)
    requires Completes(ReadRules(tokens, i)) && Kind(tokens, i) == PROFILE && Kind(tokens, i + 1) == DB
    ensures RuleThenComplete(tokens, i, ProfilesFromDb)
  {}

  lemma ProfileRuleComplete(tokens: seq<Token>, i: nat) returns (r: Rule)
    requires Completes(ReadRules(tokens, i)) && Kind(tokens, i) == PROFILE && Kind(tokens, i + 1) != DB
    ensures RuleThenComplete(tokens, i, r)
  {
    var ps := ParamsComplete(tokens, i + 3);
    r := ProfileRule(tokens[i + 1].text, ps);
    ProfileSpelledAt(tokens, i, tokens[i + 1].text, SpellParams(ps));
    assert |SpellRule(r)| == 4 + |SpellParams(ps)|;
  }

  lemma RulesCons(tokens: seq<Token>, i: nat, r: Rule, rest: seq<Rule>)
    requires At(tokens, i, SpellRule(r)) && At(tokens, i + |SpellRule(r)|, SpellRules(rest))
    ensures At(tokens, i, SpellRules([r] + rest)) && |SpellRules([r] + rest)| == |SpellRule(r)| + |SpellRules(rest)|
  {
    hide SpellRule;
    AtJoin(tokens, i, SpellRule(r), SpellRules(rest));
    assert ([r] + rest)[1..] == rest;
  }

  lemma {:induction false} RulesComplete(tokens: seq<Token>, i: nat) returns (rs: seq<Rule>)
    requires i <= |tokens| && Completes(ReadRules(tokens, i))
    ensures At(tokens, i, SpellRules(rs)) && i + |SpellRules(rs)| == |tokens|
    decreases |tokens| - i
  {
    hide SpellRule, ParamAt;
    if Kind(tokens, i) != PROFILE {
      rs := [];
    } else {
      var r := ProfilesFromDb;
      if Kind(tokens, i + 1) == DB { DbRuleComplete(tokens, i); } else { r := ProfileRuleComplete(tokens, i); }
      var rest := RulesComplete(tokens, i + |SpellRule(r)|);
      RulesCons(tokens, i, r, rest);
      rs := [r] + rest;
    }
  }

  lemma OptionsComplete(tokens: seq<Token>, i: nat) returns (os: seq<OptionStmt>)
    requires i <= |tokens| && Completes(ReadOptions(tokens, i))
    ensures At(tokens, i, SpellOptions(os)) && Kind(tokens, i + |SpellOptions(os)|) == EBRACE
    ensures Completes(ReadRules(tokens, i + |SpellOptions(os)| + 1))
  {
    var read, pick := OptionsReader(tokens), (k: nat) => PickOption(tokens, k);
    forall k: nat ensures ItemRead(tokens, SpellOption, read, pick, k) {
      if k <= |tokens| && Completes(ReadOptions(tokens, k)) && Kind(tokens, k) != EBRACE { OptionComplete(tokens, k); }
    }
    os := ListComplete(tokens, SpellOption, read, pick, i);
  }

  /** Every token sequence read to completion spells a configuration. */
  lemma CompleteIsSentence(tokens: seq<Token>) returns (c: Config)
    requires Completes(Read(tokens))
    ensures Spell(c) == tokens
  {
    var os := OptionsComplete(tokens, 2);
    var e := 2 + |SpellOptions(os)|;
    var rs := RulesComplete(tokens, e + 1);
    c := Config(os, rs);
    FramedJoin(tokens, SpellOptions(os), SpellRules(rs));
  }

  lemma {:induction false} SuccessCompletes(r: Reading, s: Settings, env: Env)
    requires Execute(r, s, env).result == 0
    ensures Completes(r)
  {
    if r.Then? { SuccessCompletes(r.rest, ApplyEvent(r.event, s, env).settings, env); }
  }

  /**
    The accepted token sequences are the spelled configurations none of whose statements is refused, and every
    spelled configuration, however it is read, has exactly the effects it means.
   */
  lemma LanguageOfParser(tokens: seq<Token>, s: Settings, env: Env)
    ensures Reference(tokens, s, env).result == 0 <==> exists c :: Spell(c) == tokens && Meaning(c, s, env).Done?
    ensures forall c :: Spell(c) == tokens ==> Reference(tokens, s, env).settings == Meaning(c, s, env).settings
  {
    forall c | Spell(c) == tokens
      ensures Reference(tokens, s, env).settings == Meaning(c, s, env).settings
      ensures Reference(tokens, s, env).result == 0 <==> Meaning(c, s, env).Done?
    {
      SentenceRead(c);
      ExecuteConfig(c, s, env);
    }
    if Reference(tokens, s, env).result == 0 {
      SuccessCompletes(Read(tokens), s, env);
      var c := CompleteIsSentence(tokens);
    }
  }
}
