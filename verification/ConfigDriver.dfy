/**
  The table-driven parser itself: the shift/reduce loop of yyparse over its two stacks, and its semantic actions.

  `YyParse` runs on the packed tables and is shown to have, on every token sequence, the outcome that
  `ConfigReference.Reference` gives. What makes the actions right is a fact about whole stacks (`Shape`): the
  state on top determines the states beneath it, the terminals above the last nonterminal are the tokens read
  last, and the slots below a parameter that `$0` reads hold the profile opened last.
 */
module ConfigDriver {
  import opened Wrappers
  import opened ConfigTables
  import opened ConfigSyntax
  import opened ConfigReference
  import opened ConfigMeaning

  /** A semantic value: the union YYSTYPE, tagged. Junk stands for a member that is never to be read. */
  datatype Value = Junk | Num(n: Count) | Str(s: string) | Prof(index: nat)

  /** The scanner's semantic value for the token at position `i`. */
  function ValueAt(tokens: seq<Token>, i: nat): Value {
    if i >= |tokens| then Junk else
    match tokens[i]
    case Keyword(_) => Junk
    case Number(n) => Num(n)
    case Factor(k) => Num(k)
    case Text(s) => Str(s)
  }

  function CodeAt(tokens: seq<Token>, i: nat): int {
    if i >= |tokens| then 0 else Code(tokens[i])
  }

  lemma CodeTranslates(tokens: seq<Token>, i: nat)
    ensures Translate(CodeAt(tokens, i)) == Kind(tokens, i)
  {}

  // ---------- The shape of the stacks ----------

  /** The kinds of the tokens from `base` on. */
  ghost predicate FormAt(form: seq<nat>, tokens: seq<Token>, base: nat) {
    forall j :: 0 <= j < |form| ==> Kind(tokens, base + j) == form[j]
  }

  /** The `j`-th value from the top is that of the `j`-th token back. */
  predicate Carried(vals: seq<Value>, tokens: seq<Token>, pos: nat, j: nat) {
    j < |vals| && j < pos && vals[|vals| - 1 - j] == ValueAt(tokens, pos - 1 - j)
  }

  /** The value pushed by either mid-rule action is the profile opened last. */
  predicate ProfileSlot(states: seq<int>, vals: seq<Value>, s: Settings, i: nat)
    requires |states| == |vals|
  {
    i < |states| && states[i] in {43, 52} ==> s.profiles != [] && vals[i] == Prof(|s.profiles| - 1)
  }

  ghost predicate Shape(states: seq<int>, vals: seq<Value>, tokens: seq<Token>, pos: nat, s: Settings) {
    Linked(states) && |vals| == |states| && Link(states, |states| - 1) &&
    var form := Form(states[|states| - 1]);
    |form| <= pos && FormAt(form, tokens, pos - |form|) &&
    (forall j: nat :: j < |form| ==> Carried(vals, tokens, pos, j)) &&
    (forall i: nat :: ProfileSlot(states, vals, s, i))
  }

  /** What is left to read in a state, from the tokens above its last nonterminal on. */
  function ReadAt(anchor: nat, tokens: seq<Token>, base: nat): Reading {
    match anchor
    case 0 => ReadStart(tokens, base)
    case 2 => ReadEnd(tokens, base)
    case 3 => ReadRules(tokens, base)
    case 6 => ReadRules(tokens, base)
    case 7 => ReadOptions(tokens, base)
    case 9 => ReadRules(tokens, base)
    case 17 => ReadOptionEnd(tokens, base)
    case 43 => ReadParams(tokens, base)
    case 49 => ReadParams(tokens, base)
    case 52 => ReadParam(tokens, base)
    case 56 => ReadParamEnd(tokens, base)
    case _ => Stuck
  }

  function Remaining(q: nat, tokens: seq<Token>, pos: nat): Reading
    requires q < YYNSTATES && |Form(q)| <= pos
  {
    ReadAt(Anchor(q), tokens, pos - |Form(q)|)
  }

  lemma LinkedPush(states: seq<int>, t: int)
    requires Linked(states) && 0 < t < YYNSTATES && Parent(t) == states[|states| - 1]
    ensures Linked(states + [t]) && Link(states + [t], |states|)
  {
    var states' := states + [t];
    forall i | 0 <= i < |states'| ensures Link(states', i) {
      if i < |states| { assert Link(states, i); }
    }
  }

  lemma FormPush(form: seq<nat>, vals: seq<Value>, tokens: seq<Token>, pos: nat, next: nat, kind: nat)
    requires |form| <= pos && next == pos + 1 && FormAt(form, tokens, pos - |form|) && kind == Kind(tokens, pos)
    requires forall j: nat :: j < |form| ==> Carried(vals, tokens, pos, j)
    ensures FormAt(form + [kind], tokens, pos - |form|)
    ensures forall j: nat :: j <= |form| ==> Carried(vals + [ValueAt(tokens, pos)], tokens, next, j)
  {
    var vals' := vals + [ValueAt(tokens, pos)];
    forall j | 0 <= j < |form + [kind]| ensures Kind(tokens, pos - |form| + j) == (form + [kind])[j] {
      if j < |form| { assert Kind(tokens, pos - |form| + j) == form[j]; }
    }
    forall j: nat | j <= |form| ensures Carried(vals', tokens, next, j) {
      if j > 0 { assert Carried(vals, tokens, pos, j - 1); }
    }
  }

  lemma SlotsPush(states: seq<int>, vals: seq<Value>, s: Settings, t: int, v: Value)
    requires |states| == |vals| && forall i: nat :: ProfileSlot(states, vals, s, i)
    requires t in {43, 52} ==> s.profiles != [] && v == Prof(|s.profiles| - 1)
    ensures forall i: nat :: ProfileSlot(states + [t], vals + [v], s, i)
  {
    var states', vals' := states + [t], vals + [v];
    forall i: nat ensures ProfileSlot(states', vals', s, i) {
      assert ProfileSlot(states, vals, s, i);
    }
  }

  lemma ShiftRemaining(q: nat, t: nat, tokens: seq<Token>, pos: nat)
    requires q < YYNSTATES && |Form(q)| <= pos && Edge(q, Kind(tokens, pos), t)
    ensures |Form(t)| <= pos + 1 && Remaining(t, tokens, pos + 1) == Remaining(q, tokens, pos)
  {
    TreeFacts(t);
    FormFacts(t);
  }

  /** Shifting a token keeps the shape of the stacks. */
  lemma ShiftShape(states: seq<int>, vals: seq<Value>, tokens: seq<Token>, pos: nat, s: Settings, t: int)
    requires Shape(states, vals, tokens, pos, s)
    requires Edge(states[|states| - 1], Kind(tokens, pos), t)
    ensures Shape(states + [t], vals + [ValueAt(tokens, pos)], tokens, pos + 1, s)
  {
    var form, v, next := Form(states[|states| - 1]), ValueAt(tokens, pos), pos + 1;
    FormFacts(t);
    LinkedPush(states, t);
    FormPush(form, vals, tokens, pos, next, Kind(tokens, pos));
    ShiftNotSlot(t);
    SlotsPush(states, vals, s, t, v);
    ShapeFrom(states + [t], vals + [v], tokens, next, s, form + [Kind(tokens, pos)]);
  }

  lemma ShapeFrom(states: seq<int>, vals: seq<Value>, tokens: seq<Token>, pos: nat, s: Settings, form: seq<nat>)
    requires Linked(states) && |vals| == |states| && Link(states, |states| - 1) && form == Form(states[|states| - 1])
    requires |form| <= pos && FormAt(form, tokens, pos - |form|)
    requires forall j: nat :: j < |form| ==> Carried(vals, tokens, pos, j)
    requires forall i: nat :: ProfileSlot(states, vals, s, i)
    ensures Shape(states, vals, tokens, pos, s)
  {}

  lemma ShiftNotSlot(t: nat)
    requires t < YYNSTATES && YyStos(t) < YYNTOKENS
    ensures t !in {43, 52}
  {}

  // ---------- The semantic actions ----------

  /** The option statement rule 7 to 17 has just completed; its argument is on top of the value stack. */
  function OptionOf(rule: nat, top: Value): OptionStmt
    requires 7 <= rule <= 17 && (if rule in {7, 9, 13, 14, 17} then top.Num? else top.Str?)
  {
    match rule
    case 7 => DebugLevel(top.n)
    case 8 => PidFile(top.s)
    case 9 => WindowSize(top.n)
    case 10 => InputShm(top.s)
    case 11 => InputFilter(top.s)
    case 12 => DbConnect(top.s)
    case 13 => ExportInterval(top.n)
    case 14 => ExportMinPps(top.n)
    case 15 => StartCommand(top.s)
    case 16 => StopCommand(top.s)
    case _ => StopDelay(top.n)
  }

  function UnitOf(rule: nat): LimitUnit
    requires 30 <= rule <= 35
  {
    if rule in {30, 33} then BitsPerSecond else if rule in {31, 34} then PacketsPerSecond else FlowsPerSecond
  }

  /** The arguments of rule 28 to 35 are of the right kind; `scale` matters for the last three only. */
  predicate ParamArgs(rule: nat, arg: Value, scale: Value) {
    28 <= rule <= 35 && (if rule <= 29 then arg.Str? else arg.Num?) &&
    (rule >= 33 ==> scale.Num? && (scale.n == 1000 || scale.n == 1_000_000))
  }

  /** The parameter rule 28 to 35 has just completed. */
  function ParamOf(rule: nat, arg: Value, scale: Value): Param
    requires ParamArgs(rule, arg, scale)
  {
    if rule == 28 then SetFilter(arg.s)
    else if rule == 29 then SetDynamic(arg.s)
    else if rule <= 32 then Limit(arg.n, UnitOf(rule))
    else ScaledLimit(arg.n, scale.n, UnitOf(rule))
  }

  /** The value `d` entries below the top of the value stack: `yyvsp[-d]`. */
  function Below(vals: seq<Value>, d: int): Value
    requires 0 <= d < |vals|
  {
    vals[|vals| - 1 - d]
  }

  /** A semantic action reads only values of the right kind, and only a profile that exists. */
  predicate Readable(rule: nat, vals: seq<Value>, s: Settings) {
    rule < 36 && YyR2(rule) < |vals| && 1 < |vals| &&
    (7 <= rule <= 17 ==> if rule in {7, 9, 13, 14, 17} then Below(vals, 0).Num? else Below(vals, 0).Str?) &&
    (rule == 21 ==> Below(vals, 1).Str?) &&
    (rule == 25 ==> Below(vals, 1).Prof?) &&
    (28 <= rule <= 35 ==>
      ParamArgs(rule, Below(vals, YyR2(rule) - 2), Below(vals, 1)) &&
      Below(vals, YyR2(rule)).Prof? && Below(vals, YyR2(rule)).index < |s.profiles|)
  }

  /** What the action of a rule does to the settings. */
  function ActionOf(rule: nat, vals: seq<Value>, s: Settings, env: Env): Applied
    requires Readable(rule, vals, s)
  {
    if 7 <= rule <= 17 then ApplyOption(OptionOf(rule, Below(vals, 0)), s, env)
    else if rule == 21 then OpenProfile(Below(vals, 1).s, s, env)
    else if rule == 23 then Done(s.(dbProfiles := true))
    else if 28 <= rule <= 35 then
      ApplyParam(ParamOf(rule, Below(vals, YyR2(rule) - 2), Below(vals, 1)), Below(vals, YyR2(rule)).index, s, env)
    else Done(s)
  }

  /** The value of the left-hand side matters for the two mid-rule actions only. */
  predicate ResultOf(rule: nat, vals: seq<Value>, s: Settings, result: Value)
    requires Readable(rule, vals, s)
  {
    (rule == 21 ==> result == Prof(|s.profiles|)) && (rule == 25 ==> result == Below(vals, 1))
  }

  /** The statement a reduction completes, if it completes one. */
  function EventOf(rule: nat, vals: seq<Value>, s: Settings): Option<Event>
    requires Readable(rule, vals, s)
  {
    if rule == 6 then Some(SetOption(NoOption))
    else if 7 <= rule <= 17 then Some(SetOption(OptionOf(rule, Below(vals, 0))))
    else if rule == 21 then Some(Open(Below(vals, 1).s))
    else if rule == 23 then Some(LoadProfilesFromDb)
    else if rule == 27 then Some(SetParam(NoParam))
    else if 28 <= rule <= 35 then Some(SetParam(ParamOf(rule, Below(vals, YyR2(rule) - 2), Below(vals, 1))))
    else None
  }

  // ---------- What each reduction completes ----------

  function LastValue(q: nat, tokens: seq<Token>, base: nat): Value
    requires q < YYNSTATES
  {
    if Form(q) == [] then Junk else ValueAt(tokens, base + |Form(q)| - 1)
  }

  /** In the last state of an option, the tokens since the last nonterminal are that option. */
  predicate OptionDone(q: nat, tokens: seq<Token>, base: nat)
    requires q < YYNSTATES
  {
    var rule, last := YyDefAct(q), LastValue(q, tokens, base);
    Anchor(q) == 7 && 7 <= rule <= 17 && (if rule in {7, 9, 13, 14, 17} then last.Num? else last.Str?) &&
    OptionAt(tokens, base) == Some(OptionOf(rule, last)) &&
    |SpellOption(OptionOf(rule, last))| == |Form(q)| && Kind(tokens, base) != EBRACE
  }

  lemma ShortOptionDone(q: nat, tokens: seq<Token>, base: nat)
    requires q in {32, 33, 37, 38, 39, 40} && FormAt(Form(q), tokens, base)
    ensures OptionDone(q, tokens, base)
  {
    var form := Form(q);
    assert Kind(tokens, base + 0) == form[0] && Kind(tokens, base + 1) == form[1] && Kind(tokens, base + 2) == form[2];
  }

  lemma LongOptionDone(q: nat, tokens: seq<Token>, base: nat)
    requires q in {44, 45, 46, 47, 50} && FormAt(Form(q), tokens, base)
    ensures OptionDone(q, tokens, base)
  {
    var form := Form(q);
    assert Kind(tokens, base + 0) == form[0] && Kind(tokens, base + 1) == form[1] && Kind(tokens, base + 2) == form[2];
    assert Kind(tokens, base + 3) == form[3];
    assert q == 50 ==> Kind(tokens, base + 4) == form[4];
  }

  /** In the last state of a parameter, the tokens since the last nonterminal are that parameter. */
  predicate ParamDone(q: nat, tokens: seq<Token>, base: nat)
    requires q < YYNSTATES
  {
    var rule, arg, scale := YyDefAct(q), ValueAt(tokens, base + 1), ValueAt(tokens, base + 2);
    Anchor(q) == 52 && 28 <= rule <= 35 && |Form(q)| == YyR2(rule) && ParamArgs(rule, arg, scale) &&
    ParamAt(tokens, base) == Some(ParamOf(rule, arg, scale)) && |SpellParam(ParamOf(rule, arg, scale))| == YyR2(rule)
  }

  lemma ParamIsDone(q: nat, tokens: seq<Token>, base: nat)
    requires q in {58, 59, 61, 62, 63, 65, 66, 67} && FormAt(Form(q), tokens, base)
    ensures ParamDone(q, tokens, base)
  {
    var form := Form(q);
    assert Kind(tokens, base + 0) == form[0] && Kind(tokens, base + 1) == form[1];
    assert q > 60 ==> Kind(tokens, base + 2) == form[2];
    assert q > 64 ==> Kind(tokens, base + 3) == form[3];
  }

  // ---------- What a reduction does to the remaining reading ----------

  /** The nonterminal state a default reduction in `q` leads to. */
  function NextOf(q: nat): int
    requires q < YYNSTATES && YyDefAct(q) != 0
  {
    YyDefGoto(YyR1(YyDefAct(q)) - YYNTOKENS)
  }

  /** A reduction consumes exactly the event it completes from what remained to be read. */
  ghost predicate ReducesReading(q: nat, vals: seq<Value>, tokens: seq<Token>, pos: nat, s: Settings)
    requires q < YYNSTATES && |Form(q)| <= pos && YyDefAct(q) != 0
  {
    var rule := YyDefAct(q);
    Readable(rule, vals, s) && 0 < NextOf(q) &&
    (28 <= rule <= 35 ==> Below(vals, YyR2(rule)).index == |s.profiles| - 1) &&
    (rule == 25 ==> s.profiles != [] && Below(vals, 1).index == |s.profiles| - 1) &&
    Remaining(q, tokens, pos) ==
      match EventOf(rule, vals, s)
      case None => ReadAt(NextOf(q), tokens, pos)
      case Some(e) => Then(e, ReadAt(NextOf(q), tokens, pos))
  }

  lemma ShortOptionReduces(q: nat, states: seq<int>, vals: seq<Value>, tokens: seq<Token>, pos: nat, s: Settings)
    requires Shape(states, vals, tokens, pos, s) && q == states[|states| - 1]
    requires q in {32, 33, 37, 38, 39, 40}
    ensures ReducesReading(q, vals, tokens, pos, s)
  {
    ShortOptionDone(q, tokens, pos - |Form(q)|);
    assert Carried(vals, tokens, pos, 0);
    Unfold(states, |states|);
  }

  lemma LongOptionReduces(q: nat, states: seq<int>, vals: seq<Value>, tokens: seq<Token>, pos: nat, s: Settings)
    requires Shape(states, vals, tokens, pos, s) && q == states[|states| - 1]
    requires q in {44, 45, 46, 47, 50}
    ensures ReducesReading(q, vals, tokens, pos, s)
  {
    LongOptionDone(q, tokens, pos - |Form(q)|);
    assert Carried(vals, tokens, pos, 0);
    Unfold(states, |states|);
  }

  lemma ParamReduces(q: nat, states: seq<int>, vals: seq<Value>, tokens: seq<Token>, pos: nat, s: Settings)
    requires Shape(states, vals, tokens, pos, s) && q == states[|states| - 1]
    requires q in {58, 59, 61, 62, 63, 65, 66, 67}
    ensures ReducesReading(q, vals, tokens, pos, s)
  {
    var len := |Form(q)|;
    ParamIsDone(q, tokens, pos - len);
    assert Carried(vals, tokens, pos, len - 2) && Carried(vals, tokens, pos, 1);
    ReduceShape(q, states);
    assert ProfileSlot(states, vals, s, |states| - 1 - len);
  }

  lemma EmptyReduces(q: nat, states: seq<int>, vals: seq<Value>, tokens: seq<Token>, pos: nat, s: Settings)
    requires Shape(states, vals, tokens, pos, s) && q == states[|states| - 1]
    requires q in {3, 6, 7, 43, 49, 52} && Child(q, Kind(tokens, pos)) == 0
    ensures ReducesReading(q, vals, tokens, pos, s)
  {
    Unfold(states, |states|);
    assert ProfileSlot(states, vals, s, |states| - 2);
  }

  lemma PhraseReduces(q: nat, states: seq<int>, vals: seq<Value>, tokens: seq<Token>, pos: nat, s: Settings)
    requires Shape(states, vals, tokens, pos, s) && q == states[|states| - 1]
    requires q in {4, 9, 10, 29, 30, 31, 51, 60}
    ensures ReducesReading(q, vals, tokens, pos, s)
  {
    var form, base := Form(q), pos - |Form(q)|;
    assert |form| > 0 ==> Kind(tokens, base + 0) == form[0];
    assert |form| > 1 ==> Kind(tokens, base + 1) == form[1];
    assert |form| > 2 ==> Kind(tokens, base + 2) == form[2] && Carried(vals, tokens, pos, 1);
    Unfold(states, |states|);
  }

  /** Every reduction consumes exactly the statement it completes. */
  lemma Reduces(q: nat, states: seq<int>, vals: seq<Value>, tokens: seq<Token>, pos: nat, s: Settings)
    requires Shape(states, vals, tokens, pos, s) && q == states[|states| - 1]
    requires q != YYFINAL && YyDefAct(q) != 0 && Child(q, Kind(tokens, pos)) == 0
    ensures ReducesReading(q, vals, tokens, pos, s)
  {
    ReducingStates(q);
    if q in {32, 33, 37, 38, 39, 40} { ShortOptionReduces(q, states, vals, tokens, pos, s); }
    else if q in {44, 45, 46, 47, 50} { LongOptionReduces(q, states, vals, tokens, pos, s); }
    else if q in {58, 59, 61, 62, 63, 65, 66, 67} { ParamReduces(q, states, vals, tokens, pos, s); }
    else if q in {3, 6, 7, 43, 49, 52} { EmptyReduces(q, states, vals, tokens, pos, s); }
    else { PhraseReduces(q, states, vals, tokens, pos, s); }
  }

  lemma ReducingStates(q: nat)
    requires q < YYNSTATES && q != YYFINAL && YyDefAct(q) != 0
    ensures q in {32, 33, 37, 38, 39, 40} || q in {44, 45, 46, 47, 50} || q in {58, 59, 61, 62, 63, 65, 66, 67} ||
            q in {3, 6, 7, 43, 49, 52} || q in {4, 9, 10, 29, 30, 31, 51, 60}
  {}

  // ---------- A state with no move is a syntax error ----------

  lemma StuckAtStart(q: nat, tokens: seq<Token>, pos: nat)
    requires q in {0, 1, 2, 8, 17, 18, 19, 56} && |Form(q)| <= pos && FormAt(Form(q), tokens, pos - |Form(q)|)
    requires Child(q, Kind(tokens, pos)) == 0
    ensures Remaining(q, tokens, pos) == Stuck
  {
    var form, base := Form(q), pos - |Form(q)|;
    assert |form| > 0 ==> Kind(tokens, base + 0) == form[0];
    assert |form| > 1 ==> Kind(tokens, base + 1) == form[1];
  }

  lemma StuckInOption(q: nat, tokens: seq<Token>, pos: nat)
    requires q in {11, 12, 13, 14, 15, 16, 20, 21, 22, 23} && |Form(q)| <= pos &&
        FormAt(Form(q), tokens, pos - |Form(q)|)
    requires Child(q, Kind(tokens, pos)) == 0
    ensures Remaining(q, tokens, pos) == Stuck
  {
    var form, base := Form(q), pos - |Form(q)|;
    assert Kind(tokens, base + 0) == form[0];
    assert |form| > 1 ==> Kind(tokens, base + 1) == form[1];
  }

  lemma StuckLateInOption(q: nat, tokens: seq<Token>, pos: nat)
    requires q in {24, 25, 26, 27, 28, 34, 35, 36, 41, 42, 48} && |Form(q)| <= pos &&
        FormAt(Form(q), tokens, pos - |Form(q)|)
    requires Child(q, Kind(tokens, pos)) == 0
    ensures Remaining(q, tokens, pos) == Stuck
  {
    var form, base := Form(q), pos - |Form(q)|;
    assert Kind(tokens, base + 0) == form[0] && Kind(tokens, base + 1) == form[1];
    assert |form| > 2 ==> Kind(tokens, base + 2) == form[2];
    assert |form| > 3 ==> Kind(tokens, base + 3) == form[3];
  }

  lemma StuckInParam(q: nat, tokens: seq<Token>, pos: nat)
    requires q in {53, 54, 55, 57, 64} && |Form(q)| <= pos && FormAt(Form(q), tokens, pos - |Form(q)|)
    requires Child(q, Kind(tokens, pos)) == 0
    ensures Remaining(q, tokens, pos) == Stuck
  {
    var form, base := Form(q), pos - |Form(q)|;
    assert Kind(tokens, base + 0) == form[0];
    assert |form| > 1 ==> Kind(tokens, base + 1) == form[1];
    assert |form| > 2 ==> Kind(tokens, base + 2) == form[2];
  }

  /** A state without a move on the next token is one where the reading is stuck. */
  lemma NoMoveIsStuck(q: nat, tokens: seq<Token>, pos: nat)
    requires q < YYNSTATES && q != YYFINAL && YyDefAct(q) == 0
    requires |Form(q)| <= pos && FormAt(Form(q), tokens, pos - |Form(q)|)
    requires Child(q, Kind(tokens, pos)) == 0
    ensures Remaining(q, tokens, pos) == Stuck
  {
    if q in {0, 1, 2, 8, 17, 18, 19, 56} { StuckAtStart(q, tokens, pos); }
    else if q < 24 { StuckInOption(q, tokens, pos); }
    else if q < 50 { StuckLateInOption(q, tokens, pos); }
    else { StuckInParam(q, tokens, pos); }
  }

  // ---------- Popping a right-hand side and entering the next state ----------

  lemma LinkedPop(states: seq<int>, len: nat)
    requires Linked(states) && len < |states|
    ensures Linked(states[..|states| - len])
  {
    var below := states[..|states| - len];
    forall i | 0 <= i < |below| ensures Link(below, i) { assert Link(states, i); }
  }

  lemma SlotsPop(states: seq<int>, vals: seq<Value>, s: Settings, states': seq<int>, vals': seq<Value>, s': Settings)
    requires |states| == |vals| && |states'| == |vals'| && states' <= states && vals' <= vals
    requires |s'.profiles| == |s.profiles|
    requires forall i: nat :: ProfileSlot(states, vals, s, i)
    ensures forall i: nat :: ProfileSlot(states', vals', s', i)
  {
    forall i: nat ensures ProfileSlot(states', vals', s', i) { assert ProfileSlot(states, vals, s, i); }
  }

  lemma NonterminalForm(t: nat)
    requires 0 < t < YYNSTATES && YyStos(t) >= YYNTOKENS
    ensures Form(t) == [] && Anchor(t) == t
  {
    FormFacts(t);
    TreeFacts(t);
  }

  /** What a reduction leaves on the stacks has the right shape again. */
  lemma PopShape(states: seq<int>, vals: seq<Value>, tokens: seq<Token>, pos: nat, s: Settings, s': Settings,
                 len: nat, next: int, v: Value)
    requires Shape(states, vals, tokens, pos, s)
    requires len < |states| && 0 < next < YYNSTATES && YyStos(next) >= YYNTOKENS
    requires Parent(next) == states[|states| - 1 - len]
    requires |s'.profiles| == |s.profiles| ||
             forall i :: 0 <= i < |states| - len ==> states[i] != 43 && states[i] != 52
    requires next in {43, 52} ==> s'.profiles != [] && v == Prof(|s'.profiles| - 1)
    ensures Shape(states[..|states| - len] + [next], vals[..|vals| - len] + [v], tokens, pos, s')
  {
    var states', vals' := states[..|states| - len], vals[..|vals| - len];
    LinkedPop(states, len);
    LinkedPush(states', next);
    if |s'.profiles| == |s.profiles| { SlotsPop(states, vals, s, states', vals', s'); }
    else { forall i: nat ensures ProfileSlot(states', vals', s', i) {} }
    SlotsPush(states', vals', s', next, v);
    NonterminalForm(next);
    ShapeFrom(states' + [next], vals' + [v], tokens, pos, s', []);
  }

  /** A profile opens only while none is open: nothing beneath it on the stack refers to another profile. */
  lemma NothingOpenBelow(states: seq<int>)
    requires Linked(states) && states[|states| - 1] == 31
    ensures forall i :: 0 <= i < |states| ==> states[i] != 43 && states[i] != 52
  {
    Unfold(states, |states|);
  }

  lemma EmptyParamIsNoEvent(s: Settings, env: Env)
    ensures ApplyEvent(SetParam(NoParam), s, env) == Done(s)
  {
    if s.profiles != [] {
      var p := |s.profiles| - 1;
      assert s.profiles[p := s.profiles[p]] == s.profiles;
    }
  }

  /** The event a reduction completes is what its action does, on the profile opened last. */
  lemma ActionIsEvent(rule: nat, vals: seq<Value>, s: Settings, env: Env)
    requires Readable(rule, vals, s)
    requires 28 <= rule <= 35 ==> Below(vals, YyR2(rule)).index == |s.profiles| - 1
    ensures ActionOf(rule, vals, s, env) ==
      match EventOf(rule, vals, s) case None => Done(s) case Some(e) => ApplyEvent(e, s, env)
    ensures var s' := ActionOf(rule, vals, s, env).settings; rule != 21 ==> |s'.profiles| == |s.profiles|
  {
    if rule == 27 { EmptyParamIsNoEvent(s, env); }
  }

  // ---------- One step of the parser ----------

  /** The stacks have the right shape, and what remains to be read leads to the outcome `goal`. */
  ghost predicate OnTrack(states: seq<int>, vals: seq<Value>, tokens: seq<Token>, pos: nat, s: Settings, env: Env,
      goal: Outcome)
  {
    Shape(states, vals, tokens, pos, s) &&
    Execute(Remaining(states[|states| - 1], tokens, pos), s, env) == goal &&
    (pos <= |tokens| || (states[|states| - 1] == YYFINAL && pos == |tokens| + 1))
  }

  lemma StepStart(tokens: seq<Token>, v: Value, s: Settings, env: Env)
    ensures OnTrack([0], [v], tokens, 0, s, env, Reference(tokens, s, env))
  {
    assert Link([0], 0);
    ShapeFrom([0], [v], tokens, 0, s, []);
  }

  lemma TrackFacts(states: seq<int>, vals: seq<Value>, tokens: seq<Token>, pos: nat, s: Settings, env: Env,
      goal: Outcome)
    requires OnTrack(states, vals, tokens, pos, s, env, goal)
    ensures Linked(states) && |states| <= 13 && 0 <= states[|states| - 1] < YYNSTATES
    ensures pos <= |tokens| + 1
  {
    StackBounds(states);
  }

  lemma StepFinal(states: seq<int>, vals: seq<Value>, tokens: seq<Token>, pos: nat, s: Settings, env: Env,
      goal: Outcome)
    requires OnTrack(states, vals, tokens, pos, s, env, goal) && states[|states| - 1] == YYFINAL
    ensures goal == Outcome(0, s)
  {
    assert Kind(tokens, pos - 1 + 0) == Form(YYFINAL)[0];
  }

  lemma StackBounds(states: seq<int>)
    requires Linked(states)
    ensures |states| <= 13 && 0 <= states[|states| - 1] < YYNSTATES
  {
    LinkedLevel(states, |states| - 1);
    TreeFacts(states[|states| - 1]);
  }

  /** Without lookahead, the default decision is the decision on any lookahead. */
  lemma DecisionFacts(q: nat, kind: nat)
    requires q < YYNSTATES && kind < YYNTOKENS
    ensures YyPact(q) == YYPACT_NINF ==> Decide(q, kind) == Default(q)
    ensures Decide(q, kind).Shift? ==> Edge(q, kind, Decide(q, kind).target)
    ensures !Decide(q, kind).Shift? ==> Decide(q, kind) == Default(q) && Child(q, kind) == 0
  {
    Decides(q, kind);
    if Child(q, kind) != 0 { ChildIsEdge(q, kind); }
  }

  lemma StepShift(states: seq<int>, vals: seq<Value>, tokens: seq<Token>, pos: nat, s: Settings, env: Env,
      goal: Outcome, t: int)
    requires OnTrack(states, vals, tokens, pos, s, env, goal) && states[|states| - 1] != YYFINAL
    requires Edge(states[|states| - 1], Kind(tokens, pos), t)
    ensures OnTrack(states + [t], vals + [ValueAt(tokens, pos)], tokens, pos + 1, s, env, goal)
  {
    ShiftShape(states, vals, tokens, pos, s, t);
    ShiftRemaining(states[|states| - 1], t, tokens, pos);
    if Kind(tokens, pos) == END { EndShiftsToFinal(t); }
  }

  lemma EndShiftsToFinal(t: nat)
    requires 0 < t < YYNSTATES && YyStos(t) == END
    ensures t == YYFINAL
  {}

  lemma StepError(states: seq<int>, vals: seq<Value>, tokens: seq<Token>, pos: nat, s: Settings, env: Env,
      goal: Outcome)
    requires OnTrack(states, vals, tokens, pos, s, env, goal)
    requires var q := states[|states| - 1]; q != YYFINAL && YyDefAct(q) == 0 && Child(q, Kind(tokens, pos)) == 0
    ensures goal == Outcome(1, s)
  {
    NoMoveIsStuck(states[|states| - 1], tokens, pos);
  }

  /** What holds before a reduction runs its action. */
  lemma StepReduce(states: seq<int>, vals: seq<Value>, tokens: seq<Token>, pos: nat, s: Settings, env: Env,
      goal: Outcome)
    requires OnTrack(states, vals, tokens, pos, s, env, goal)
    requires var q := states[|states| - 1]; q != YYFINAL && YyDefAct(q) != 0 && Child(q, Kind(tokens, pos)) == 0
    ensures var q := states[|states| - 1];
      var rule, len := YyDefAct(q), YyR2(YyDefAct(q));
      Readable(rule, vals, s) && len < |states| && 0 <= states[|states| - 1 - len] < YYNSTATES &&
      0 < NextOf(q) < YYNSTATES && NextOf(q) == Goto(states[|states| - 1 - len], YyR1(rule)) &&
      Rank(NextOf(q)) < Rank(q) &&
      goal == match ActionOf(rule, vals, s, env)
              case Aborted(s') => Outcome(1, s')
              case Done(s') => Execute(ReadAt(NextOf(q), tokens, pos), s', env)
  {
    var q := states[|states| - 1];
    var rule := YyDefAct(q);
    ReduceShape(q, states);
    GotoDefault(states[|states| - 1 - YyR2(rule)], YyR1(rule));
    Reduces(q, states, vals, tokens, pos, s);
    ActionIsEvent(rule, vals, s, env);
  }

  /** After its action, a reduction enters a mid-rule state only with the profile opened last as its value. */
  lemma SlotFilled(q: nat, vals: seq<Value>, tokens: seq<Token>, pos: nat, s: Settings, env: Env, s': Settings,
      v: Value)
    requires q < YYNSTATES && q != YYFINAL && |Form(q)| <= pos && YyDefAct(q) != 0
    requires ReducesReading(q, vals, tokens, pos, s)
    requires ActionOf(YyDefAct(q), vals, s, env) == Done(s') && ResultOf(YyDefAct(q), vals, s, v)
    ensures NextOf(q) in {43, 52} ==> s'.profiles != [] && v == Prof(|s'.profiles| - 1)
    ensures YyDefAct(q) != 21 ==> |s'.profiles| == |s.profiles|
  {
    SlotRules(q);
    ActionIsEvent(YyDefAct(q), vals, s, env);
  }

  /** What holds after a reduction whose action went through. */
  lemma StepReduced(states: seq<int>, vals: seq<Value>, tokens: seq<Token>, pos: nat, s: Settings, env: Env,
      goal: Outcome, s': Settings, v: Value, rule: nat, len: nat, next: int)
    requires OnTrack(states, vals, tokens, pos, s, env, goal) && len < |states| && pos <= |tokens|
    requires 0 < next < YYNSTATES && YyStos(next) >= YYNTOKENS && Parent(next) == states[|states| - 1 - len]
    requires goal == Execute(ReadAt(next, tokens, pos), s', env)
    requires next in {43, 52} ==> s'.profiles != [] && v == Prof(|s'.profiles| - 1)
    requires rule != 21 ==> |s'.profiles| == |s.profiles|
    requires rule == 21 ==> states[|states| - 1] == 31
    ensures OnTrack(states[..|states| - len] + [next], vals[..|vals| - len] + [v], tokens, pos, s', env, goal)
  {
    if rule == 21 { NothingOpenBelow(states); }
    PopShape(states, vals, tokens, pos, s, s', len, next, v);
    NonterminalForm(next);
  }

  lemma AfterAction(states: seq<int>, vals: seq<Value>, tokens: seq<Token>, pos: nat, s: Settings, env: Env,
      goal: Outcome, s': Settings, v: Value)
    requires OnTrack(states, vals, tokens, pos, s, env, goal)
    requires var q := states[|states| - 1]; q != YYFINAL && YyDefAct(q) != 0 && Child(q, Kind(tokens, pos)) == 0
    requires var rule := YyDefAct(states[|states| - 1]);
      Readable(rule, vals, s) && ActionOf(rule, vals, s, env) == Done(s') && ResultOf(rule, vals, s, v)
    ensures var q := states[|states| - 1];
      var len := YyR2(YyDefAct(q));
      len < |states| &&
      OnTrack(states[..|states| - len] + [NextOf(q)], vals[..|vals| - len] + [v], tokens, pos, s', env, goal)
  {
    var q := states[|states| - 1];
    StepReduce(states, vals, tokens, pos, s, env, goal);
    Reduces(q, states, vals, tokens, pos, s);
    SlotFilled(q, vals, tokens, pos, s, env, s', v);
    SlotRules(q);
    ReduceShape(q, states);
    StepReduced(states, vals, tokens, pos, s, env, goal, s', v, YyDefAct(q), YyR2(YyDefAct(q)), NextOf(q));
  }

  lemma SlotRules(q: nat)
    requires q < YYNSTATES && q != YYFINAL && YyDefAct(q) != 0
    ensures NextOf(q) == 43 ==> YyDefAct(q) == 21
    ensures NextOf(q) == 52 ==> YyDefAct(q) == 25
    ensures YyDefAct(q) == 21 ==> q == 31
    ensures NextOf(q) != YYFINAL
  {}

  // ---------- The semantic actions, as the parser runs them ----------

  /** nfd_options_t: the fields the configuration file sets. */
  class Options {
    const debugFromArg: bool
    const pidFromArg: bool
    var debug: int
    var pidFile: string
    var windowSize: int
    var shm: string
    var filter: Option<string>
    var dbConnection: string
    var exportInterval: int
    var exportMinPps: int
    var execStart: string
    var execStop: string
    var stopDelay: int
    var dbProfiles: bool
    var profiles: seq<Profile>

    ghost function View(): Settings
      reads this
    {
      Settings(debugFromArg, pidFromArg, debug, pidFile, windowSize, shm, filter, dbConnection,
               exportInterval, exportMinPps, execStart, execStop, stopDelay, dbProfiles, profiles)
    }

    constructor (s: Settings)
      ensures View() == s
    {
      debugFromArg, pidFromArg := s.debugFromArg, s.pidFromArg;
      debug, pidFile, windowSize := s.debug, s.pidFile, s.windowSize;
      shm, filter, dbConnection, exportInterval := s.shm, s.filter, s.dbConnection, s.exportInterval;
      exportMinPps, execStart, execStop, stopDelay := s.exportMinPps, s.execStart, s.execStop, s.stopDelay;
      dbProfiles, profiles := s.dbProfiles, s.profiles;
    }

    /** A copy of the fields, as the outside calls get to see them. */
    method Snapshot() returns (s: Settings)
      ensures s == View()
    {
      s := Settings(debugFromArg, pidFromArg, debug, pidFile, windowSize, shm, filter, dbConnection,
                    exportInterval, exportMinPps, execStart, execStop, stopDelay, dbProfiles, profiles);
    }

    /** nfd_cfg_set_filter */
    method SetInputFilter(expr: string, env: Env) returns (ok: bool)
      modifies this
      ensures (if ok then Done(View()) else Aborted(View())) == ApplyInputFilter(expr, old(View()), env)
    {
      if expr == "" { return false; }
      var s := Snapshot();
      filter := None;
      if !env.compilesFilter(s, expr) { return false; }
      filter := Some(expr);
      ok := true;
    }

    method SetLimit(p: nat, unit: LimitUnit, limit: nat)
      requires p < |profiles|
      modifies this`profiles
      ensures profiles == old(profiles)[p := WithLimit(old(profiles)[p], unit, limit)]
    {
      profiles := profiles[p := WithLimit(profiles[p], unit, limit)];
    }

    /** The actions of rules 7 to 17, on the value on top of the stack. */
    method ActOnOption(rule: nat, top: Value, env: Env) returns (ok: bool)
      requires 7 <= rule <= 17 && (if rule in {7, 9, 13, 14, 17} then top.Num? else top.Str?)
      modifies this
      ensures (if ok then Done(View()) else Aborted(View())) == ApplyOption(OptionOf(rule, top), old(View()), env)
      ensures ok ==> View() == AfterOptions([OptionOf(rule, top)], old(View()))
    {
      hide AfterOptions;
      OneOption(OptionOf(rule, top), View(), env);
      ok := true;
      match rule
      case 7 => if !debugFromArg { debug := top.n; }
      case 8 => if !pidFromArg { pidFile := top.s; }
      case 9 => windowSize := top.n;
      case 10 => shm := top.s;
      case 11 => ok := SetInputFilter(top.s, env);
      case 12 => dbConnection := top.s;
      case 13 => exportInterval := top.n;
      case 14 => exportMinPps := top.n;
      case 15 => execStart := top.s;
      case 16 => execStart := top.s;
      case _ => stopDelay := top.n;
    }

    /** The actions of rules 28 to 35, on the profile `$0` refers to. */
    method ActOnProfile(rule: nat, p: nat, arg: Value, scale: Value, env: Env) returns (ok: bool)
      requires ParamArgs(rule, arg, scale) && p < |profiles|
      modifies this`profiles
      ensures (if ok then Done(View()) else Aborted(View())) ==
              ApplyParam(ParamOf(rule, arg, scale), p, old(View()), env)
    {
      ok := true;
      var s := Snapshot();
      match rule
      case 28 =>
        ok := env.acceptsFilter(s, arg.s);
        if ok { profiles := profiles[p := profiles[p].(filter := Some(arg.s))]; }
      case 29 =>
        ok := env.acceptsDynamic(s, arg.s);
        if ok { profiles := profiles[p := profiles[p].(dynamicFields := Some(arg.s))]; }
      case 30 => SetLimit(p, BitsPerSecond, arg.n);
      case 31 => SetLimit(p, PacketsPerSecond, arg.n);
      case 32 => SetLimit(p, FlowsPerSecond, arg.n);
      case 33 => SetLimit(p, BitsPerSecond, arg.n * scale.n / 8);
      case 34 => SetLimit(p, PacketsPerSecond, arg.n * scale.n);
      case _ => SetLimit(p, FlowsPerSecond, arg.n * scale.n);
    }

    /** The action switch: runs the action of `rule` on the value stack `yyvs[..yyvsp + 1]`. */
    method Act(rule: nat, yyvs: array<Value>, yyvsp: nat, env: Env) returns (ok: bool, yyval: Value)
      requires yyvsp + 1 < yyvs.Length && Readable(rule, yyvs[..yyvsp + 1], View())
      modifies this
      ensures (if ok then Done(View()) else Aborted(View())) == ActionOf(rule, yyvs[..yyvsp + 1], old(View()), env)
      ensures ok ==> ResultOf(rule, yyvs[..yyvsp + 1], old(View()), yyval)
    {
      ok := true;
      var len := YyR2(rule);
      yyval := yyvs[yyvsp + 1 - len];
      if 7 <= rule <= 17 {
        ok := ActOnOption(rule, yyvs[yyvsp], env);
      } else if rule == 21 {
        var s := Snapshot();
        ok := env.allocatesProfile(s, yyvs[yyvsp - 1].s);
        if ok {
          yyval := Prof(|profiles|);
          profiles := profiles + [FreshProfile(yyvs[yyvsp - 1].s)];
        }
      } else if rule == 23 {
        dbProfiles := true;
      } else if rule == 25 {
        yyval := yyvs[yyvsp - 1];
      } else if 28 <= rule <= 35 {
        ok := ActOnProfile(rule, yyvs[yyvsp - len].index, yyvs[yyvsp - len + 2], yyvs[yyvsp - 1], env);
      }
    }
  }

  /** The two parallel stacks of yyparse, of fixed size. */
  class Stacks {
    const yyss: array<int>
    const yyvs: array<Value>
    var yyssp: nat
    var yyvsp: nat

    ghost predicate Valid()
      reads this
    {
      yyss.Length == yyvs.Length == YYINITDEPTH && yyssp == yyvsp < YYINITDEPTH
    }

    ghost function States(): (states: seq<int>)
      requires Valid()
      reads this, yyss
      ensures |states| == yyssp + 1
    {
      yyss[..yyssp + 1]
    }

    ghost function Vals(): (vals: seq<Value>)
      requires Valid()
      reads this, yyvs
      ensures |vals| == yyvsp + 1
    {
      yyvs[..yyvsp + 1]
    }

    constructor ()
      ensures Valid() && fresh(yyss) && fresh(yyvs) && States() == [0]
    {
      yyss, yyvs := new int[YYINITDEPTH](_ => 0), new Value[YYINITDEPTH];
      yyssp, yyvsp := 0, 0;
    }

    method Push(state: int, value: Value)
      requires Valid() && yyssp + 1 < YYINITDEPTH
      modifies this, yyss, yyvs
      ensures Valid() && States() == old(States()) + [state] && Vals() == old(Vals()) + [value]
    {
      yyvsp := yyvsp + 1;
      yyvs[yyvsp] := value;
      yyssp := yyssp + 1;
      yyss[yyssp] := state;
    }

    method Pop(len: nat)
      requires Valid() && len <= yyssp
      modifies this
      ensures Valid() && States() == old(States())[..old(yyssp) + 1 - len] &&
          Vals() == old(Vals())[..old(yyvsp) + 1 - len]
    {
      yyvsp, yyssp := yyvsp - len, yyssp - len;
    }

    /** Pops the right-hand side of a rule and enters the state that its left-hand side leads to. */
    method Replace(len: nat, symbol: nat, value: Value) returns (yystate: int)
      requires Valid() && len <= yyssp && YYNTOKENS <= symbol < YYNTOKENS + 11
      requires 0 <= States()[yyssp - len] < YYNSTATES && yyssp - len + 1 < YYINITDEPTH
      modifies this, yyss, yyvs
      ensures Valid() && yystate == Goto(old(States())[old(yyssp) - len], symbol)
      ensures States() == old(States())[..old(yyssp) + 1 - len] + [yystate]
      ensures Vals() == old(Vals())[..old(yyvsp) + 1 - len] + [value]
    {
      hide Goto;
      Pop(len);
      yystate := Goto(yyss[yyssp], symbol);
      Push(yystate, value);
    }

    /** yyerrlab1: pops states looking for one that shifts the error token. No state does, so every one is popped. */
    method RecoverFromError()
      requires Valid() && Linked(States())
      modifies this
      ensures Valid() && yyssp == 0
    {
      ghost var states := States();
      forall i | 0 <= i <= yyssp ensures 0 <= yyss[i] < YYNSTATES { assert yyss[i] == states[i] && Link(states, i); }
      while true
        invariant Valid()
        invariant forall i :: 0 <= i <= yyssp ==> 0 <= yyss[i] < YYNSTATES
        decreases yyssp
      {
        var yyn := YyPact(yyss[yyssp]);
        NoErrorTransition(yyss[yyssp]);
        if yyn != YYPACT_NINF {
          yyn := yyn + ERROR;
          if 0 <= yyn <= YYLAST && YyCheck(yyn) == ERROR {
            assert false;   // here the parser would resume
          }
        }
        if yyssp == 0 { return; }
        Pop(1);
      }
    }
  }

  /** yyreduce: runs the action of the default rule, pops its right-hand side, and enters the next state. */
  method ReduceBy(stacks: Stacks, rule: nat, opt: Options, env: Env, tokens: seq<Token>, pos: nat, ghost goal: Outcome)
    returns (ok: bool, yystate: int)
    requires stacks.Valid() && {stacks, stacks.yyss, stacks.yyvs} !! {opt}
    requires OnTrack(stacks.States(), stacks.Vals(), tokens, pos, opt.View(), env, goal)
    requires var q := stacks.States()[stacks.yyssp];
      q != YYFINAL && rule == YyDefAct(q) != 0 && Child(q, Kind(tokens, pos)) == 0
    modifies opt, stacks, stacks.yyss, stacks.yyvs
    ensures stacks.Valid()
    ensures !ok ==> goal == Outcome(1, opt.View())
    ensures ok ==> OnTrack(stacks.States(), stacks.Vals(), tokens, pos, opt.View(), env, goal)
    ensures ok ==> yystate == stacks.States()[stacks.yyssp]
    ensures ok ==> 0 <= yystate < YYNSTATES && Rank(yystate) < Rank(old(stacks.States()[stacks.yyssp]))
  {
    hide OnTrack, Readable, ActionOf, ResultOf, Execute, Linked, Goto, NextOf, Rank, YyR2, YyDefAct, Child;
    ghost var states, vals, s := stacks.States(), stacks.Vals(), opt.View();
    TrackFacts(states, vals, tokens, pos, s, env, goal);
    StepReduce(states, vals, tokens, pos, s, env, goal);
    yystate := 0;
    var yyval;
    ok, yyval := opt.Act(rule, stacks.yyvs, stacks.yyvsp, env);
    if ok {
      AfterAction(states, vals, tokens, pos, s, env, goal, opt.View(), yyval);
      yystate := stacks.Replace(YyR2(rule), YyR1(rule), yyval);
    }
  }

  /** yybackup: decides on the state on top, reading a token only when the state depends on it. */
  method NextDecision(yystate: nat, tokens: seq<Token>, pos: nat, lookahead: bool, yychar: int)
    returns (decision: Decision, lookahead': bool, yychar': int)
    requires yystate < YYNSTATES && (lookahead ==> yychar == CodeAt(tokens, pos))
    ensures lookahead' ==> yychar' == CodeAt(tokens, pos)
    ensures decision.Shift? ==> lookahead' && Edge(yystate, Kind(tokens, pos), decision.target)
    ensures decision.Reduce? ==> decision.rule == YyDefAct(yystate) != 0 && Child(yystate, Kind(tokens, pos)) == 0
    ensures decision.SyntaxError? ==> YyDefAct(yystate) == 0 && Child(yystate, Kind(tokens, pos)) == 0
  {
    lookahead', yychar' := lookahead, yychar;
    if YyPact(yystate) == YYPACT_NINF {
      decision := Default(yystate);
    } else {
      if !lookahead' {
        lookahead', yychar' := true, CodeAt(tokens, pos);
      }
      CodeTranslates(tokens, pos);
      decision := Decide(yystate, Translate(yychar'));
    }
    DecisionFacts(yystate, Kind(tokens, pos));
  }

  /** Shifts the lookahead. */
  method ShiftTo(stacks: Stacks, target: int, tokens: seq<Token>, pos: nat, ghost s: Settings, ghost env: Env,
      ghost goal: Outcome)
    requires stacks.Valid() && OnTrack(stacks.States(), stacks.Vals(), tokens, pos, s, env, goal)
    requires var q := stacks.States()[stacks.yyssp]; q != YYFINAL && Edge(q, Kind(tokens, pos), target)
    modifies stacks, stacks.yyss, stacks.yyvs
    ensures stacks.Valid() && OnTrack(stacks.States(), stacks.Vals(), tokens, pos + 1, s, env, goal)
    ensures stacks.States()[stacks.yyssp] == target
  {
    StepShift(stacks.States(), stacks.Vals(), tokens, pos, s, env, goal, target);
    StackBounds(stacks.States());
    stacks.Push(target, ValueAt(tokens, pos));
  }

  datatype Status = Running | Returned(result: int)

  /** One round of yyparse, from yysetstate to the next jump there or to the return. */
  method Round(stacks: Stacks, yystate: int, opt: Options, env: Env, tokens: seq<Token>, pos: nat, lookahead: bool,
               yychar: int, ghost goal: Outcome)
    returns (status: Status, yystate': int, pos': nat, lookahead': bool, yychar': int)
    requires stacks.Valid() && {stacks, stacks.yyss, stacks.yyvs} !! {opt}
    requires OnTrack(stacks.States(), stacks.Vals(), tokens, pos, opt.View(), env, goal)
    requires yystate == stacks.States()[stacks.yyssp]
    requires lookahead ==> yychar == CodeAt(tokens, pos)
    modifies opt, stacks, stacks.yyss, stacks.yyvs
    ensures stacks.Valid()
    ensures status.Returned? ==> goal == Outcome(status.result, opt.View()) && status.result in {0, 1}
    ensures status.Running? ==> OnTrack(stacks.States(), stacks.Vals(), tokens, pos', opt.View(), env, goal)
    ensures status.Running? ==> yystate' == stacks.States()[stacks.yyssp]
    ensures lookahead' ==> yychar' == CodeAt(tokens, pos')
    ensures 0 <= yystate < YYNSTATES && pos <= |tokens| + 1
    ensures status.Running? ==> 0 <= yystate' < YYNSTATES && pos' <= |tokens| + 1 &&
                                (pos' == pos + 1 || (pos' == pos && Rank(yystate') < Rank(yystate)))
  {
    hide OnTrack;
    TrackFacts(stacks.States(), stacks.Vals(), tokens, pos, opt.View(), env, goal);
    pos', yystate', lookahead', yychar' := pos, yystate, lookahead, yychar;
    if YYINITDEPTH - 1 <= stacks.yyssp {
      assert false;   // here the stacks would be relocated
    }
    if yystate == YYFINAL {
      StepFinal(stacks.States(), stacks.Vals(), tokens, pos, opt.View(), env, goal);
      status := Returned(0);
      return;
    }
    var decision;
    decision, lookahead', yychar' := NextDecision(yystate, tokens, pos, lookahead, yychar);
    status := Running;
    match decision
    case Shift(target) =>
      ShiftTo(stacks, target, tokens, pos, opt.View(), env, goal);
      yystate', lookahead', pos' := target, false, pos + 1;
      TrackFacts(stacks.States(), stacks.Vals(), tokens, pos', opt.View(), env, goal);
    case Reduce(rule) =>
      var ok;
      ok, yystate' := ReduceBy(stacks, rule, opt, env, tokens, pos, goal);
      if ok {
        TrackFacts(stacks.States(), stacks.Vals(), tokens, pos, opt.View(), env, goal);
      } else {
        status := Returned(1);
      }
    case SyntaxError =>
      StepError(stacks.States(), stacks.Vals(), tokens, pos, opt.View(), env, goal);
      stacks.RecoverFromError();
      status := Returned(1);
  }

  /**
    yyparse. On every token sequence it terminates, returns 0 or 1, and has the outcome of the reference reading;
    the stacks never reach the depth at which they would be relocated.
   */
  method YyParse(tokens: seq<Token>, opt: Options, env: Env) returns (yyresult: int)
    modifies opt
    ensures Outcome(yyresult, opt.View()) == Reference(tokens, old(opt.View()), env) && yyresult in {0, 1}
  {
    var stacks := new Stacks();
    var yystate, pos := 0, 0;                 // `pos` counts the tokens shifted so far
    var lookahead, yychar := false, 0;        // `lookahead` says yychar is not YYEMPTY
    ghost var goal := Reference(tokens, opt.View(), env);
    StepStart(tokens, stacks.Vals()[0], opt.View(), env);
    assert stacks.Vals() == [stacks.Vals()[0]];
    var status := Running;
    while status.Running?
      invariant stacks.Valid() && fresh(stacks) && fresh(stacks.yyss) && fresh(stacks.yyvs)
      invariant status.Running? ==> OnTrack(stacks.States(), stacks.Vals(), tokens, pos, opt.View(), env, goal)
      invariant status.Running? ==>
        yystate == stacks.States()[stacks.yyssp] && 0 <= yystate < YYNSTATES && pos <= |tokens| + 1
      invariant status.Returned? ==> goal == Outcome(status.result, opt.View()) && status.result in {0, 1}
      invariant lookahead && status.Running? ==> yychar == CodeAt(tokens, pos)
      decreases status.Running?, |tokens| + 1 - pos, if 0 <= yystate < YYNSTATES then Rank(yystate) else 0
    {
      status, yystate, pos, lookahead, yychar := Round(stacks, yystate, opt, env, tokens, pos, lookahead, yychar, goal);
    }
    return status.result;
  }

  /**
    nfd_cfg_parse, from the tokens of the configuration file on, if it can be opened. It succeeds exactly on the
    spelled configurations whose statements are all accepted, and then every option is that of the last statement
    about it, each new profile having the parameters between its own braces. A refused one is left half way.
   */
  method CfgParse(file: Option<seq<Token>>, opt: Options, env: Env) returns (ok: bool)
    modifies opt
    ensures file.None? ==> !ok && opt.View() == old(opt.View())
    ensures file.Some? ==> (ok <==> exists c :: Spell(c) == file.value && Meaning(c, old(opt.View()), env).Done?)
    ensures file.Some? ==> forall c :: Spell(c) == file.value ==>
        opt.View() == Meaning(c, old(opt.View()), env).settings
    ensures file.Some? ==> (ok <==> exists c :: Spell(c) == file.value && Accepted(c, old(opt.View()), env))
    ensures file.Some? ==> forall c :: Spell(c) == file.value ==>
        if ok then opt.View() == AfterConfig(c, old(opt.View())) else Refused(c, old(opt.View()), env, opt.View())
  {
    if file.None? { return false; }
    ghost var s := opt.View();
    var result := YyParse(file.value, opt, env);
    LanguageOfParser(file.value, s, env);
    FieldsOfParser(file.value, s, env);
    hide Meaning, Accepted, AfterConfig, Refused, Reference, Spell;
    ok := result == 0;
  }
}
