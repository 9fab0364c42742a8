/**
  The configuration language of config.y: its tokens, its statements, how a statement is spelled, and what it does.
 */
module ConfigSyntax {
  import opened Wrappers
  import opened ConfigTables

  // NUMBER comes from atoi on digits, FACTOR is one of two constants; both fit the parser's long int.
  type Count = n: int | 0 <= n < 0x8000_0000
  type Scale = n: int | n == 1000 || n == 1_000_000 witness 1000

  // The symbols of the tokens without a value, "error" and "undefined" included.
  type Plain = k: nat | ERROR <= k < NUMBER witness UNDEF

  datatype Token = Keyword(kind: Plain) | Number(count: Count) | Factor(scale: Scale) | Text(text: string)

  /** The code yylex returns for a token. */
  function Code(t: Token): int {
    match t
    case Keyword(kind) => kind + 255
    case Number(_) => 297
    case Factor(_) => 298
    case Text(_) => 299
  }

  /** The internal symbol of the token at position `i`; the end of input reads as $end. */
  function Kind(tokens: seq<Token>, i: nat): (kind: nat)
    ensures kind < YYNTOKENS
  {
    if i >= |tokens| then END else
    match tokens[i]
    case Keyword(kind) => kind
    case Number(_) => NUMBER
    case Factor(_) => FACTOR
    case Text(_) => STRING
  }

  // ---------- The statements ----------

  datatype OptionStmt =
    | NoOption
    | DebugLevel(level: Count)
    | PidFile(path: string)
    | WindowSize(seconds: Count)
    | InputShm(name: string)
    | InputFilter(expr: string)
    | DbConnect(connection: string)
    | ExportInterval(interval: Count)
    | ExportMinPps(pps: Count)
    | StartCommand(command: string)
    | StopCommand(command: string)
    | StopDelay(delay: Count)

  datatype LimitUnit = BitsPerSecond | PacketsPerSecond | FlowsPerSecond

  datatype Param =
    | NoParam
    | SetFilter(expr: string)
    | SetDynamic(fields: string)
    | Limit(count: Count, unit: LimitUnit)
    | ScaledLimit(count: Count, scale: Scale, unit: LimitUnit)

  datatype Rule = NoRule | ProfileRule(name: string, params: seq<Param>) | ProfilesFromDb

  datatype Config = Config(options: seq<OptionStmt>, rules: seq<Rule>)

  // ---------- Their spelling: the productions of config.y ----------

  function SpellOption(o: OptionStmt): seq<Token> {
    match o
    case NoOption => []
    case DebugLevel(n) => [Keyword(DEBUG), Keyword(LEVEL), Number(n)]
    case PidFile(s) => [Keyword(PID), Keyword(FILE), Text(s)]
    case WindowSize(n) => [Keyword(WINDOW), Keyword(SIZE), Number(n)]
    case InputShm(s) => [Keyword(INPUT), Keyword(SHM), Text(s)]
    case InputFilter(s) => [Keyword(INPUT), Keyword(FILTER), Text(s)]
    case DbConnect(s) => [Keyword(DB), Keyword(CONNECT), Text(s)]
    case ExportInterval(n) => [Keyword(DB), Keyword(EXPORT), Keyword(INTERVAL), Number(n)]
    case ExportMinPps(n) => [Keyword(DB), Keyword(EXPORT), Keyword(MIN), Keyword(PPS), Number(n)]
    case StartCommand(s) => [Keyword(ACTION), Keyword(START), Keyword(COMMAND), Text(s)]
    case StopCommand(s) => [Keyword(ACTION), Keyword(STOP), Keyword(COMMAND), Text(s)]
    case StopDelay(n) => [Keyword(ACTION), Keyword(STOP), Keyword(DELAY), Number(n)]
  }

  function UnitKind(u: LimitUnit): (kind: nat)
    ensures BITPS <= kind <= FPS
  {
    match u case BitsPerSecond => BITPS case PacketsPerSecond => PPS case FlowsPerSecond => FPS
  }

  function SpellParam(p: Param): seq<Token> {
    match p
    case NoParam => []
    case SetFilter(s) => [Keyword(FILTER), Text(s)]
    case SetDynamic(s) => [Keyword(DYNAMIC), Text(s)]
    case Limit(n, u) => [Keyword(LIMIT), Number(n), Keyword(UnitKind(u))]
    case ScaledLimit(n, k, u) => [Keyword(LIMIT), Number(n), Factor(k), Keyword(UnitKind(u))]
  }

  /** A list of statements, each ended by a semicolon. */
  function Terminated<T>(spell: T -> seq<Token>, items: seq<T>): seq<Token> {
    if items == [] then [] else spell(items[0]) + [Keyword(SEMICOLON)] + Terminated(spell, items[1..])
  }

  function SpellOptions(os: seq<OptionStmt>): seq<Token> { Terminated(SpellOption, os) }

  function SpellParams(ps: seq<Param>): seq<Token> { Terminated(SpellParam, ps) }

  function SpellRule(r: Rule): seq<Token> {
    match r
    case NoRule => []
    case ProfileRule(name, ps) => [Keyword(PROFILE), Text(name), Keyword(OBRACE)] + SpellParams(ps) + [Keyword(EBRACE)]
    case ProfilesFromDb => [Keyword(PROFILE), Keyword(DB), Keyword(SEMICOLON)]
  }

  function SpellRules(rs: seq<Rule>): seq<Token> {
    if rs == [] then [] else SpellRule(rs[0]) + SpellRules(rs[1..])
  }

  function Spell(c: Config): seq<Token> {
    [Keyword(OPTIONS), Keyword(OBRACE)] + SpellOptions(c.options) + [Keyword(EBRACE)] + SpellRules(c.rules)
  }

  // ---------- Their meaning: the semantic actions of config.y ----------

  datatype Profile = Profile(name: string, filter: Option<string>, dynamicFields: Option<string>,
                             bytes: nat, pkts: nat, flows: nat)

  datatype Settings = Settings(
    debugFromArg: bool, pidFromArg: bool,
    debug: int, pidFile: string, windowSize: int, shm: string, filter: Option<string>, dbConnection: string,
    exportInterval: int, exportMinPps: int, execStart: string, execStop: string, stopDelay: int,
    dbProfiles: bool, profiles: seq<Profile>)

  /** The calls into code outside the parser that may refuse; each may look at everything set so far. */
  datatype Env = Env(
    compilesFilter: (Settings, string) -> bool,     // lnf_filter_init_v2 for the general filter
    allocatesProfile: (Settings, string) -> bool,   // nfd_prof_new
    acceptsFilter: (Settings, string) -> bool,      // nfd_prof_set_filter
    acceptsDynamic: (Settings, string) -> bool)     // nfd_prof_set_dynamic

  /** What an action leaves behind, and whether parsing goes on. */
  datatype Applied = Done(settings: Settings) | Aborted(settings: Settings)

  /** nfd_cfg_set_filter: an empty filter is refused at once, a bad one after the old one was dropped. */
  function ApplyInputFilter(expr: string, s: Settings, env: Env): Applied {
    if expr == "" then Aborted(s)
    else if env.compilesFilter(s, expr) then Done(s.(filter := Some(expr)))
    else Aborted(s.(filter := None))
  }

  function ApplyOption(o: OptionStmt, s: Settings, env: Env): Applied {
    match o
    case NoOption => Done(s)
    case DebugLevel(n) => Done(if s.debugFromArg then s else s.(debug := n))
    case PidFile(p) => Done(if s.pidFromArg then s else s.(pidFile := p))
    case WindowSize(n) => Done(s.(windowSize := n))
    case InputShm(name) => Done(s.(shm := name))
    case InputFilter(expr) => ApplyInputFilter(expr, s, env)
    case DbConnect(c) => Done(s.(dbConnection := c))
    case ExportInterval(n) => Done(s.(exportInterval := n))
    case ExportMinPps(n) => Done(s.(exportMinPps := n))
    case StartCommand(c) => Done(s.(execStart := c))
    case StopCommand(c) => Done(s.(execStart := c))   // sic: the start command is overwritten
    case StopDelay(n) => Done(s.(stopDelay := n))
  }

  function WithLimit(p: Profile, unit: LimitUnit, limit: nat): Profile {
    match unit
    case BitsPerSecond => p.(bytes := limit)
    case PacketsPerSecond => p.(pkts := limit)
    case FlowsPerSecond => p.(flows := limit)
  }

  /** The profile a parameter of a profile turns it into, None when the parameter is refused. */
  function ParamEffect(prm: Param, p: Profile, s: Settings, env: Env): Option<Profile> {
    match prm
    case NoParam => Some(p)
    case SetFilter(expr) => if env.acceptsFilter(s, expr) then Some(p.(filter := Some(expr))) else None
    case SetDynamic(fields) => if env.acceptsDynamic(s, fields) then Some(p.(dynamicFields := Some(fields))) else None
    case Limit(n, u) => Some(WithLimit(p, u, n))      // sic: bits per second are not divided by eight here
    case ScaledLimit(n, k, u) => Some(WithLimit(p, u, if u == BitsPerSecond then n * k / 8 else n * k))
  }

  function ApplyParam(prm: Param, p: nat, s: Settings, env: Env): (a: Applied)
    requires p < |s.profiles|
    ensures |a.settings.profiles| == |s.profiles|
  {
    match ParamEffect(prm, s.profiles[p], s, env)
    case None => Aborted(s)
    case Some(profile) => Done(s.(profiles := s.profiles[p := profile]))
  }

  function FreshProfile(name: string): Profile {
    Profile(name, None, None, 0, 0, 0)
  }

  /** nfd_prof_new followed by nfd_prof_add. */
  function OpenProfile(name: string, s: Settings, env: Env): Applied {
    if env.allocatesProfile(s, name) then Done(s.(profiles := s.profiles + [FreshProfile(name)])) else Aborted(s)
  }

  function ApplyOptions(os: seq<OptionStmt>, s: Settings, env: Env): Applied {
    if os == [] then Done(s) else
    match ApplyOption(os[0], s, env)
    case Aborted(s') => Aborted(s')
    case Done(s') => ApplyOptions(os[1..], s', env)
  }

  function ApplyParams(ps: seq<Param>, p: nat, s: Settings, env: Env): (a: Applied)
    requires p < |s.profiles|
    ensures |a.settings.profiles| == |s.profiles|
  {
    if ps == [] then Done(s) else
    match ApplyParam(ps[0], p, s, env)
    case Aborted(s') => Aborted(s')
    case Done(s') => ApplyParams(ps[1..], p, s', env)
  }

  function ApplyRule(r: Rule, s: Settings, env: Env): Applied {
    match r
    case NoRule => Done(s)
    case ProfilesFromDb => Done(s.(dbProfiles := true))
    case ProfileRule(name, ps) =>
      match OpenProfile(name, s, env)
      case Aborted(s') => Aborted(s')
      case Done(s') => ApplyParams(ps, |s.profiles|, s', env)
  }

  function ApplyRules(rs: seq<Rule>, s: Settings, env: Env): Applied {
    if rs == [] then Done(s) else
    match ApplyRule(rs[0], s, env)
    case Aborted(s') => Aborted(s')
    case Done(s') => ApplyRules(rs[1..], s', env)
  }

  /** The effects of a configuration's statements, in order, up to the first one refused. */
  function Meaning(c: Config, s: Settings, env: Env): Applied {
    match ApplyOptions(c.options, s, env)
    case Aborted(s') => Aborted(s')
    case Done(s') => ApplyRules(c.rules, s', env)
  }
}
