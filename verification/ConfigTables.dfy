/**
  The packed parsing tables of the configuration parser and what they decode to.

  Each table is a function on its index range, laid out in rows of ten, so every access below is checked to be in
  bounds. `Decide` and `Goto` read the tables as the generated driver does. `Parent` describes the automaton they
  unpack to: every state but the initial one is entered from a single state, on a single symbol (`YyStos`), so
  the state on top determines the whole stack beneath it.
 */
module ConfigTables {

  // Terminals, as the internal symbol numbers that YYTRANSLATE yields.
  const END := 0
  const ERROR := 1
  const UNDEF := 2
  const OBRACE := 3
  const EBRACE := 4
  const SEMICOLON := 5
  const PROFILE := 6
  const LIMIT := 7
  const FILTER := 8
  const BITPS := 9
  const PPS := 10
  const FPS := 11
  const FILE := 12
  const START := 13
  const STOP := 14
  const OPTIONS := 15
  const DEBUG := 16
  const PID := 17
  const ACTION := 18
  const LEVEL := 21
  const COMMAND := 22
  const WINDOW := 28
  const DYNAMIC := 29
  const SIZE := 32
  const DELAY := 34
  const INPUT := 35
  const SHM := 36
  const DB := 37
  const CONNECT := 38
  const EXPORT := 39
  const INTERVAL := 40
  const MIN := 41
  const NUMBER := 42
  const FACTOR := 43
  const STRING := 44

  const YYFINAL := 5
  const YYLAST := 60
  const YYNTOKENS := 45
  const YYNSTATES := 68
  const YYPACT_NINF := -30
  const YYMAXUTOK := 299
  const YYINITDEPTH := 200

  /** Left-hand side of each rule. */
  function YyR1(i: int): (r: nat)
    requires 0 <= i < 36
  {
    if i < 10 then (
      match i case 0 => 0 case 1 => 45 case 2 => 46 case 3 => 47 case 4 => 48 case 5 => 48 case 6 => 49 case 7 => 49
      case 8 => 49 case _ => 49
    )
    else if i < 20 then (
      match i case 10 => 49 case 11 => 49 case 12 => 49 case 13 => 49 case 14 => 49 case 15 => 49 case 16 => 49
      case 17 => 49 case 18 => 50 case _ => 50
    )
    else if i < 30 then (
      match i case 20 => 51 case 21 => 52 case 22 => 51 case 23 => 51 case 24 => 53 case 25 => 54 case 26 => 53
      case 27 => 55 case 28 => 55 case _ => 55
    )
    else (
      match i case 30 => 55 case 31 => 55 case 32 => 55 case 33 => 55 case 34 => 55 case _ => 55
    )
  }

  /** Length of each rule. */
  function YyR2(i: int): (r: nat)
    requires 0 <= i < 36
  {
    if i < 10 then (
      match i case 0 => 0 case 1 => 2 case 2 => 2 case 3 => 4 case 4 => 0 case 5 => 3 case 6 => 0 case 7 => 3
      case 8 => 3 case _ => 3
    )
    else if i < 20 then (
      match i case 10 => 3 case 11 => 3 case 12 => 3 case 13 => 4 case 14 => 5 case 15 => 4 case 16 => 4 case 17 => 4
      case 18 => 0 case _ => 2
    )
    else if i < 30 then (
      match i case 20 => 0 case 21 => 0 case 22 => 6 case 23 => 3 case 24 => 0 case 25 => 0 case 26 => 4 case 27 => 0
      case 28 => 2 case _ => 2
    )
    else (
      match i case 30 => 3 case 31 => 3 case 32 => 3 case 33 => 4 case 34 => 4 case _ => 4
    )
  }

  /** Default reduction of each state, 0 for an error. */
  function YyDefAct(i: int): (r: nat)
    requires 0 <= i < 68
  {
    if i < 10 then (
      match i case 0 => 0 case 1 => 0 case 2 => 0 case 3 => 18 case 4 => 4 case 5 => 1 case 6 => 2 case 7 => 6
      case 8 => 0 case _ => 19
    )
    else if i < 20 then (
      match i case 10 => 3 case 11 => 0 case 12 => 0 case 13 => 0 case 14 => 0 case 15 => 0 case 16 => 0 case 17 => 0
      case 18 => 0 case _ => 0
    )
    else if i < 30 then (
      match i case 20 => 0 case 21 => 0 case 22 => 0 case 23 => 0 case 24 => 0 case 25 => 0 case 26 => 0 case 27 => 0
      case 28 => 0 case _ => 5
    )
    else if i < 40 then (
      match i case 30 => 23 case 31 => 21 case 32 => 7 case 33 => 8 case 34 => 0 case 35 => 0 case 36 => 0
      case 37 => 9 case 38 => 11 case _ => 10
    )
    else if i < 50 then (
      match i case 40 => 12 case 41 => 0 case 42 => 0 case 43 => 24 case 44 => 15 case 45 => 16 case 46 => 17
      case 47 => 13 case 48 => 0 case _ => 25
    )
    else if i < 60 then (
      match i case 50 => 14 case 51 => 22 case 52 => 27 case 53 => 0 case 54 => 0 case 55 => 0 case 56 => 0
      case 57 => 0 case 58 => 28 case _ => 29
    )
    else (
      match i case 60 => 26 case 61 => 30 case 62 => 31 case 63 => 32 case 64 => 0 case 65 => 33 case 66 => 34
      case _ => 35
    )
  }

  /** Default goto of each nonterminal. */
  function YyDefGoto(i: int): (r: int)
    requires 0 <= i < 11
  {
    if i < 10 then (
      match i case 0 => -1 case 1 => 2 case 2 => 3 case 3 => 7 case 4 => 17 case 5 => 6 case 6 => 9 case 7 => 43
      case 8 => 49 case _ => 52
    )
    else (
      56
    )
  }

  /** Where the row of each state starts in YyTable. */
  function YyPact(i: int): (r: int)
    requires 0 <= i < 68
  {
    if i < 10 then (
      match i case 0 => -6 case 1 => 21 case 2 => 25 case 3 => -30 case 4 => -30 case 5 => -30 case 6 => 20
      case 7 => 0 case 8 => -29 case _ => -30
    )
    else if i < 20 then (
      match i case 10 => -30 case 11 => 8 case 12 => 18 case 13 => 7 case 14 => 4 case 15 => -5 case 16 => -25
      case 17 => 27 case 18 => 28 case _ => 35
    )
    else if i < 30 then (
      match i case 20 => -3 case 21 => -4 case 22 => 19 case 23 => -15 case 24 => 2 case 25 => -1 case 26 => 3
      case 27 => 5 case 28 => -18 case _ => -30
    )
    else if i < 40 then (
      match i case 30 => -30 case 31 => -30 case 32 => -30 case 33 => -30 case 34 => 6 case 35 => 9 case 36 => 10
      case 37 => -30 case 38 => -30 case _ => -30
    )
    else if i < 50 then (
      match i case 40 => -30 case 41 => 12 case 42 => 32 case 43 => -30 case 44 => -30 case 45 => -30 case 46 => -30
      case 47 => -30 case 48 => 13 case _ => 41
    )
    else if i < 60 then (
      match i case 50 => -30 case 51 => -30 case 52 => -2 case 53 => 14 case 54 => 15 case 55 => 16 case 56 => 43
      case 57 => -9 case 58 => -30 case _ => -30
    )
    else (
      match i case 60 => -30 case 61 => -30 case 62 => -30 case 63 => -30 case 64 => 1 case 65 => -30 case 66 => -30
      case _ => -30
    )
  }

  /** Where the row of each nonterminal starts in YyTable. */
  function YyPGoto(i: int): (r: int)
    requires 0 <= i < 11
  {
    if i < 10 then (
      match i case 0 => -30 case 1 => -30 case 2 => -30 case 3 => -30 case 4 => -30 case 5 => -30 case 6 => -30
      case 7 => -30 case 8 => -30 case _ => -30
    )
    else (
      -30
    )
  }

  /** The packed actions. */
  function YyTable(i: int): (r: nat)
    requires 0 <= i < 61
  {
    if i < 10 then (
      match i case 0 => 61 case 1 => 62 case 2 => 63 case 3 => 25 case 4 => 10 case 5 => 53 case 6 => 54 case 7 => 35
      case 8 => 18 case _ => 1
    )
    else if i < 20 then (
      match i case 10 => 65 case 11 => 66 case 12 => 67 case 13 => 27 case 14 => 28 case 15 => 19 case 16 => 11
      case 17 => 12 case 18 => 13 case _ => 36
    )
    else if i < 30 then (
      match i case 20 => 22 case 21 => 23 case 22 => 41 case 23 => 42 case 24 => 4 case 25 => 5 case 26 => 8
      case 27 => 55 case 28 => 14 case _ => 20
    )
    else if i < 40 then (
      match i case 30 => 21 case 31 => 26 case 32 => 29 case 33 => 30 case 34 => 64 case 35 => 15 case 36 => 24
      case 37 => 16 case 38 => 31 case _ => 32
    )
    else if i < 50 then (
      match i case 40 => 33 case 41 => 34 case 42 => 48 case 43 => 38 case 44 => 37 case 45 => 51 case 46 => 0
      case 47 => 39 case 48 => 60 case _ => 40
    )
    else if i < 60 then (
      match i case 50 => 44 case 51 => 0 case 52 => 46 case 53 => 45 case 54 => 47 case 55 => 50 case 56 => 57
      case 57 => 0 case 58 => 0 case _ => 58
    )
    else (
      59
    )
  }

  /** The symbol (or state) each packed action belongs to. */
  function YyCheck(i: int): (r: int)
    requires 0 <= i < 61
  {
    if i < 10 then (
      match i case 0 => 9 case 1 => 10 case 2 => 11 case 3 => 8 case 4 => 4 case 5 => 7 case 6 => 8 case 7 => 22
      case 8 => 37 case _ => 15
    )
    else if i < 20 then (
      match i case 10 => 9 case 11 => 10 case 12 => 11 case 13 => 38 case 14 => 39 case 15 => 44 case 16 => 16
      case 17 => 17 case 18 => 18 case _ => 34
    )
    else if i < 30 then (
      match i case 20 => 13 case 21 => 14 case 22 => 40 case 23 => 41 case 24 => 3 case 25 => 0 case 26 => 6
      case 27 => 29 case 28 => 28 case _ => 21
    )
    else if i < 40 then (
      match i case 30 => 12 case 31 => 36 case 32 => 5 case 33 => 5 case 34 => 43 case 35 => 35 case 36 => 32
      case 37 => 37 case 38 => 3 case _ => 42
    )
    else if i < 50 then (
      match i case 40 => 44 case 41 => 22 case 42 => 10 case 43 => 44 case 44 => 42 case 45 => 4 case 46 => -1
      case 47 => 44 case 48 => 5 case _ => 44
    )
    else if i < 60 then (
      match i case 50 => 44 case 51 => -1 case 52 => 42 case 53 => 44 case 54 => 42 case 55 => 42 case 56 => 42
      case 57 => -1 case 58 => -1 case _ => 44
    )
    else (
      44
    )
  }

  /** The symbol each state is entered on. */
  function YyStos(i: int): (r: nat)
    requires 0 <= i < 68
  {
    if i < 10 then (
      match i case 0 => 0 case 1 => 15 case 2 => 46 case 3 => 47 case 4 => 3 case 5 => 0 case 6 => 50 case 7 => 48
      case 8 => 6 case _ => 51
    )
    else if i < 20 then (
      match i case 10 => 4 case 11 => 16 case 12 => 17 case 13 => 18 case 14 => 28 case 15 => 35 case 16 => 37
      case 17 => 49 case 18 => 37 case _ => 44
    )
    else if i < 30 then (
      match i case 20 => 21 case 21 => 12 case 22 => 13 case 23 => 14 case 24 => 32 case 25 => 8 case 26 => 36
      case 27 => 38 case 28 => 39 case _ => 5
    )
    else if i < 40 then (
      match i case 30 => 5 case 31 => 3 case 32 => 42 case 33 => 44 case 34 => 22 case 35 => 22 case 36 => 34
      case 37 => 42 case 38 => 44 case _ => 44
    )
    else if i < 50 then (
      match i case 40 => 44 case 41 => 40 case 42 => 41 case 43 => 52 case 44 => 44 case 45 => 44 case 46 => 42
      case 47 => 42 case 48 => 10 case _ => 53
    )
    else if i < 60 then (
      match i case 50 => 42 case 51 => 4 case 52 => 54 case 53 => 7 case 54 => 8 case 55 => 29 case 56 => 55
      case 57 => 42 case 58 => 44 case _ => 44
    )
    else (
      match i case 60 => 5 case 61 => 9 case 62 => 10 case 63 => 11 case 64 => 43 case 65 => 9 case 66 => 10
      case _ => 11
    )
  }

  datatype Decision = Shift(target: int) | Reduce(rule: nat) | SyntaxError

  /** The lookahead's symbol number: YYTRANSLATE, with its 300-entry table written by ranges. */
  function Translate(code: int): (kind: nat)
    ensures kind < YYNTOKENS
  {
    if code <= 0 then END
    else if code == 256 then ERROR
    else if 258 <= code <= YYMAXUTOK then code - 255
    else UNDEF
  }

  function Default(state: nat): Decision
    requires state < YYNSTATES
  {
    if YyDefAct(state) == 0 then SyntaxError else Reduce(YyDefAct(state))
  }

  /** What the driver does in a state when the lookahead has the given kind. */
  function Decide(state: nat, kind: nat): Decision
    requires state < YYNSTATES && kind < YYNTOKENS
  {
    var n := YyPact(state) + kind;
    if YyPact(state) == YYPACT_NINF || n < 0 || YYLAST < n || YyCheck(n) != kind then Default(state)
    else if YyTable(n) <= 0 then Reduce(-YyTable(n))
    else Shift(YyTable(n))
  }

  /** The state entered from `top` after a reduction to nonterminal `symbol`. */
  function Goto(top: nat, symbol: nat): int
    requires top < YYNSTATES && YYNTOKENS <= symbol < YYNTOKENS + 11
  {
    var n := YyPGoto(symbol - YYNTOKENS) + top;
    if 0 <= n <= YYLAST && YyCheck(n) == top then YyTable(n) else YyDefGoto(symbol - YYNTOKENS)
  }

  /** The one state each state is entered from. */
  function Parent(i: int): (r: nat)
    requires 0 <= i < 68
    ensures r < 68
    ensures i > 0 ==> r < i
  {
    if i < 10 then (
      match i case 0 => 0 case 1 => 0 case 2 => 0 case 3 => 0 case 4 => 1 case 5 => 2 case 6 => 3 case 7 => 4
      case 8 => 6 case _ => 6
    )
    else if i < 20 then (
      match i case 10 => 7 case 11 => 7 case 12 => 7 case 13 => 7 case 14 => 7 case 15 => 7 case 16 => 7 case 17 => 7
      case 18 => 8 case _ => 8
    )
    else if i < 30 then (
      match i case 20 => 11 case 21 => 12 case 22 => 13 case 23 => 13 case 24 => 14 case 25 => 15 case 26 => 15
      case 27 => 16 case 28 => 16 case _ => 17
    )
    else if i < 40 then (
      match i case 30 => 18 case 31 => 19 case 32 => 20 case 33 => 21 case 34 => 22 case 35 => 23 case 36 => 23
      case 37 => 24 case 38 => 25 case _ => 26
    )
    else if i < 50 then (
      match i case 40 => 27 case 41 => 28 case 42 => 28 case 43 => 31 case 44 => 34 case 45 => 35 case 46 => 36
      case 47 => 41 case 48 => 42 case _ => 43
    )
    else if i < 60 then (
      match i case 50 => 48 case 51 => 49 case 52 => 49 case 53 => 52 case 54 => 52 case 55 => 52 case 56 => 52
      case 57 => 53 case 58 => 54 case _ => 55
    )
    else (
      match i case 60 => 56 case 61 => 57 case 62 => 57 case 63 => 57 case 64 => 57 case 65 => 64 case 66 => 64
      case _ => 64
    )
  }

  /** The state whose row of the packed table starts at this offset. */
  function RowOwner(offset: int): nat {
    match offset
    case -29 => 8 case -25 => 16 case -18 => 28 case -15 => 23 case -9 => 57
    case -6 => 0 case -5 => 15 case -4 => 21 case -3 => 20 case -2 => 52
    case -1 => 25 case 0 => 7 case 1 => 64 case 2 => 24 case 3 => 26
    case 4 => 14 case 5 => 27 case 6 => 34 case 7 => 13 case 8 => 11
    case 9 => 35 case 10 => 36 case 12 => 41 case 13 => 48 case 14 => 53
    case 15 => 54 case 16 => 55 case 18 => 12 case 19 => 22 case 20 => 6
    case 21 => 1 case 25 => 2 case 27 => 17 case 28 => 18 case 32 => 42
    case 35 => 19 case 41 => 49 case 43 => 56
    case _ => 0
  }

  /** State `t` is entered from `q` on terminal `kind`. */
  predicate Edge(q: nat, kind: nat, t: int) {
    0 < t < YYNSTATES && Parent(t) == q && YyStos(t) == kind
  }

  lemma RowsDistinct(q: nat)
    requires q < YYNSTATES
    ensures YyPact(q) != YYPACT_NINF ==> RowOwner(YyPact(q)) == q
  {}

  /** The state an entry of the packed table leads to is entered along that entry's own row and symbol. */
  predicate EntryOfEdge(n: nat)
    requires n <= YYLAST
  {
    var t := YyTable(n);
    0 < t < YYNSTATES && YyStos(t) == YyCheck(n) && Parent(t) == RowOwner(n - YyCheck(n))
  }

  lemma LowEntries(n: nat)
    requires n < 30
    ensures YyCheck(n) >= 0 ==> EntryOfEdge(n)
  {}

  lemma HighEntries(n: nat)
    requires 30 <= n <= YYLAST
    ensures YyCheck(n) >= 0 ==> EntryOfEdge(n)
  {}

  lemma ShiftIsEdge(q: nat, kind: nat)
    requires q < YYNSTATES && kind < YYNTOKENS
    ensures Decide(q, kind) == Default(q) || (Decide(q, kind).Shift? && Edge(q, kind, Decide(q, kind).target))
  {
    var n := YyPact(q) + kind;
    RowsDistinct(q);
    if 0 <= n < 30 { LowEntries(n); } else if 30 <= n <= YYLAST { HighEntries(n); }
  }

  /** Where the packed table holds the shift into a state entered on a terminal. */
  function Slot(i: int): (r: nat)
    requires 0 <= i < 68
  {
    if i < 10 then (
      match i case 0 => 0 case 1 => 9 case 2 => 0 case 3 => 0 case 4 => 24 case 5 => 25 case 6 => 0 case 7 => 0
      case 8 => 26 case _ => 0
    )
    else if i < 20 then (
      match i case 10 => 4 case 11 => 16 case 12 => 17 case 13 => 18 case 14 => 28 case 15 => 35 case 16 => 37
      case 17 => 0 case 18 => 8 case _ => 15
    )
    else if i < 30 then (
      match i case 20 => 29 case 21 => 30 case 22 => 20 case 23 => 21 case 24 => 36 case 25 => 3 case 26 => 31
      case 27 => 13 case 28 => 14 case _ => 32
    )
    else if i < 40 then (
      match i case 30 => 33 case 31 => 38 case 32 => 39 case 33 => 40 case 34 => 41 case 35 => 7 case 36 => 19
      case 37 => 44 case 38 => 43 case _ => 47
    )
    else if i < 50 then (
      match i case 40 => 49 case 41 => 22 case 42 => 23 case 43 => 0 case 44 => 50 case 45 => 53 case 46 => 52
      case 47 => 54 case 48 => 42 case _ => 0
    )
    else if i < 60 then (
      match i case 50 => 55 case 51 => 45 case 52 => 0 case 53 => 5 case 54 => 6 case 55 => 27 case 56 => 0
      case 57 => 56 case 58 => 59 case _ => 60
    )
    else (
      match i case 60 => 48 case 61 => 0 case 62 => 1 case 63 => 2 case 64 => 34 case 65 => 10 case 66 => 11
      case _ => 12
    )
  }

  lemma SlotHolds(t: nat)
    requires 0 < t < YYNSTATES && YyStos(t) < YYNTOKENS
    ensures Slot(t) <= YYLAST && YyTable(Slot(t)) == t && YyCheck(Slot(t)) == YyStos(t)
  {}

  lemma SlotInRow(t: nat)
    requires 0 < t < YYNSTATES && YyStos(t) < YYNTOKENS
    ensures Slot(t) == YyPact(Parent(t)) + YyStos(t) && YyPact(Parent(t)) != YYPACT_NINF
  {}

  /** The packed tables shift exactly along the automaton's terminal edges, and otherwise take the default. */
  lemma Decides(q: nat, kind: nat)
    requires q < YYNSTATES && kind < YYNTOKENS
    ensures forall t :: Edge(q, kind, t) <==> Decide(q, kind) == Shift(t)
    ensures Decide(q, kind).Shift? || Decide(q, kind) == Default(q)
  {
    ShiftIsEdge(q, kind);
    forall t | Edge(q, kind, t) ensures Decide(q, kind) == Shift(t) {
      SlotHolds(t);
      SlotInRow(t);
    }
  }

  /** No entry of the packed table is ever used by a goto: the next state depends on the nonterminal alone. */
  lemma GotoDefault(top: nat, symbol: nat)
    requires top < YYNSTATES && YYNTOKENS <= symbol < YYNTOKENS + 11
    ensures Goto(top, symbol) == YyDefGoto(symbol - YYNTOKENS)
  {}

  /** No state can shift the error token, so error recovery never resumes. */
  lemma NoErrorTransition(q: nat)
    requires q < YYNSTATES
    ensures YyPact(q) == YYPACT_NINF || !(0 <= YyPact(q) + ERROR <= YYLAST) || YyCheck(YyPact(q) + ERROR) != ERROR
  {}

  /** The height of the stack whenever a state is on top. */
  function Level(i: int): (r: nat)
    requires 0 <= i < 68
  {
    if i < 10 then (
      match i case 0 => 1 case 1 => 2 case 2 => 2 case 3 => 2 case 4 => 3 case 5 => 3 case 6 => 3 case 7 => 4
      case 8 => 4 case _ => 4
    )
    else if i < 20 then (
      match i case 10 => 5 case 11 => 5 case 12 => 5 case 13 => 5 case 14 => 5 case 15 => 5 case 16 => 5 case 17 => 5
      case 18 => 5 case _ => 5
    )
    else if i < 30 then (
      match i case 20 => 6 case 21 => 6 case 22 => 6 case 23 => 6 case 24 => 6 case 25 => 6 case 26 => 6 case 27 => 6
      case 28 => 6 case _ => 6
    )
    else if i < 40 then (
      match i case 30 => 6 case 31 => 6 case 32 => 7 case 33 => 7 case 34 => 7 case 35 => 7 case 36 => 7 case 37 => 7
      case 38 => 7 case _ => 7
    )
    else if i < 50 then (
      match i case 40 => 7 case 41 => 7 case 42 => 7 case 43 => 7 case 44 => 8 case 45 => 8 case 46 => 8 case 47 => 8
      case 48 => 8 case _ => 8
    )
    else if i < 60 then (
      match i case 50 => 9 case 51 => 9 case 52 => 9 case 53 => 10 case 54 => 10 case 55 => 10 case 56 => 10
      case 57 => 11 case 58 => 11 case _ => 11
    )
    else (
      match i case 60 => 11 case 61 => 12 case 62 => 12 case 63 => 12 case 64 => 12 case 65 => 13 case 66 => 13
      case _ => 13
    )
  }

  /** The terminals on the stack above the topmost nonterminal. */
  function Form(i: int): (r: seq<nat>)
    requires 0 <= i < 68
  {
    if i < 10 then (
      match i
      case 0 => []
      case 1 => [OPTIONS]
      case 2 => []
      case 3 => []
      case 4 => [OPTIONS, OBRACE]
      case 5 => [END]
      case 6 => []
      case 7 => []
      case 8 => [PROFILE]
      case _ => []
    )
    else if i < 20 then (
      match i
      case 10 => [EBRACE]
      case 11 => [DEBUG]
      case 12 => [PID]
      case 13 => [ACTION]
      case 14 => [WINDOW]
      case 15 => [INPUT]
      case 16 => [DB]
      case 17 => []
      case 18 => [PROFILE, DB]
      case _ => [PROFILE, STRING]
    )
    else if i < 30 then (
      match i
      case 20 => [DEBUG, LEVEL]
      case 21 => [PID, FILE]
      case 22 => [ACTION, START]
      case 23 => [ACTION, STOP]
      case 24 => [WINDOW, SIZE]
      case 25 => [INPUT, FILTER]
      case 26 => [INPUT, SHM]
      case 27 => [DB, CONNECT]
      case 28 => [DB, EXPORT]
      case _ => [SEMICOLON]
    )
    else if i < 40 then (
      match i
      case 30 => [PROFILE, DB, SEMICOLON]
      case 31 => [PROFILE, STRING, OBRACE]
      case 32 => [DEBUG, LEVEL, NUMBER]
      case 33 => [PID, FILE, STRING]
      case 34 => [ACTION, START, COMMAND]
      case 35 => [ACTION, STOP, COMMAND]
      case 36 => [ACTION, STOP, DELAY]
      case 37 => [WINDOW, SIZE, NUMBER]
      case 38 => [INPUT, FILTER, STRING]
      case _ => [INPUT, SHM, STRING]
    )
    else if i < 50 then (
      match i
      case 40 => [DB, CONNECT, STRING]
      case 41 => [DB, EXPORT, INTERVAL]
      case 42 => [DB, EXPORT, MIN]
      case 43 => []
      case 44 => [ACTION, START, COMMAND, STRING]
      case 45 => [ACTION, STOP, COMMAND, STRING]
      case 46 => [ACTION, STOP, DELAY, NUMBER]
      case 47 => [DB, EXPORT, INTERVAL, NUMBER]
      case 48 => [DB, EXPORT, MIN, PPS]
      case _ => []
    )
    else if i < 60 then (
      match i
      case 50 => [DB, EXPORT, MIN, PPS, NUMBER]
      case 51 => [EBRACE]
      case 52 => []
      case 53 => [LIMIT]
      case 54 => [FILTER]
      case 55 => [DYNAMIC]
      case 56 => []
      case 57 => [LIMIT, NUMBER]
      case 58 => [FILTER, STRING]
      case _ => [DYNAMIC, STRING]
    )
    else (
      match i
      case 60 => [SEMICOLON]
      case 61 => [LIMIT, NUMBER, BITPS]
      case 62 => [LIMIT, NUMBER, PPS]
      case 63 => [LIMIT, NUMBER, FPS]
      case 64 => [LIMIT, NUMBER, FACTOR]
      case 65 => [LIMIT, NUMBER, FACTOR, BITPS]
      case 66 => [LIMIT, NUMBER, FACTOR, PPS]
      case _ => [LIMIT, NUMBER, FACTOR, FPS]
    )
  }

  /** The state a terminal leads to, 0 for none: the automaton written out. */
  function Child(q: nat, kind: nat): (t: nat)
    requires q < YYNSTATES
  {
    if q < 10 then (
      match q
      case 0 => if kind == OPTIONS then 1 else 0
      case 1 => if kind == OBRACE then 4 else 0
      case 2 => if kind == END then 5 else 0
      case 6 => if kind == PROFILE then 8 else 0
      case 7 => if kind == EBRACE then 10 else if kind == DEBUG then 11 else if kind == PID then 12
          else if kind == ACTION then 13 else if kind == WINDOW then 14 else if kind == INPUT then 15
          else if kind == DB then 16 else 0
      case 8 => if kind == DB then 18 else if kind == STRING then 19 else 0
      case _ => 0
    )
    else if q < 20 then (
      match q
      case 11 => if kind == LEVEL then 20 else 0
      case 12 => if kind == FILE then 21 else 0
      case 13 => if kind == START then 22 else if kind == STOP then 23 else 0
      case 14 => if kind == SIZE then 24 else 0
      case 15 => if kind == FILTER then 25 else if kind == SHM then 26 else 0
      case 16 => if kind == CONNECT then 27 else if kind == EXPORT then 28 else 0
      case 17 => if kind == SEMICOLON then 29 else 0
      case 18 => if kind == SEMICOLON then 30 else 0
      case 19 => if kind == OBRACE then 31 else 0
      case _ => 0
    )
    else if q < 30 then (
      match q
      case 20 => if kind == NUMBER then 32 else 0
      case 21 => if kind == STRING then 33 else 0
      case 22 => if kind == COMMAND then 34 else 0
      case 23 => if kind == COMMAND then 35 else if kind == DELAY then 36 else 0
      case 24 => if kind == NUMBER then 37 else 0
      case 25 => if kind == STRING then 38 else 0
      case 26 => if kind == STRING then 39 else 0
      case 27 => if kind == STRING then 40 else 0
      case 28 => if kind == INTERVAL then 41 else if kind == MIN then 42 else 0
      case _ => 0
    )
    else if q < 40 then (
      match q
      case 34 => if kind == STRING then 44 else 0
      case 35 => if kind == STRING then 45 else 0
      case 36 => if kind == NUMBER then 46 else 0
      case _ => 0
    )
    else if q < 50 then (
      match q
      case 41 => if kind == NUMBER then 47 else 0
      case 42 => if kind == PPS then 48 else 0
      case 48 => if kind == NUMBER then 50 else 0
      case 49 => if kind == EBRACE then 51 else 0
      case _ => 0
    )
    else if q < 60 then (
      match q
      case 52 => if kind == LIMIT then 53 else if kind == FILTER then 54 else if kind == DYNAMIC then 55 else 0
      case 53 => if kind == NUMBER then 57 else 0
      case 54 => if kind == STRING then 58 else 0
      case 55 => if kind == STRING then 59 else 0
      case 56 => if kind == SEMICOLON then 60 else 0
      case 57 => if kind == BITPS then 61 else if kind == PPS then 62 else if kind == FPS then 63
          else if kind == FACTOR then 64 else 0
      case _ => 0
    )
    else if q == 64 then (
      if kind == BITPS then 65 else if kind == PPS then 66 else if kind == FPS then 67 else 0
    )
    else 0
  }

  lemma ChildIsEdge(q: nat, kind: nat)
    requires q < YYNSTATES && Child(q, kind) != 0
    ensures Edge(q, kind, Child(q, kind))
  {}

  /** The state of the topmost nonterminal, or the initial state. */
  function Anchor(i: int): (r: nat)
    requires 0 <= i < 68
    ensures r < 68
  {
    if i < 10 then (
      match i case 0 => 0 case 1 => 0 case 2 => 2 case 3 => 3 case 4 => 0 case 5 => 2 case 6 => 6 case 7 => 7
      case 8 => 6 case _ => 9
    )
    else if i < 20 then (
      match i case 10 => 7 case 11 => 7 case 12 => 7 case 13 => 7 case 14 => 7 case 15 => 7 case 16 => 7 case 17 => 17
      case 18 => 6 case _ => 6
    )
    else if i < 30 then (
      match i case 20 => 7 case 21 => 7 case 22 => 7 case 23 => 7 case 24 => 7 case 25 => 7 case 26 => 7 case 27 => 7
      case 28 => 7 case _ => 17
    )
    else if i < 40 then (
      match i case 30 => 6 case 31 => 6 case 32 => 7 case 33 => 7 case 34 => 7 case 35 => 7 case 36 => 7 case 37 => 7
      case 38 => 7 case _ => 7
    )
    else if i < 50 then (
      match i case 40 => 7 case 41 => 7 case 42 => 7 case 43 => 43 case 44 => 7 case 45 => 7 case 46 => 7 case 47 => 7
      case 48 => 7 case _ => 49
    )
    else if i < 60 then (
      match i case 50 => 7 case 51 => 49 case 52 => 52 case 53 => 52 case 54 => 52 case 55 => 52 case 56 => 56
      case 57 => 52 case 58 => 52 case _ => 52
    )
    else (
      match i case 60 => 56 case 61 => 52 case 62 => 52 case 63 => 52 case 64 => 52 case 65 => 52 case 66 => 52
      case _ => 52
    )
  }

  /** How many reductions are made from a state before the next token is shifted, at most. */
  function Rank(i: int): (r: nat)
    requires 0 <= i < 68
  {
    if i < 10 then (
      match i case 0 => 0 case 1 => 0 case 2 => 0 case 3 => 2 case 4 => 2 case 5 => 0 case 6 => 1 case 7 => 1
      case 8 => 0 case _ => 2
    )
    else if i < 20 then (
      match i case 10 => 3 case 11 => 0 case 12 => 0 case 13 => 0 case 14 => 0 case 15 => 0 case 16 => 0 case 17 => 0
      case 18 => 0 case _ => 0
    )
    else if i < 30 then (
      match i case 20 => 0 case 21 => 0 case 22 => 0 case 23 => 0 case 24 => 0 case 25 => 0 case 26 => 0 case 27 => 0
      case 28 => 0 case _ => 2
    )
    else if i < 40 then (
      match i case 30 => 3 case 31 => 4 case 32 => 1 case 33 => 1 case 34 => 0 case 35 => 0 case 36 => 0 case 37 => 1
      case 38 => 1 case _ => 1
    )
    else if i < 50 then (
      match i case 40 => 1 case 41 => 0 case 42 => 0 case 43 => 3 case 44 => 1 case 45 => 1 case 46 => 1 case 47 => 1
      case 48 => 0 case _ => 2
    )
    else if i < 60 then (
      match i case 50 => 1 case 51 => 3 case 52 => 1 case 53 => 0 case 54 => 0 case 55 => 0 case 56 => 0 case 57 => 0
      case 58 => 1 case _ => 1
    )
    else (
      match i case 60 => 3 case 61 => 1 case 62 => 1 case 63 => 1 case 64 => 0 case 65 => 1 case 66 => 1 case _ => 1
    )
  }

  lemma TreeFacts(q: nat)
    requires q < YYNSTATES
    ensures Level(q) == if q == 0 then 1 else Level(Parent(q)) + 1
    ensures Anchor(q) == if q == 0 || YyStos(q) >= YYNTOKENS then q else Anchor(Parent(q))
    ensures Level(q) <= 13 && Rank(q) <= 4
  {}

  lemma FormFactsLow(q: nat)
    requires q < 40
    ensures Form(q) == if q == 0 || YyStos(q) >= YYNTOKENS then [] else Form(Parent(q)) + [YyStos(q)]
  {}

  lemma FormFactsHigh(q: nat)
    requires 40 <= q < YYNSTATES
    ensures Form(q) == if YyStos(q) >= YYNTOKENS then [] else Form(Parent(q)) + [YyStos(q)]
  {}

  lemma FormFacts(q: nat)
    requires q < YYNSTATES
    ensures Form(q) == if q == 0 || YyStos(q) >= YYNTOKENS then [] else Form(Parent(q)) + [YyStos(q)]
  {
    if q < 40 { FormFactsLow(q); } else { FormFactsHigh(q); }
  }

  predicate Link(states: seq<int>, i: nat)
    requires i < |states|
  {
    0 <= states[i] < YYNSTATES &&
    if i == 0 then states[i] == 0 else states[i] > 0 && Parent(states[i]) == states[i - 1]
  }

  /** A state stack that follows the automaton from its initial state. */
  ghost predicate Linked(states: seq<int>) {
    |states| > 0 && forall i :: 0 <= i < |states| ==> Link(states, i)
  }

  lemma {:induction false} LinkedLevel(states: seq<int>, i: nat)
    requires Linked(states) && i < |states|
    ensures 0 <= states[i] < YYNSTATES && Level(states[i]) == i + 1
  {
    assert Link(states, i);
    TreeFacts(states[i]);
    if i > 0 { LinkedLevel(states, i - 1); }
  }

  lemma {:induction false} SameBelow(a: seq<int>, b: seq<int>, i: nat)
    requires Linked(a) && Linked(b) && |a| == |b| && i < |a| && a[i] == b[i]
    ensures forall j :: 0 <= j <= i ==> a[j] == b[j]
  {
    if i > 0 {
      assert Link(a, i) && Link(b, i);
      SameBelow(a, b, i - 1);
    }
  }

  /** The state on top determines the stack, which is at most 13 entries high. */
  lemma StackDetermined(a: seq<int>, b: seq<int>)
    requires Linked(a) && Linked(b) && a[|a| - 1] == b[|b| - 1]
    ensures a == b && |a| <= 13
  {
    LinkedLevel(a, |a| - 1);
    LinkedLevel(b, |b| - 1);
    TreeFacts(a[|a| - 1]);
    SameBelow(a, b, |a| - 1);
  }

  /** A reduction in state `q`, which is on top of `states`, leads along an edge of the automaton to `next`. */
  ghost predicate ReducesTo(q: nat, states: seq<int>, next: int)
    requires q < YYNSTATES
  {
    var len := YyR2(YyDefAct(q));
    len < |states| && 0 < next < YYNSTATES && Parent(next) == states[|states| - 1 - len] &&
    YyStos(next) >= YYNTOKENS && Rank(next) < Rank(q)
  }

  lemma Unfold(states: seq<int>, n: nat)
    requires Linked(states) && n == |states|
    ensures n > 0 && Link(states, n - 1)
    ensures n > 1 ==> Link(states, n - 2)
    ensures n > 2 ==> Link(states, n - 3)
    ensures n > 3 ==> Link(states, n - 4)
    ensures n > 4 ==> Link(states, n - 5)
    ensures n > 5 ==> Link(states, n - 6)
    ensures n == Level(states[n - 1])
  {
    LinkedLevel(states, n - 1);
  }

  lemma ReduceShapeA(q: nat, states: seq<int>)
    requires 0 <= q < 36 && q != YYFINAL && YyDefAct(q) != 0
    requires Linked(states) && states[|states| - 1] == q
    ensures ReducesTo(q, states, YyDefGoto(YyR1(YyDefAct(q)) - YYNTOKENS))
  {
    Unfold(states, |states|);
  }

  lemma ReduceShapeB(q: nat, states: seq<int>)
    requires 36 <= q < 52 && q != YYFINAL && YyDefAct(q) != 0
    requires Linked(states) && states[|states| - 1] == q
    ensures ReducesTo(q, states, YyDefGoto(YyR1(YyDefAct(q)) - YYNTOKENS))
  {
    Unfold(states, |states|);
  }

  lemma ReduceShapeC(q: nat, states: seq<int>)
    requires 52 <= q < 68 && q != YYFINAL && YyDefAct(q) != 0
    requires Linked(states) && states[|states| - 1] == q
    ensures ReducesTo(q, states, YyDefGoto(YyR1(YyDefAct(q)) - YYNTOKENS))
  {
    Unfold(states, |states|);
  }

  /** Every reduction pops to the parent of the state it leads to, and lowers the rank. */
  lemma ReduceShape(q: nat, states: seq<int>)
    requires q < YYNSTATES && q != YYFINAL && YyDefAct(q) != 0
    requires Linked(states) && states[|states| - 1] == q
    ensures YyR2(YyDefAct(q)) < |states| && 0 <= states[|states| - 1 - YyR2(YyDefAct(q))] < YYNSTATES
    ensures ReducesTo(q, states, Goto(states[|states| - 1 - YyR2(YyDefAct(q))], YyR1(YyDefAct(q))))
  {
    if q < 36 { ReduceShapeA(q, states); } else if q < 52 { ReduceShapeB(q, states); } else { ReduceShapeC(q, states); }
    var below := |states| - 1 - YyR2(YyDefAct(q));
    assert Link(states, below);
    GotoDefault(states[below], YyR1(YyDefAct(q)));
  }
}
