/**
  The two threads on the flow queue, step by step: the reader stores flows in file 0 under the queue lock, the dumper
  rotates the files under the same lock, and copies flows out of the queue without it.

  `RunKeepsInv` is the invariant of every interleaving. `FlowsKept` says which of the received flows are in the queue,
  `AtomicExtraction` that the unlocked copy comes out as if nothing had happened meanwhile, and `ExtractionIsWindows`
  that it therefore is the last windows, but for a stale top file.
 */
module QueueThreads {
  import opened Wrappers
  import opened FlowQueue

  /** Who holds queue_lock. */
  datatype Owner = Nobody | Reader | Dumper

  datatype ReaderPc = Idle | Pending(r: Record) | Storing(r: Record) | Leaving

  /**
    Where the dumper is. `before` (the directory when it took the lock) and `wanted` (what an extraction done at once
    would have yielded) are there to state what holds; no step depends on them.
   */
  datatype DumperPc =
    | Working
    | Waiting
    | Renaming(i: nat, before: Files)
    | Unlocking
    | Extracting(filter: Filter, from: nat, i: nat, pos: nat, output: seq<Record>, wanted: seq<Record>)

  /** `history` lists the windows so far, for statements about the files; no step depends on it. */
  datatype State = State(files: Files, queueFile: bool, owner: Owner, reader: ReaderPc, dumper: DumperPc,
                         history: seq<Window>)

  datatype Move =
    | Receive(r: Record) | ReaderLocks | Store | ReaderUnlocks
    | DumperAwaits | DumperLocks | RenameOne | OpenFile(ok: bool) | DumperUnlocks
    | Begin(filter: Filter, backtrack: int) | CopyOne | NextFile | Finish

  ghost predicate Enabled(s: State, m: Move) {
    match m
    case Receive(_) => s.reader.Idle?
    case ReaderLocks => s.reader.Pending? && s.owner == Nobody
    case Store => s.reader.Storing?
    case ReaderUnlocks => s.reader.Leaving?
    case DumperAwaits => s.dumper.Working?
    case DumperLocks => s.dumper.Waiting? && s.owner == Nobody
    case RenameOne => s.dumper.Renaming? && s.dumper.i > 0
    case OpenFile(_) => s.dumper.Renaming? && s.dumper.i == 0
    case DumperUnlocks => s.dumper.Unlocking?
    case Begin(_, _) => s.dumper.Working?
    case CopyOne => AtRecord(s)
    case NextFile => s.dumper.Extracting? && s.dumper.i > 0 && !AtRecord(s)
    case Finish => s.dumper.Extracting? && s.dumper.i == 0
  }

  /** The extraction has an open file with a record left to read. */
  ghost predicate AtRecord(s: State) {
    s.dumper.Extracting? && s.dumper.i > 0 && s.dumper.i in s.files && s.dumper.pos < |s.files[s.dumper.i]|
  }

  ghost function Apply(s: State, m: Move, num: nat): State
    requires Enabled(s, m)
  {
    match m
    case Receive(r) => s.(reader := Pending(r))
    case ReaderLocks => s.(reader := Storing(s.reader.r), owner := Reader)
    case Store =>
      if s.queueFile && 0 in s.files && s.history != [] then
        s.(files := s.files[0 := s.files[0] + [s.reader.r]], history := Stored(s.history, s.reader.r),
            reader := Leaving)
      else s.(reader := Leaving)
    case ReaderUnlocks => s.(reader := Idle, owner := Nobody)
    case DumperAwaits => s.(dumper := Waiting)
    case DumperLocks => s.(dumper := Renaming(num, s.files), owner := Dumper)
    case RenameOne => s.(files := RenameUp(s.files, s.dumper.i), dumper := Renaming(s.dumper.i - 1, s.dumper.before))
    case OpenFile(ok) =>
      s.(files := if ok then s.files[0 := []] else s.files, queueFile := ok,
         history := s.history + [Window(ok, [])], dumper := Unlocking)
    case DumperUnlocks => s.(dumper := Working, owner := Nobody)
    case Begin(filter, backtrack) =>
      var from := Clamp(backtrack, num);
      s.(dumper := Extracting(filter, from, from, 0, [], Extract(s.files, filter, from)))
    case CopyOne =>
      var d, r := s.dumper, s.files[s.dumper.i][s.dumper.pos];
      s.(dumper := d.(pos := d.pos + 1, output := d.output + if Passes(d.filter, r) then [r] else []))
    case NextFile => s.(dumper := s.dumper.(i := s.dumper.i - 1, pos := 0))
    case Finish => s.(dumper := Working)
  }

  /** main shifts the queue once, and exits unless file 0 could be opened, before the threads start. */
  ghost function Initial(files: Files, num: nat): State {
    State(Shifted(files, num, true), true, Nobody, Idle, Working, [Window(true, [])])
  }

  ghost predicate Legal(s: State, moves: seq<Move>, num: nat)
    decreases |moves|
  {
    moves == [] || (Enabled(s, moves[0]) && Legal(Apply(s, moves[0], num), moves[1..], num))
  }

  /** The state after a run of moves. */
  ghost function After(s: State, moves: seq<Move>, num: nat): State
    requires Legal(s, moves, num)
    decreases |moves|
  {
    if moves == [] then s else After(Apply(s, moves[0], num), moves[1..], num)
  }

  // ---------- The invariant ----------

  /** What an extraction has still to copy. */
  ghost function Rest(files: Files, filter: Filter, i: nat, pos: nat): seq<Record> {
    if i == 0 then []
    else (if i in files && pos <= |files[i]| then Keep(files[i][pos..], filter) else []) + Extract(files, filter, i - 1)
  }

  ghost predicate Inv(s: State, num: nat) {
    s.history != [] && s.queueFile == Ago(s.history, 0).hasFile &&
    (s.owner == Reader <==> s.reader.Storing? || s.reader.Leaving?) &&
    (s.owner == Dumper <==> s.dumper.Renaming? || s.dumper.Unlocking?) &&
    (if s.dumper.Renaming? then
       s.dumper.i <= num && Renames(s.files, s.dumper.i) == Renames(s.dumper.before, num) &&
       Mirrors(s.dumper.before, s.history, num)
     else Mirrors(s.files, s.history, num)) &&
    (s.dumper.Extracting? ==>
       var d := s.dumper;
       d.i <= d.from <= num && (d.i > 0 && d.i in s.files ==> d.pos <= |s.files[d.i]|) &&
       d.wanted == Extract(s.files, d.filter, d.from) &&
       d.output + Rest(s.files, d.filter, d.i, d.pos) == d.wanted)
  }

  lemma {:induction false} KeepFirst(records: seq<Record>, filter: Filter)
    requires records != []
    ensures Keep(records, filter) == (if Passes(filter, records[0]) then [records[0]] else []) +
        Keep(records[1..], filter)
    decreases |records|
  {
    var m := |records| - 1;
    if m > 0 {
      KeepFirst(records[..m], filter);
      assert records[1..][..m - 1] == records[..m][1..];
      assert records[1..][m - 1] == records[m];
    } else {
      assert records[..0] == [] && records[1..] == [];
    }
  }

  lemma {:induction false} ExtractIgnoresFileZero(files: Files, file: seq<Record>, filter: Filter, i: nat)
    ensures Extract(files[0 := file], filter, i) == Extract(files, filter, i)
    decreases i
  {
    if i > 0 { ExtractIgnoresFileZero(files, file, filter, i - 1); }
  }

  lemma StoreKeepsInv(s: State, num: nat)
    requires Inv(s, num) && s.reader.Storing?
    ensures Inv(Apply(s, Store, num), num)
  {
    if s.queueFile {
      var r := s.reader.r;
      AppendMirrors(s.files, s.history, num, r);
      if s.dumper.Extracting? {
        var d, file := s.dumper, s.files[0] + [r];
        ExtractIgnoresFileZero(s.files, file, d.filter, d.from);
        if d.i > 0 { ExtractIgnoresFileZero(s.files, file, d.filter, d.i - 1); }
      }
    }
  }

  lemma RotationKeepsInv(s: State, m: Move, num: nat)
    requires Inv(s, num) && Enabled(s, m) && (m.DumperLocks? || m.RenameOne? || m.OpenFile?)
    ensures Inv(Apply(s, m, num), num)
  {
    if m.OpenFile? {
      ShiftMirrors(s.dumper.before, s.history, num, m.ok);
    }
  }

  lemma BeginKeepsInv(s: State, filter: Filter, backtrack: int, num: nat)
    requires Inv(s, num) && s.dumper.Working?
    ensures Inv(Apply(s, Begin(filter, backtrack), num), num)
  {
    var from := Clamp(backtrack, num);
    if from in s.files { assert s.files[from][0..] == s.files[from]; }
  }

  lemma RestStep(files: Files, filter: Filter, i: nat, pos: nat)
    requires i > 0 && i in files && pos < |files[i]|
    ensures Rest(files, filter, i, pos) ==
            (if Passes(filter, files[i][pos]) then [files[i][pos]] else []) + Rest(files, filter, i, pos + 1)
  {
    var file := files[i];
    KeepFirst(file[pos..], filter);
    assert file[pos..][1..] == file[pos + 1..];
    var first := if Passes(filter, file[pos]) then [file[pos]] else [];
    Concat(first, Keep(file[pos + 1..], filter), Extract(files, filter, i - 1));
  }

  lemma CopyKeepsInv(s: State, num: nat)
    requires Inv(s, num) && AtRecord(s)
    ensures Inv(Apply(s, CopyOne, num), num)
  {
    hide Rest, Mirrors;
    var d := s.dumper;
    var r := s.files[d.i][d.pos];
    RestStep(s.files, d.filter, d.i, d.pos);
    Concat(d.output, if Passes(d.filter, r) then [r] else [], Rest(s.files, d.filter, d.i, d.pos + 1));
  }

  lemma NextFileKeepsInv(s: State, num: nat)
    requires Inv(s, num) && Enabled(s, NextFile)
    ensures Inv(Apply(s, NextFile, num), num)
  {
    var d := s.dumper;
    if d.i in s.files { assert s.files[d.i][d.pos..] == []; }
    if d.i - 1 in s.files { assert s.files[d.i - 1][0..] == s.files[d.i - 1]; }
    assert Rest(s.files, d.filter, d.i, d.pos) == Rest(s.files, d.filter, d.i - 1, 0);
  }

  lemma MoveKeepsInv(s: State, m: Move, num: nat)
    requires Inv(s, num) && Enabled(s, m)
    ensures Inv(Apply(s, m, num), num)
  {
    match m
    case Store => StoreKeepsInv(s, num);
    case DumperLocks => RotationKeepsInv(s, m, num);
    case RenameOne => RotationKeepsInv(s, m, num);
    case OpenFile(_) => RotationKeepsInv(s, m, num);
    case Begin(filter, backtrack) => BeginKeepsInv(s, filter, backtrack, num);
    case CopyOne => CopyKeepsInv(s, num);
    case NextFile => NextFileKeepsInv(s, num);
    case _ =>
  }

  lemma InitialInv(files: Files, num: nat)
    ensures Inv(Initial(files, num), num)
  {
    ShiftMirrors(files, [], num, true);
    assert [] + [Window(true, [])] == [Window(true, [])];
  }

  /** Whatever the interleaving: locks exclude, and the files mirror the windows. */
  lemma {:induction false} RunKeepsInv(s: State, moves: seq<Move>, num: nat)
    requires Inv(s, num) && Legal(s, moves, num)
    ensures Inv(After(s, moves, num), num)
    decreases |moves|
  {
    if moves != [] {
      MoveKeepsInv(s, moves[0], num);
      RunKeepsInv(Apply(s, moves[0], num), moves[1..], num);
    }
  }

  /** Without a new extraction being begun, one that is under way is the one that was. */
  lemma {:induction false} SameExtraction(s: State, moves: seq<Move>, num: nat)
    requires Legal(s, moves, num) && forall m :: m in moves ==> !m.Begin?
    ensures var d, d' := s.dumper, After(s, moves, num).dumper;
      d'.Extracting? ==> d.Extracting? && d'.wanted == d.wanted && d'.filter == d.filter && d'.from == d.from
    decreases |moves|
  {
    if moves != [] {
      assert moves[0] in moves;
      SameExtraction(Apply(s, moves[0], num), moves[1..], num);
    }
  }

  /**
    An extraction run without the lock, interleaved record by record with any moves of the reader, yields what it
    would have yielded at once when it was begun: the matching flows of the windows before the current one, in
    the order in which they were stored.
   */
  lemma AtomicExtraction(files: Files, before: seq<Move>, filter: Filter, backtrack: int, during: seq<Move>, num: nat)
    requires Legal(Initial(files, num), before, num)
    requires var s := After(Initial(files, num), before, num);
      Enabled(s, Begin(filter, backtrack)) && Legal(Apply(s, Begin(filter, backtrack), num), during, num)
    requires forall m :: m in during ==> !m.Begin?
    ensures var s := After(Initial(files, num), before, num);
      var from := Clamp(backtrack, num);
      var s' := After(Apply(s, Begin(filter, backtrack), num), during, num);
      s'.dumper.Extracting? && s'.dumper.i == 0 ==>
        s'.dumper.output == Extract(s.files, filter, from) &&
        s'.dumper.output == Leftover(s.files, s.history, num, filter, from) + FromWindows(s.history, filter, from)
  {
    InitialInv(files, num);
    RunKeepsInv(Initial(files, num), before, num);
    var s, from := After(Initial(files, num), before, num), Clamp(backtrack, num);
    var s1 := Apply(s, Begin(filter, backtrack), num);
    BeginKeepsInv(s, filter, backtrack, num);
    RunKeepsInv(s1, during, num);
    SameExtraction(s1, during, num);
    ExtractsWindows(s.files, s.history, num, filter, from);
  }

  // ---------- Extraction in a whole run ----------

  /** Nothing in the directory is older than the run, and windows without a file have no flows. */
  ghost predicate CleanState(s: State) {
    Clean(if s.dumper.Renaming? then s.dumper.before else s.files, s.history) && NoFileNoFlows(s.history)
  }

  lemma MoveKeepsClean(s: State, m: Move, num: nat)
    requires Inv(s, num) && CleanState(s) && Enabled(s, m)
    ensures CleanState(Apply(s, m, num))
  {
    if m.OpenFile? { ShiftClean(s.dumper.before, s.history, num, m.ok); }
  }

  lemma {:induction false} RunKeepsClean(s: State, moves: seq<Move>, num: nat)
    requires Inv(s, num) && CleanState(s) && Legal(s, moves, num)
    ensures CleanState(After(s, moves, num))
    decreases |moves|
  {
    if moves != [] {
      MoveKeepsInv(s, moves[0], num);
      MoveKeepsClean(s, moves[0], num);
      RunKeepsClean(Apply(s, moves[0], num), moves[1..], num);
    }
  }

  lemma {:induction false} AllWindowsOpen(s: State, moves: seq<Move>, num: nat)
    requires Legal(s, moves, num) && forall m :: m in moves && m.OpenFile? ==> m.ok
    requires forall w :: w in s.history ==> w.hasFile
    ensures forall w :: w in After(s, moves, num).history ==> w.hasFile
    decreases |moves|
  {
    if moves != [] {
      assert moves[0] in moves;
      AllWindowsOpen(Apply(s, moves[0], num), moves[1..], num);
    }
  }

  /**
    From an empty directory on, an extraction interleaved with the reader yields exactly the matching flows of the
    last min(backtrack, num) completed windows, in the order they were stored; only a stale top file, when it is among
    those read, comes out as well. With files that can always be opened there is none.
   */
  lemma ExtractionIsWindows(before: seq<Move>, filter: Filter, backtrack: int, during: seq<Move>, num: nat)
    requires Legal(Initial(map[], num), before, num)
    requires var s := After(Initial(map[], num), before, num);
      Enabled(s, Begin(filter, backtrack)) && Legal(Apply(s, Begin(filter, backtrack), num), during, num)
    requires forall m :: m in during ==> !m.Begin?
    ensures var s := After(Initial(map[], num), before, num);
      var from := Clamp(backtrack, num);
      var s' := After(Apply(s, Begin(filter, backtrack), num), during, num);
      s'.dumper.Extracting? && s'.dumper.i == 0 ==>
        s'.dumper.output ==
          (if 0 < from == num && TopIsStale(s.files, s.history, num) then Keep(s.files[num], filter) else []) +
          FromWindows(s.history, filter, from) &&
        Selected(FromWindows(s.history, filter, from), AllOf(Completed(s.history, backtrack, num)), filter) &&
        ((forall m :: m in before && m.OpenFile? ==> m.ok) ==> s'.dumper.output == FromWindows(s.history, filter, from))
  {
    var start: Files := map[];
    var s0, from := Initial(start, num), Clamp(backtrack, num);
    InitialInv(start, num);
    ShiftClean(start, [], num, true);
    assert [] + [Window(true, [])] == [Window(true, [])];
    RunKeepsClean(s0, before, num);
    AtomicExtraction(start, before, filter, backtrack, during, num);
    var s := After(s0, before, num);
    NoLeftover(s.files, s.history, num, filter, from);
    RunKeepsInv(s0, before, num);
    WindowsSelect(s.history, filter, backtrack, num);
    if forall m :: m in before && m.OpenFile? ==> m.ok {
      AllWindowsOpen(s0, before, num);
      assert num < |s.history| ==> Ago(s.history, num) in s.history;
    }
  }

  // ---------- Which flows are in the queue ----------

  /** The flows the reader received, in order. */
  function Received(moves: seq<Move>): seq<Record> {
    if moves == [] then [] else (if moves[0].Receive? then [moves[0].r] else []) + Received(moves[1..])
  }

  /** For each flow the reader came to store: whether file 0 could be opened at the last rotation before. */
  function Fates(moves: seq<Move>, open: bool): seq<bool> {
    if moves == [] then []
    else match moves[0]
      case OpenFile(ok) => Fates(moves[1..], ok)
      case Store => [open] + Fates(moves[1..], open)
      case _ => Fates(moves[1..], open)
  }

  /** The flows whose fate is known to be good. */
  function Kept(records: seq<Record>, fates: seq<bool>): seq<Record> {
    if records == [] || fates == [] then []
    else (if fates[0] then [records[0]] else []) + Kept(records[1..], fates[1..])
  }

  /** The flow the reader has received and not yet come to store. */
  function InHand(reader: ReaderPc): seq<Record> {
    if reader.Pending? || reader.Storing? then [reader.r] else []
  }

  lemma AllStored(history: seq<Window>, r: Record)
    requires history != []
    ensures AllOf(Stored(history, r)) == AllOf(history) + [r]
  {
    var m := |history| - 1;
    assert Stored(history, r)[..m] == history[..m];
    assert AllOf(history[..m]) + (history[m].records + [r]) == AllOf(history[..m]) + history[m].records + [r];
  }

  lemma AllOpened(history: seq<Window>, ok: bool)
    ensures AllOf(history + [Window(ok, [])]) == AllOf(history)
  {
    assert (history + [Window(ok, [])])[..|history|] == history;
  }

  /** One move: a flow that is stored goes to its fate, everything else leaves the flows where they are. */
  lemma OneMove(s: State, m: Move, num: nat, later: seq<Record>, fates: seq<bool>)
    requires Inv(s, num) && Enabled(s, m)
    ensures var s1, flows := Apply(s, m, num), InHand(s.reader) + ((if m.Receive? then [m.r] else []) + later);
      var all := if m.Store? then [s.queueFile] + fates else fates;
      |all| - |flows| == |fates| - |InHand(s1.reader) + later| &&
      AllOf(s1.history) + Kept(InHand(s1.reader) + later, fates) == AllOf(s.history) + Kept(flows, all)
  {
    hide AllOf, Mirrors;
    assert [] + later == later;
    if m.Store? {
      var r, all := s.reader.r, [s.queueFile] + fates;
      assert ([r] + later)[1..] == later && all[1..] == fates;
      assert Kept([r] + later, all) == (if s.queueFile then [r] else []) + Kept(later, fates);
      if s.queueFile {
        AppendMirrors(s.files, s.history, num, r);
        AllStored(s.history, r);
        Concat(AllOf(s.history), [r], Kept(later, fates));
      }
    } else if m.OpenFile? {
      AllOpened(s.history, m.ok);
    } else if m.Receive? {
      assert [] + ([m.r] + later) == [m.r] + later;
    }
  }

  lemma {:induction false} FlowsKeptFrom(s: State, moves: seq<Move>, num: nat)
    requires Inv(s, num) && Legal(s, moves, num)
    ensures var s', fates, flows := After(s, moves, num), Fates(moves, s.queueFile), InHand(s.reader) + Received(moves);
      |fates| + |InHand(s'.reader)| == |flows| && AllOf(s'.history) == AllOf(s.history) + Kept(flows, fates)
    decreases |moves|
  {
    hide AllOf, Inv;
    if moves == [] {
      assert Kept(InHand(s.reader) + [], []) == [];
    } else {
      var m, rest := moves[0], moves[1..];
      var s1 := Apply(s, m, num);
      MoveKeepsInv(s, m, num);
      FlowsKeptFrom(s1, rest, num);
      OneMove(s, m, num, Received(rest), Fates(rest, s1.queueFile));
    }
  }

  /**
    In every run the queue holds, in order and each once, exactly the flows received except those that were stored
    while file 0 could not be opened; one flow at most is still in the reader's hands.
   */
  lemma FlowsKept(files: Files, moves: seq<Move>, num: nat)
    requires Legal(Initial(files, num), moves, num)
    ensures var s, fates := After(Initial(files, num), moves, num), Fates(moves, true);
      |fates| + |InHand(s.reader)| == |Received(moves)| && AllOf(s.history) == Kept(Received(moves), fates)
  {
    InitialInv(files, num);
    FlowsKeptFrom(Initial(files, num), moves, num);
    AllOpened([], true);
    assert [] + [Window(true, [])] == [Window(true, [])];
    assert [] + Received(moves) == Received(moves);
  }

  // ---------- Neither thread keeps the other from going on ----------

  lemma {:induction false} Continue(s: State, first: seq<Move>, rest: seq<Move>, num: nat)
    requires Legal(s, first, num) && Legal(After(s, first, num), rest, num)
    ensures Legal(s, first + rest, num) && After(s, first + rest, num) == After(After(s, first, num), rest, num)
    ensures Received(first + rest) == Received(first) + Received(rest)
    decreases |first|
  {
    hide Enabled, Apply;
    if first == [] {
      assert [] + rest == rest;
    } else {
      var all := first + rest;
      assert all[0] == first[0] && all[1..] == first[1..] + rest;
      Continue(Apply(s, first[0], num), first[1..], rest, num);
      var one := if first[0].Receive? then [first[0].r] else [];
      assert Received(all) == one + (Received(first[1..]) + Received(rest)) == Received(first) + Received(rest);
    }
  }

  lemma One(s: State, m: Move, num: nat)
    requires Enabled(s, m)
    ensures Legal(s, [m], num) && After(s, [m], num) == Apply(s, m, num)
    ensures Received([m]) == if m.Receive? then [m.r] else []
  {
    assert [m][1..] == [];
    assert Legal(Apply(s, m, num), [], num);
  }

  /** Receiving and storing one flow while an extraction is under way. */
  lemma StoreOne(s: State, r: Record, num: nat) returns (moves: seq<Move>)
    requires Inv(s, num) && s.dumper.Extracting? && s.reader.Idle?
    ensures moves == [Receive(r), ReaderLocks, Store, ReaderUnlocks]
    ensures Legal(s, moves, num) && Received(moves) == [r] && forall m :: m in moves ==> !m.Begin?
    ensures var s' := After(s, moves, num); s'.dumper == s.dumper && s'.reader.Idle?
  {
    moves := [Receive(r), ReaderLocks, Store, ReaderUnlocks];
    var s1 := Apply(s, Receive(r), num);
    var s2 := Apply(s1, ReaderLocks, num);
    var s3 := Apply(s2, Store, num);
    One(s, Receive(r), num);
    One(s1, ReaderLocks, num);
    Continue(s, [Receive(r)], [ReaderLocks], num);
    One(s2, Store, num);
    Continue(s, [Receive(r)] + [ReaderLocks], [Store], num);
    One(s3, ReaderUnlocks, num);
    Continue(s, [Receive(r)] + [ReaderLocks] + [Store], [ReaderUnlocks], num);
    assert moves == [Receive(r)] + [ReaderLocks] + [Store] + [ReaderUnlocks];
  }

  /** Moves during an extraction that receive `rs` and leave the reader where it was. */
  ghost predicate Meanwhile(s: State, moves: seq<Move>, rs: seq<Record>, num: nat) {
    Legal(s, moves, num) && Received(moves) == rs && (forall m: Move :: m in moves ==> !m.Begin?) &&
    After(s, moves, num).reader == s.reader
  }

  /** Any flows at all can come in and be stored before the next step of an extraction. */
  lemma {:induction false} StoresGoOn(s: State, rs: seq<Record>, num: nat)
    requires Inv(s, num) && s.dumper.Extracting? && s.reader.Idle?
    ensures exists moves :: Meanwhile(s, moves, rs, num) && After(s, moves, num).dumper == s.dumper
    decreases |rs|
  {
    if rs == [] {
      assert Meanwhile(s, [], rs, num) && After(s, [], num).dumper == s.dumper;
    } else {
      var first := StoreOne(s, rs[0], num);
      var s1 := After(s, first, num);
      RunKeepsInv(s, first, num);
      StoresGoOn(s1, rs[1..], num);
      var rest :| Meanwhile(s1, rest, rs[1..], num) && After(s1, rest, num).dumper == s1.dumper;
      Continue(s, first, rest, num);
      assert [rs[0]] + rs[1..] == rs;
      assert Meanwhile(s, first + rest, rs, num) && After(s, first + rest, num).dumper == s.dumper;
    }
  }

  ghost predicate Ended(d: DumperPc) {
    d.Extracting? && d.i == 0
  }

  /** An extraction can always be carried to its end, whatever the reader is doing. */
  lemma {:induction false} ExtractionEnds(s: State, num: nat)
    requires s.dumper.Extracting?
    ensures exists moves :: Meanwhile(s, moves, [], num) && Ended(After(s, moves, num).dumper)
    decreases s.dumper.i, if AtRecord(s) then |s.files[s.dumper.i]| - s.dumper.pos else 0
  {
    if s.dumper.i == 0 {
      assert Meanwhile(s, [], [], num) && Ended(After(s, [], num).dumper);
    } else {
      var m := if AtRecord(s) then CopyOne else NextFile;
      var s1 := Apply(s, m, num);
      ExtractionEnds(s1, num);
      var rest :| Meanwhile(s1, rest, [], num) && Ended(After(s1, rest, num).dumper);
      One(s, m, num);
      Continue(s, [m], rest, num);
      assert Meanwhile(s, [m] + rest, [], num) && Ended(After(s, [m] + rest, num).dumper);
    }
  }

  /**
    Wherever an extraction can begin, any flows can be received and stored while it is under way, and it can still
    be brought to its end: `AtomicExtraction` speaks of such runs.
   */
  lemma ExtractionAndStores(s: State, filter: Filter, backtrack: int, rs: seq<Record>, num: nat)
    requires Inv(s, num) && s.dumper.Working? && s.reader.Idle?
    ensures Enabled(s, Begin(filter, backtrack))
    ensures var s1 := Apply(s, Begin(filter, backtrack), num);
      exists during :: Meanwhile(s1, during, rs, num) && |Fates(during, s1.queueFile)| == |rs| &&
                       Ended(After(s1, during, num).dumper)
  {
    var s1 := Apply(s, Begin(filter, backtrack), num);
    BeginKeepsInv(s, filter, backtrack, num);
    StoresGoOn(s1, rs, num);
    var first :| Meanwhile(s1, first, rs, num) && After(s1, first, num).dumper == s1.dumper;
    var s2 := After(s1, first, num);
    ExtractionEnds(s2, num);
    var rest :| Meanwhile(s2, rest, [], num) && Ended(After(s2, rest, num).dumper);
    Continue(s1, first, rest, num);
    assert rs + [] == rs && InHand(s1.reader) + rs == rs;
    assert Meanwhile(s1, first + rest, rs, num);
    FlowsKeptFrom(s1, first + rest, num);
  }

  /** Renaming from `i` down and opening a new file 0. */
  lemma {:induction false} RenamesGoOn(s: State, ok: bool, num: nat)
    requires s.dumper.Renaming?
    ensures exists moves :: Legal(s, moves, num) && Received(moves) == [] && After(s, moves, num).dumper.Unlocking? &&
                            After(s, moves, num).history == s.history + [Window(ok, [])]
    decreases s.dumper.i
  {
    var m := if s.dumper.i > 0 then RenameOne else OpenFile(ok);
    var s1 := Apply(s, m, num);
    One(s, m, num);
    if s.dumper.i > 0 {
      RenamesGoOn(s1, ok, num);
      var rest :| Legal(s1, rest, num) && Received(rest) == [] && After(s1, rest, num).dumper.Unlocking? &&
                  After(s1, rest, num).history == s1.history + [Window(ok, [])];
      Continue(s, [m], rest, num);
      assert Legal(s, [m] + rest, num) && Received([m] + rest) == [];
    }
  }

  /** With the lock free, the dumper can rotate the files, and get to where it can begin an extraction again. */
  lemma RotationGoesOn(s: State, ok: bool, num: nat)
    requires s.owner == Nobody && s.dumper.Working?
    ensures exists moves :: Legal(s, moves, num) && After(s, moves, num).dumper.Working? &&
                            After(s, moves, num).history == s.history + [Window(ok, [])]
  {
    var s1 := Apply(s, DumperAwaits, num);
    var s2 := Apply(s1, DumperLocks, num);
    One(s, DumperAwaits, num);
    One(s1, DumperLocks, num);
    Continue(s, [DumperAwaits], [DumperLocks], num);
    RenamesGoOn(s2, ok, num);
    var rest :| Legal(s2, rest, num) && Received(rest) == [] && After(s2, rest, num).dumper.Unlocking? &&
                After(s2, rest, num).history == s2.history + [Window(ok, [])];
    var first := [DumperAwaits] + [DumperLocks];
    Continue(s, first, rest, num);
    One(After(s2, rest, num), DumperUnlocks, num);
    Continue(s, first + rest, [DumperUnlocks], num);
    assert Legal(s, first + rest + [DumperUnlocks], num);
  }

  /** Both threads are never in their critical sections at once. */
  lemma MutualExclusion(files: Files, moves: seq<Move>, num: nat)
    requires Legal(Initial(files, num), moves, num)
    ensures var s := After(Initial(files, num), moves, num);
      !((s.reader.Storing? || s.reader.Leaving?) && (s.dumper.Renaming? || s.dumper.Unlocking?))
  {
    InitialInv(files, num);
    RunKeepsInv(Initial(files, num), moves, num);
  }
}
