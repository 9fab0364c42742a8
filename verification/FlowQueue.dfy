/**
  The queue of flow files: file 0 is being written, file k holds the flows of the window k rotations ago.

  `Shifted` and `Extract` are what nfd_queue_shift and nfd_queue_add_flow do to the directory. The history of time
  windows is the abstraction: `Mirrors` says how the files stand for it, and `ExtractsWindows` what copying flows
  back out of the queue therefore yields.
 */
module FlowQueue {
  import opened Wrappers

  datatype Record = Record(fields: seq<int>)

  type Filter = Option<Record -> bool>

  /** The queue directory, by file number. */
  type Files = map<nat, seq<Record>>

  function Passes(filter: Filter, r: Record): bool {
    filter.None? || filter.value(r)
  }

  function Keep(records: seq<Record>, filter: Filter): seq<Record> {
    if records == [] then []
    else Keep(records[..|records| - 1], filter) +
         if Passes(filter, records[|records| - 1]) then [records[|records| - 1]] else []
  }

  /**
    `kept` is what a filter selects from `records`: there is an increasing list `ix` of exactly the places of records it
    accepts, and `kept` has the records at these places. No filter accepts every record.
   */
  ghost predicate SelectedBy(ix: seq<nat>, kept: seq<Record>, records: seq<Record>, filter: Filter) {
    |ix| == |kept| &&
    (forall j, k :: 0 <= j < k < |ix| ==> ix[j] < ix[k]) &&
    (forall k :: 0 <= k < |ix| ==> ix[k] < |records| && kept[k] == records[ix[k]]) &&
    (forall i :: 0 <= i < |records| ==> (i in ix <==> filter.None? || filter.value(records[i])))
  }

  ghost predicate Selected(kept: seq<Record>, records: seq<Record>, filter: Filter) {
    exists ix :: SelectedBy(ix, kept, records, filter)
  }

  /** Keeping is selecting: nothing the filter accepts is dropped, nothing else comes in, and the order stays. */
  lemma {:induction false} KeepSelects(records: seq<Record>, filter: Filter)
    ensures Selected(Keep(records, filter), records, filter)
    decreases |records|
  {
    if records == [] {
      assert SelectedBy([], Keep(records, filter), records, filter);
    } else {
      var m := |records| - 1;
      KeepSelects(records[..m], filter);
      var ix: seq<nat> :| SelectedBy(ix, Keep(records[..m], filter), records[..m], filter);
      SelectOneMore(ix, Keep(records[..m], filter), records, filter);
    }
  }

  lemma SelectOneMore(ix: seq<nat>, kept: seq<Record>, records: seq<Record>, filter: Filter)
    requires records != [] && SelectedBy(ix, kept, records[..|records| - 1], filter)
    ensures var r := records[|records| - 1];
      Selected(kept + if filter.None? || filter.value(r) then [r] else [], records, filter)
  {
    var m := |records| - 1;
    var passes := filter.None? || filter.value(records[m]);
    var ix', kept' := ix + (if passes then [m] else []), kept + if passes then [records[m]] else [];
    forall i | 0 <= i < |records| ensures i in ix' <==> filter.None? || filter.value(records[i]) {
      if i < m { assert records[..m][i] == records[i]; }
    }
    assert SelectedBy(ix', kept', records, filter);
  }

  lemma {:induction false} KeepConcat(a: seq<Record>, b: seq<Record>, filter: Filter)
    ensures Keep(a + b, filter) == Keep(a, filter) + Keep(b, filter)
    decreases |b|
  {
    if b == [] {
      assert a + b == a;
    } else {
      var m := |b| - 1;
      assert (a + b)[..|a + b| - 1] == a + b[..m];
      KeepConcat(a, b[..m], filter);
    }
  }

  // ---------- What the code does to the files ----------

  /** rename(i - 1, i): without a source file nothing happens. */
  function RenameUp(files: Files, i: nat): Files
    requires i > 0
  {
    if i - 1 in files then (files - {i - 1})[i := files[i - 1]] else files
  }

  function Renames(files: Files, i: nat): Files
    decreases i
  {
    if i == 0 then files else Renames(RenameUp(files, i), i - 1)
  }

  /** The directory after a shift; a new file 0 if it could be opened. */
  function Shifted(files: Files, num: nat, opens: bool): Files {
    if opens then Renames(files, num)[0 := []] else Renames(files, num)
  }

  /** The flows in files i, i - 1, ..., 1 that pass the filter. */
  function Extract(files: Files, filter: Filter, i: nat): seq<Record> {
    if i == 0 then []
    else (if i in files then Keep(files[i], filter) else []) + Extract(files, filter, i - 1)
  }

  /** Files i, i - 1, ..., 1 one after the other. */
  function Backlog(files: Files, i: nat): seq<Record> {
    if i == 0 then [] else (if i in files then files[i] else []) + Backlog(files, i - 1)
  }

  lemma {:induction false} ExtractKeeps(files: Files, filter: Filter, i: nat)
    ensures Extract(files, filter, i) == Keep(Backlog(files, i), filter)
    decreases i
  {
    if i > 0 {
      ExtractKeeps(files, filter, i - 1);
      KeepConcat(if i in files then files[i] else [], Backlog(files, i - 1), filter);
    }
  }

  /** How many files are read: the smaller of `backtrack` and `num`, none if the former is negative. */
  function Clamp(backtrack: int, num: nat): nat {
    if backtrack > num then num else if backtrack < 0 then 0 else backtrack
  }

  /** Extraction selects the matching flows of files min(backtrack, num), ..., 1. */
  lemma ExtractSelects(files: Files, filter: Filter, backtrack: int, num: nat)
    ensures var output := Extract(files, filter, Clamp(backtrack, num));
      if backtrack <= 0 then output == []
      else Selected(output, Backlog(files, if backtrack < num then backtrack else num), filter)
  {
    ExtractKeeps(files, filter, Clamp(backtrack, num));
    KeepSelects(Backlog(files, Clamp(backtrack, num)), filter);
  }

  // ---------- The windows behind the files ----------

  /** A time window: whether its file could be opened, and the flows stored during it. */
  datatype Window = Window(hasFile: bool, records: seq<Record>)

  /** The window `k` rotations ago; the last of the history is the current one. */
  function Ago(history: seq<Window>, k: nat): Window
    requires k < |history|
  {
    history[|history| - 1 - k]
  }

  predicate Holds(files: Files, k: nat, w: Window) {
    if w.hasFile then k in files && files[k] == w.records else k !in files
  }

  /**
    Every file below the top one holds its window, or is missing if that window had none. The top file is the same
    except that, when its window had no file, whatever was there before is still there.
   */
  ghost predicate Mirrors(files: Files, history: seq<Window>, num: nat) {
    forall k: nat :: k < |history| && k <= num && (k < num || Ago(history, k).hasFile) ==>
        Holds(files, k, Ago(history, k))
  }

  /** Nothing in the directory is older than the first window. */
  ghost predicate Clean(files: Files, history: seq<Window>) {
    forall k: nat :: k in files ==> k < |history|
  }

  /** The flows of the last `i` completed windows that pass the filter, oldest window first. */
  function FromWindows(history: seq<Window>, filter: Filter, i: nat): seq<Record> {
    if i == 0 then []
    else (if i < |history| && Ago(history, i).hasFile then Keep(Ago(history, i).records, filter) else []) +
         FromWindows(history, filter, i - 1)
  }

  /** The flows of all windows, in the order they were stored. */
  ghost function AllOf(history: seq<Window>): seq<Record> {
    if history == [] then [] else AllOf(history[..|history| - 1]) + history[|history| - 1].records
  }

  predicate NoFileNoFlows(history: seq<Window>) {
    forall w :: w in history && !w.hasFile ==> w.records == []
  }

  /** The windows `n`, ..., 1 rotations ago, as far as there are, oldest first. */
  function Before(history: seq<Window>, n: nat): seq<Window> {
    if history == [] then []
    else
      var last := |history| - 1;
      history[if n <= last then last - n else 0..last]
  }

  /** The last min(backtrack, num) completed windows, oldest first. */
  function Completed(history: seq<Window>, backtrack: int, num: nat): seq<Window> {
    if backtrack <= 0 then [] else Before(history, if backtrack < num then backtrack else num)
  }

  lemma {:induction false} AllOfFirst(history: seq<Window>)
    requires history != []
    ensures AllOf(history) == history[0].records + AllOf(history[1..])
    decreases |history|
  {
    var m := |history| - 1;
    if m > 0 {
      AllOfFirst(history[..m]);
      assert history[..m][1..] == history[1..][..m - 1] && history[..m][0] == history[0];
      Concat(history[0].records, AllOf(history[1..][..m - 1]), history[m].records);
    } else {
      assert history[..0] == [] && history[1..] == [];
    }
  }

  lemma BeforeMore(history: seq<Window>, n: nat)
    requires 0 < n
    ensures Before(history, n) == (if n < |history| then [Ago(history, n)] else []) + Before(history, n - 1)
  {}

  lemma {:induction false} WindowsInOrder(history: seq<Window>, filter: Filter, i: nat)
    requires NoFileNoFlows(history)
    ensures FromWindows(history, filter, i) == Keep(AllOf(Before(history, i)), filter)
    decreases i
  {
    hide Keep, AllOf, Before;
    if i > 0 {
      WindowsInOrder(history, filter, i - 1);
      BeforeMore(history, i);
      if i < |history| {
        var w, rest := Ago(history, i), Before(history, i - 1);
        assert w in history && ([w] + rest)[1..] == rest;
        AllOfFirst([w] + rest);
        KeepConcat(w.records, AllOf(rest), filter);
        assert !w.hasFile ==> Keep(w.records, filter) == [] by { KeepNone(filter); }
      } else {
        assert [] + Before(history, i - 1) == Before(history, i - 1);
      }
    } else {
      NoneBefore(history);
      KeepNone(filter);
    }
  }

  lemma NoneBefore(history: seq<Window>)
    ensures Before(history, 0) == [] && AllOf([]) == []
  {}

  lemma KeepNone(filter: Filter)
    ensures Keep([], filter) == []
  {}

  /** What comes from the windows are the matching flows of these windows, as they were stored. */
  lemma WindowsSelect(history: seq<Window>, filter: Filter, backtrack: int, num: nat)
    requires NoFileNoFlows(history)
    ensures Selected(FromWindows(history, filter, Clamp(backtrack, num)),
                     AllOf(Completed(history, backtrack, num)), filter)
  {
    hide Keep, AllOf, Before, Selected, FromWindows;
    WindowsInOrder(history, filter, Clamp(backtrack, num));
    KeepSelects(AllOf(Completed(history, backtrack, num)), filter);
    NoneBefore(history);
  }

  // ---------- Rotation ----------

  /** Renaming from the top down moves every file up by one, all at once; only a missing source leaves its target. */
  lemma {:induction false} RenamesAt(files: Files, i: nat, k: nat)
    ensures var r := Renames(files, i);
      if k > i || i == 0 then (k in r <==> k in files) && (k in files ==> r[k] == files[k])
      else if k == 0 then k !in r
      else if k < i || k - 1 in files then (k in r <==> k - 1 in files) && (k - 1 in files ==> r[k] == files[k - 1])
      else (k in r <==> k in files) && (k in files ==> r[k] == files[k])
    decreases i
  {
    if i > 0 { RenamesAt(RenameUp(files, i), i - 1, k); }
  }

  lemma ShiftMirrors(files: Files, history: seq<Window>, num: nat, opens: bool)
    requires Mirrors(files, history, num)
    ensures Mirrors(Shifted(files, num, opens), history + [Window(opens, [])], num)
  {
    var history', files' := history + [Window(opens, [])], Shifted(files, num, opens);
    forall k: nat | k < |history'| && k <= num && (k < num || Ago(history', k).hasFile)
      ensures Holds(files', k, Ago(history', k))
    {
      RenamesAt(files, num, k);
      if k > 0 {
        assert Ago(history', k) == Ago(history, k - 1);
        assert Holds(files, k - 1, Ago(history, k - 1));
      }
    }
  }

  lemma ShiftClean(files: Files, history: seq<Window>, num: nat, opens: bool)
    requires Clean(files, history)
    ensures Clean(Shifted(files, num, opens), history + [Window(opens, [])])
  {
    forall k: nat | k in Shifted(files, num, opens) ensures k < |history| + 1 {
      RenamesAt(files, num, k);
    }
  }

  /** The history after storing a flow in the current window. */
  function Stored(history: seq<Window>, r: Record): seq<Window>
    requires history != []
  {
    var last := |history| - 1;
    history[last := history[last].(records := history[last].records + [r])]
  }

  lemma AppendMirrors(files: Files, history: seq<Window>, num: nat, r: Record)
    requires Mirrors(files, history, num) && history != [] && Ago(history, 0).hasFile
    ensures 0 in files && Mirrors(files[0 := files[0] + [r]], Stored(history, r), num)
  {
    assert Holds(files, 0, Ago(history, 0));
    var files', history' := files[0 := files[0] + [r]], Stored(history, r);
    forall k: nat | k < |history'| && k <= num && (k < num || Ago(history', k).hasFile)
      ensures Holds(files', k, Ago(history', k))
    {
      assert k > 0 ==> Ago(history', k) == Ago(history, k);
      assert Holds(files, k, Ago(history, k));
    }
  }

  // ---------- Extraction ----------

  /** File `k` does not stand for a window of this run: it is older, or the top file was never replaced. */
  predicate Foreign(history: seq<Window>, num: nat, k: nat) {
    k >= |history| || (k == num && !Ago(history, k).hasFile)
  }

  /** The matching flows of the foreign files among i, ..., 1. */
  function Leftover(files: Files, history: seq<Window>, num: nat, filter: Filter, i: nat): seq<Record> {
    if i == 0 then []
    else (if Foreign(history, num, i) && i in files then Keep(files[i], filter) else []) +
         Leftover(files, history, num, filter, i - 1)
  }

  lemma Concat<T>(a: seq<T>, b: seq<T>, c: seq<T>)
    ensures (a + b) + c == a + (b + c)
  {}

  lemma MirrorsAt(files: Files, history: seq<Window>, num: nat, k: nat)
    requires Mirrors(files, history, num) && k <= num && !Foreign(history, num, k)
    ensures Holds(files, k, Ago(history, k))
  {}

  lemma {:induction false} NoLeftoverBelow(files: Files, history: seq<Window>, num: nat, filter: Filter, i: nat)
    requires i < |history| && (i < num || (i == num && Ago(history, i).hasFile))
    ensures Leftover(files, history, num, filter, i) == []
    decreases i
  {
    if i > 0 { NoLeftoverBelow(files, history, num, filter, i - 1); }
  }

  /** What one file adds: a leftover, or the flows of its window. */
  lemma OneFile(files: Files, history: seq<Window>, num: nat, filter: Filter, i: nat)
    requires Mirrors(files, history, num) && 0 < i <= num
    ensures var rest, left := Extract(files, filter, i - 1), Leftover(files, history, num, filter, i - 1);
      var windows := FromWindows(history, filter, i - 1);
      exists own: seq<Record> ::
        Extract(files, filter, i) == own + rest &&
        if Foreign(history, num, i) then
          Leftover(files, history, num, filter, i) == own + left && FromWindows(history, filter, i) == windows
        else
          Leftover(files, history, num, filter, i) == [] && left == [] &&
          FromWindows(history, filter, i) == own + windows
  {
    hide Keep;
    var own := if i in files then Keep(files[i], filter) else [];
    assert Extract(files, filter, i) == own + Extract(files, filter, i - 1);
    if !Foreign(history, num, i) {
      MirrorsAt(files, history, num, i);
      NoLeftoverBelow(files, history, num, filter, i);
      NoLeftoverBelow(files, history, num, filter, i - 1);
    }
  }

  /**
    Extraction yields whatever foreign files hold, and then the matching flows of the last `i` completed windows,
    oldest first and each once. Foreign files are exactly what makes the outcome differ from those windows.
   */
  lemma {:induction false} ExtractsWindows(files: Files, history: seq<Window>, num: nat, filter: Filter, i: nat)
    requires Mirrors(files, history, num) && i <= num
    ensures Extract(files, filter, i) == Leftover(files, history, num, filter, i) + FromWindows(history, filter, i)
    ensures Extract(files, filter, i) == FromWindows(history, filter, i) <==>
        Leftover(files, history, num, filter, i) == []
    decreases i
  {
    if i > 0 {
      ExtractsWindows(files, history, num, filter, i - 1);
      OneFile(files, history, num, filter, i);
      hide Extract, Leftover, FromWindows, Mirrors;
      var rest, left := Extract(files, filter, i - 1), Leftover(files, history, num, filter, i - 1);
      var windows := FromWindows(history, filter, i - 1);
      var own: seq<Record> :|
        Extract(files, filter, i) == own + rest &&
        if Foreign(history, num, i) then
          Leftover(files, history, num, filter, i) == own + left && FromWindows(history, filter, i) == windows
        else
          Leftover(files, history, num, filter, i) == [] && left == [] &&
          FromWindows(history, filter, i) == own + windows;
      Concat(own, left, windows);
    }
  }

  /** The top file belongs to no window: the one whose turn it would be had no file to replace it with. */
  predicate TopIsStale(files: Files, history: seq<Window>, num: nat) {
    num < |history| && !Ago(history, num).hasFile && num in files
  }

  /** With an empty directory at the start, the only foreign file there can be is a stale top file. */
  lemma {:induction false} NoLeftover(files: Files, history: seq<Window>, num: nat, filter: Filter, i: nat)
    requires Clean(files, history) && i <= num
    ensures Leftover(files, history, num, filter, i) ==
            if 0 < i == num && TopIsStale(files, history, num) then Keep(files[num], filter) else []
    decreases i
  {
    if i > 0 { NoLeftover(files, history, num, filter, i - 1); }
  }

  /** A foreign file does happen: when a window had no file, the top file stays and is read again. */
  lemma StaleTopIsRead(r: Record)
    ensures var history := [Window(true, [r]), Window(false, []), Window(true, [])];
      var files0: Files := map[0 := [r]];
      var files := Shifted(Shifted(files0, 1, false), 1, true);
      Mirrors(files, history, 1) && Extract(files, None, 1) == [r] && FromWindows(history, None, 1) == []
  {
    var files0: Files := map[0 := [r]];
    var h1, h2 := [Window(true, [r])], [Window(true, [r]), Window(false, [])];
    assert h1 + [Window(false, [])] == h2;
    ShiftMirrors(files0, h1, 1, false);
    ShiftMirrors(Shifted(files0, 1, false), h2, 1, true);
    assert h2 + [Window(true, [])] == [Window(true, [r]), Window(false, []), Window(true, [])];
    assert Renames(files0, 1) == map[1 := [r]];
    assert Keep([r], None) == [r];
  }

  // ---------- The code, on the directory in place ----------

  class Queue {
    const queueNum: nat
    var files: Files
    var queueFile: bool               // the handle on file 0 is open
    ghost var history: seq<Window>

    ghost predicate Valid()
      reads this
    {
      Mirrors(files, history, queueNum) && (history == [] ==> !queueFile) &&
      (history != [] ==> queueFile == Ago(history, 0).hasFile)
    }

    constructor (queueNum: nat, files: Files)
      ensures Valid() && this.queueNum == queueNum && this.files == files && history == []
    {
      this.queueNum, this.files, queueFile, history := queueNum, files, false, [];
    }

    /** nfd_queue_shift; `opens` says whether the new file 0 can be opened. */
    method Shift(opens: bool) returns (ok: bool)
      requires Valid()
      modifies this
      ensures Valid() && ok == opens && queueFile == opens
      ensures files == Shifted(old(files), queueNum, opens) && history == old(history) + [Window(opens, [])]
    {
      ghost var before := files;
      var i := queueNum;
      while i > 0
        invariant Renames(files, i) == Renames(before, queueNum)
        invariant history == old(history)
      {
        files := RenameUp(files, i);
        i := i - 1;
      }
      ShiftMirrors(before, history, queueNum, opens);
      history := history + [Window(opens, [])];
      queueFile := opens;
      if opens { files := files[0 := []]; }
      return opens;
    }

    /** The reader's store: dropped when file 0 is not open. */
    method Store(r: Record)
      requires Valid()
      modifies this
      ensures Valid() && queueFile == old(queueFile)
      ensures history == if queueFile then Stored(old(history), r) else old(history)
      ensures forall k :: k > 0 ==> (k in files <==> k in old(files)) && (k in files ==> files[k] == old(files)[k])
    {
      if queueFile {
        AppendMirrors(files, history, queueNum, r);
        files := files[0 := files[0] + [r]];
        history := Stored(history, r);
      }
    }

    /** The inner loop: copies the matching flows of one file. */
    static method CopyFile(file: seq<Record>, filter: Filter, output: seq<Record>) returns (output': seq<Record>)
      ensures output' == output + Keep(file, filter)
      ensures output <= output' && Selected(output'[|output|..], file, filter)
    {
      hide Selected;
      output' := output;
      var pos := 0;
      while pos < |file|
        invariant 0 <= pos <= |file|
        invariant output' == output + Keep(file[..pos], filter)
      {
        assert file[..pos + 1][..pos] == file[..pos];
        if filter.None? || filter.value(file[pos]) {
          output' := output' + [file[pos]];
        }
        pos := pos + 1;
      }
      assert file[..pos] == file;
      assert output'[|output|..] == Keep(file, filter);
      KeepSelects(file, filter);
    }

    /**
      nfd_queue_add_flow: copies the matching flows of the last `backtrack` files, oldest first. Files in `unreadable`
      exist but cannot be opened; they are passed over like missing ones.
     */
    method AddFlow(filter: Filter, backtrack: int, unreadable: set<nat>) returns (output: seq<Record>)
      ensures output == Extract(files - unreadable, filter, Clamp(backtrack, queueNum))
      ensures if backtrack <= 0 then output == []
              else var read := if backtrack < queueNum then backtrack else queueNum;
                   Selected(output, Backlog(files - unreadable, read), filter)
    {
      hide Keep, Selected, Backlog;
      ExtractSelects(files - unreadable, filter, backtrack, queueNum);
      output := [];
      var i := if backtrack > queueNum then queueNum else backtrack;
      ghost var readable := files - unreadable;
      ghost var whole := Extract(readable, filter, Clamp(backtrack, queueNum));
      while i > 0
        invariant i <= queueNum
        invariant output + Extract(readable, filter, if i > 0 then i else 0) == whole
      {
        Concat(output, if i in readable then Keep(readable[i], filter) else [], Extract(readable, filter, i - 1));
        if i in files && i !in unreadable {
          output := CopyFile(files[i], filter, output);
        }
        i := i - 1;
      }
    }
  }
}
