/**
  The table of running actions: one slot per profile over its limit, a START command when it is opened and a STOP
  command when it expires.

  `Upserted` and `Expired` are what the code does, including when the table is (nearly) full. `Good` is what the
  daemon relies on. `RunIsGood` shows that a whole run keeps it exactly as long as every new action finds a free
  slot below the last one.
 */
module Actions {
  import opened Wrappers

  datatype Counters = Counters(bytes: nat, pkts: nat, flows: nat)

  datatype Entry = Entry(name: string, id: nat, counters: Counters, start: int, updated: int)

  /** A slot is empty, points to an action, or points to one that has been freed. */
  datatype Slot = Free | Live(entry: Entry) | Dangling

  datatype Command = Start | Stop

  /** An external command that was issued; start time and id make up the directory it is given. */
  datatype Event = Event(command: Command, name: string, start: int, id: nat)

  datatype Table = Table(slots: seq<Slot>, log: seq<Event>)

  predicate Named(slot: Slot, name: string) {
    slot.Live? && slot.entry.name == name
  }

  /** The first slot from `i` on with this name, |slots| if there is none. */
  function FindName(slots: seq<Slot>, name: string, i: nat): (k: nat)
    requires i <= |slots|
    ensures i <= k <= |slots| && (k < |slots| ==> Named(slots[k], name))
    ensures forall j :: i <= j < k ==> !Named(slots[j], name)
    decreases |slots| - i
  {
    if i == |slots| || Named(slots[i], name) then i else FindName(slots, name, i + 1)
  }

  function FindFree(slots: seq<Slot>, i: nat): (k: nat)
    requires i <= |slots|
    ensures i <= k <= |slots| && (k < |slots| ==> slots[k].Free?)
    ensures forall j :: i <= j < k ==> !slots[j].Free?
    decreases |slots| - i
  {
    if i == |slots| || slots[i].Free? then i else FindFree(slots, i + 1)
  }

  /** nfd_act_upsert: the table afterwards and the return value. */
  function Upserted(t: Table, name: string, c: Counters, start: int, now: int): (Table, bool) {
    var i := FindName(t.slots, name, 0);
    if i < |t.slots| then
      (t.(slots := t.slots[i := Live(t.slots[i].entry.(counters := c, updated := now))]), true)
    else
      var f := FindFree(t.slots, 0);
      if f == |t.slots| - 1 then (t.(slots := t.slots[f := Dangling]), false)   // freed while its slot points to it
      else if f < |t.slots| then
        (Table(t.slots[f := Live(Entry(name, f, c, start, now))], t.log + [Event(Start, name, start, f)]), true)
      else (t.(log := t.log + [Event(Start, name, start, 0)]), true)            // started, but in no slot
  }

  predicate Overdue(slot: Slot, delay: int, time: int) {
    slot.Live? && slot.entry.updated + delay < time
  }

  /** nfd_act_expire from slot `i` on; `clock` holds the time read at each slot. */
  function Expired(t: Table, delay: int, clock: seq<int>, i: nat): (r: Table)
    requires |clock| == |t.slots| && i <= |t.slots|
    ensures |r.slots| == |t.slots|
    decreases |t.slots| - i
  {
    if i == |t.slots| then t
    else if Overdue(t.slots[i], delay, clock[i]) then
      var e := t.slots[i].entry;
      Expired(Table(t.slots[i := Free], t.log + [Event(Stop, e.name, e.start, e.id)]), delay, clock, i + 1)
    else Expired(t, delay, clock, i + 1)
  }

  // ---------- What a single upsert is meant to do, and when it does ----------

  /** The live action of this name. */
  function Lookup(slots: seq<Slot>, name: string): Option<Entry> {
    var i := FindName(slots, name, 0);
    if i < |slots| then Some(slots[i].entry) else None
  }

  /** A name is already live, or a slot below the last one is free. */
  predicate Room(slots: seq<Slot>, name: string) {
    Lookup(slots, name).Some? || exists i :: 0 <= i < |slots| - 1 && slots[i].Free?
  }

  /** No slot is dangling, ids are slot indices, names are distinct. */
  ghost predicate WellFormed(slots: seq<Slot>) {
    (forall i :: 0 <= i < |slots| ==> !slots[i].Dangling?) &&
    (forall i :: 0 <= i < |slots| && slots[i].Live? ==> slots[i].entry.id == i) &&
    (forall i, j :: 0 <= i < j < |slots| && slots[i].Live? && slots[j].Live? ==>
       slots[i].entry.name != slots[j].entry.name)
  }

  /**
    What an upsert is for: the name is live with these counters and this time, every other name is as before,
    and START is issued, for the first slot that was free, exactly when the name was not live before.
   */
  ghost predicate MeetsUpsert(t: Table, name: string, c: Counters, start: int, now: int, t': Table, ok: bool) {
    WellFormed(t'.slots) && ok &&
    (forall n :: n != name ==> Lookup(t'.slots, n) == Lookup(t.slots, n)) &&
    match Lookup(t.slots, name)
    case Some(e) => t'.log == t.log && Lookup(t'.slots, name) == Some(e.(counters := c, updated := now))
    case None =>
      exists id: nat :: id < |t.slots| && t.slots[id].Free? && (forall j :: 0 <= j < id ==> !t.slots[j].Free?) &&
                        t'.log == t.log + [Event(Start, name, start, id)] &&
                        Lookup(t'.slots, name) == Some(Entry(name, id, c, start, now))
  }

  lemma LookupAt(slots: seq<Slot>, i: nat)
    requires WellFormed(slots) && i < |slots| && slots[i].Live?
    ensures Lookup(slots, slots[i].entry.name) == Some(slots[i].entry)
  {
    var k := FindName(slots, slots[i].entry.name, 0);
    assert Named(slots[i], slots[i].entry.name);
  }

  /** Replacing a free slot, or the slot of the same name, changes the lookup of that name only. */
  lemma Replace(slots: seq<Slot>, i: nat, e: Entry)
    requires WellFormed(slots) && i < |slots| && e.id == i
    requires Named(slots[i], e.name) || (slots[i].Free? && Lookup(slots, e.name).None?)
    ensures WellFormed(slots[i := Live(e)])
    ensures forall n :: Lookup(slots[i := Live(e)], n) == if n == e.name then Some(e) else Lookup(slots, n)
  {
    var slots' := slots[i := Live(e)];
    forall j | 0 <= j < |slots| && j != i ensures !Named(slots[j], e.name) {
      if Named(slots[j], e.name) { LookupAt(slots, j); }
    }
    forall n ensures Lookup(slots', n) == if n == e.name then Some(e) else Lookup(slots, n) {
      if n == e.name { LookupAt(slots', i); }
      else {
        var k, k' := FindName(slots, n, 0), FindName(slots', n, 0);
        if k < |slots| { assert slots'[k] == slots[k]; LookupAt(slots', k); }
        if k' < |slots| { assert slots'[k'] == slots[k']; LookupAt(slots, k'); }
      }
    }
  }

  /** Clearing a slot removes its name and no other. */
  lemma Clear(slots: seq<Slot>, i: nat)
    requires WellFormed(slots) && i < |slots| && slots[i].Live?
    ensures WellFormed(slots[i := Free])
    ensures forall n :: Lookup(slots[i := Free], n) == if n == slots[i].entry.name then None else Lookup(slots, n)
  {
    var slots', name := slots[i := Free], slots[i].entry.name;
    forall n ensures Lookup(slots', n) == if n == name then None else Lookup(slots, n) {
      var k, k' := FindName(slots, n, 0), FindName(slots', n, 0);
      if k < |slots| && n != name { assert slots'[k] == slots[k]; LookupAt(slots', k); }
      if k' < |slots| { assert slots'[k'] == slots[k']; LookupAt(slots, k'); LookupAt(slots, i); }
    }
  }

  /** An upsert does what it is for exactly when there is room; the test in the code is off by one slot. */
  lemma UpsertMeetsIffRoom(t: Table, name: string, c: Counters, start: int, now: int)
    requires WellFormed(t.slots)
    ensures var (t', ok) := Upserted(t, name, c, start, now);
      MeetsUpsert(t, name, c, start, now, t', ok) <==> Room(t.slots, name)
  {
    var (t', ok) := Upserted(t, name, c, start, now);
    var i, f := FindName(t.slots, name, 0), FindFree(t.slots, 0);
    if i < |t.slots| {
      Replace(t.slots, i, t.slots[i].entry.(counters := c, updated := now));
    } else if f == |t.slots| - 1 {
      assert t'.slots[f].Dangling?;
    } else if f < |t.slots| {
      Replace(t.slots, f, Entry(name, f, c, start, now));
      assert t.slots[f].Free?;
    }
  }

  /**
    Without room, the action goes into the last slot and is freed there if that slot is free; if it is not, START is
    issued for an action that is in no slot, and nothing will ever stop it.
   */
  lemma WithoutRoom(t: Table, name: string, c: Counters, start: int, now: int)
    requires !Room(t.slots, name)
    ensures var (t', ok) := Upserted(t, name, c, start, now);
      if |t.slots| > 0 && t.slots[|t.slots| - 1].Free? then
        !ok && t'.log == t.log && t'.slots == t.slots[|t.slots| - 1 := Dangling]
      else ok && t'.slots == t.slots && t'.log == t.log + [Event(Start, name, start, 0)]
  {
    var f := FindFree(t.slots, 0);
    if f < |t.slots| { assert t.slots[f].Free?; }
  }

  // ---------- Whole runs ----------

  /** nfd_act_eval_profile: a limit of zero is no limit; rates are whole units per second of the last window. */
  predicate OverLimit(limits: Counters, c: Counters, window: nat)
    requires window > 0
  {
    (limits.bytes != 0 && limits.bytes <= c.bytes / window) ||
    (limits.pkts != 0 && limits.pkts <= c.pkts / window) ||
    (limits.flows != 0 && limits.flows <= c.flows / window)
  }

  type Window = w: nat | w > 0 witness 1

  /** One evaluation of a profile, with the clock read before and after a START, or one pass of expiry. */
  datatype Op =
    | Evaluate(limits: Counters, window: Window, name: string, counters: Counters, start: int, now: int)
    | Expire(clock: seq<int>)

  predicate Upserts(op: Op) {
    op.Evaluate? && OverLimit(op.limits, op.counters, op.window)
  }

  function Step(t: Table, op: Op, delay: int): Table {
    if op.Expire? then (if |op.clock| == |t.slots| then Expired(t, delay, op.clock, 0) else t)
    else if Upserts(op) then Upserted(t, op.name, op.counters, op.start, op.now).0
    else t
  }

  function EndOf(op: Op, from: int): int {
    match op
    case Evaluate(_, _, _, _, _, now) => now
    case Expire(clock) => if clock == [] then from else clock[|clock| - 1]
  }

  /** The clock never runs backwards within an operation, nor between `from` and the operation. */
  ghost predicate Clocked(op: Op, from: int, size: nat) {
    match op
    case Evaluate(_, _, _, _, start, now) => from <= start <= now
    case Expire(clock) =>
      |clock| == size && (forall i :: 0 <= i < size ==> from <= clock[i]) &&
      (forall i, j :: 0 <= i < j < size ==> clock[i] <= clock[j])
  }

  function NewTable(size: nat): Table {
    Table(seq(size, _ => Free), [])
  }

  /** The table after a run on a table of `size` slots. */
  function Run(ops: seq<Op>, size: nat, delay: int): Table {
    if ops == [] then NewTable(size) else Step(Run(ops[..|ops| - 1], size, delay), ops[|ops| - 1], delay)
  }

  /** The last time the clock was read in a run that began at `t0`. */
  function Now(ops: seq<Op>, t0: int): int {
    if ops == [] then t0 else EndOf(ops[|ops| - 1], Now(ops[..|ops| - 1], t0))
  }

  ghost predicate Timely(ops: seq<Op>, size: nat, t0: int) {
    ops == [] || (Timely(ops[..|ops| - 1], size, t0) && Clocked(ops[|ops| - 1], Now(ops[..|ops| - 1], t0), size))
  }

  /** The counters and time of the latest evaluation of `name` that was over its limit. */
  function Latest(ops: seq<Op>, name: string): Option<(Counters, int)> {
    if ops == [] then None
    else
      var op := ops[|ops| - 1];
      if Upserts(op) && op.name == name then Some((op.counters, op.now)) else Latest(ops[..|ops| - 1], name)
  }

  // ---------- What the daemon relies on ----------

  /** The events of one name, in order. */
  function EventsOf(log: seq<Event>, name: string): seq<Event> {
    if log == [] then []
    else
      var e := log[|log| - 1];
      EventsOf(log[..|log| - 1], name) + if e.name == name then [e] else []
  }

  /**
    START, STOP, START, ..., each STOP with the start time and id, and so with the directory, of the START before it.
    The last one is a START exactly when the name is live, and then it is that of the live action.
   */
  predicate Paired(es: seq<Event>, live: Option<Entry>) {
    (forall i :: 0 <= i < |es| ==> es[i].command == if i % 2 == 0 then Start else Stop) &&
    (forall i :: 0 < i < |es| && i % 2 == 1 ==> es[i].start == es[i - 1].start && es[i].id == es[i - 1].id) &&
    (|es| % 2 == 1 <==> live.Some?) &&
    (live.Some? ==> es[|es| - 1].start == live.value.start && es[|es| - 1].id == live.value.id)
  }

  /** No two actions were ever given the same directory. */
  ghost predicate DirectoriesDistinct(log: seq<Event>) {
    forall j, k :: 0 <= j < k < |log| && log[j].command == Start && log[k].command == Start ==>
      (log[j].start, log[j].id) != (log[k].start, log[k].id)
  }

  ghost predicate Good(t: Table) {
    WellFormed(t.slots) && DirectoriesDistinct(t.log) &&
    forall n :: Paired(EventsOf(t.log, n), Lookup(t.slots, n))
  }

  /** A START whose action is gone lies strictly in the past; one whose action is live is still in its slot. */
  predicate Placed(t: Table, now: int, e: Event) {
    e.command == Start ==>
      e.id < |t.slots| && e.start <= now &&
      ((t.slots[e.id].Live? && t.slots[e.id].entry.start == e.start) || e.start < now)
  }

  /** The table against the history of over-limit evaluations. */
  ghost predicate Current(slots: seq<Slot>, now: int, delay: int, latest: string -> Option<(Counters, int)>) {
    forall n ::
      match Lookup(slots, n)
      case Some(e) => latest(n) == Some((e.counters, e.updated)) && e.start <= e.updated <= now
      case None => latest(n).Some? ==> latest(n).value.1 + delay < now
  }

  ghost predicate Inv(t: Table, now: int, delay: int, latest: string -> Option<(Counters, int)>) {
    Good(t) && Current(t.slots, now, delay, latest) && forall k :: 0 <= k < |t.log| ==> Placed(t, now, t.log[k])
  }

  lemma EventsAppend(log: seq<Event>, e: Event)
    ensures forall n :: EventsOf(log + [e], n) == if e.name == n then EventsOf(log, n) + [e] else EventsOf(log, n)
  {
    assert (log + [e])[..|log|] == log;
  }

  lemma StartPairs(es: seq<Event>, e: Entry)
    requires Paired(es, None)
    ensures Paired(es + [Event(Start, e.name, e.start, e.id)], Some(e))
  {}

  lemma StopPairs(es: seq<Event>, e: Entry)
    requires Paired(es, Some(e))
    ensures Paired(es + [Event(Stop, e.name, e.start, e.id)], None)
  {}

  lemma Wait(t: Table, now: int, now': int, delay: int, latest: string -> Option<(Counters, int)>)
    requires Inv(t, now, delay, latest) && now <= now'
    ensures Inv(t, now', delay, latest)
  {
    forall k | 0 <= k < |t.log| ensures Placed(t, now', t.log[k]) { assert Placed(t, now, t.log[k]); }
  }

  /** The latest evaluations after one more over-limit evaluation. */
  function Seen(latest: string -> Option<(Counters, int)>, name: string, c: Counters, now: int):
    string -> Option<(Counters, int)>
  {
    n => if n == name then Some((c, now)) else latest(n)
  }

  /** The log after a START for a slot that was free. */
  lemma StartLogged(t: Table, before: int, name: string, start: int, id: nat)
    requires DirectoriesDistinct(t.log) && before <= start && id < |t.slots| && t.slots[id].Free?
    requires forall k :: 0 <= k < |t.log| ==> Placed(t, before, t.log[k])
    ensures DirectoriesDistinct(t.log + [Event(Start, name, start, id)])
  {
    forall k | 0 <= k < |t.log| && t.log[k].command == Start ensures (t.log[k].start, t.log[k].id) != (start, id) {
      assert Placed(t, before, t.log[k]);
    }
  }

  lemma RefreshKeepsInv(t: Table, name: string, c: Counters, start: int, now: int, delay: int,
                        latest: string -> Option<(Counters, int)>, before: int)
    requires Inv(t, before, delay, latest) && before <= start <= now && Lookup(t.slots, name).Some?
    ensures Inv(Upserted(t, name, c, start, now).0, now, delay, Seen(latest, name, c, now))
  {
    hide EventsOf;
    UpsertMeetsIffRoom(t, name, c, start, now);
    var t' := Upserted(t, name, c, start, now).0;
    forall k | 0 <= k < |t'.log| ensures Placed(t', now, t'.log[k]) { assert Placed(t, before, t.log[k]); }
  }

  lemma CreateKeepsInv(t: Table, name: string, c: Counters, start: int, now: int, delay: int,
                       latest: string -> Option<(Counters, int)>, before: int)
    requires Inv(t, before, delay, latest) && before <= start <= now && Room(t.slots, name) &&
        Lookup(t.slots, name).None?
    ensures Inv(Upserted(t, name, c, start, now).0, now, delay, Seen(latest, name, c, now))
  {
    hide EventsOf, DirectoriesDistinct, Paired;
    UpsertMeetsIffRoom(t, name, c, start, now);
    var t' := Upserted(t, name, c, start, now).0;
    var id: nat :| id < |t.slots| && t.slots[id].Free? && t'.log == t.log + [Event(Start, name, start, id)] &&
                   Lookup(t'.slots, name) == Some(Entry(name, id, c, start, now));
    EventsAppend(t.log, Event(Start, name, start, id));
    StartLogged(t, before, name, start, id);
    assert Paired(EventsOf(t.log, name), Lookup(t.slots, name));
    StartPairs(EventsOf(t.log, name), Entry(name, id, c, start, now));
    forall n ensures Paired(EventsOf(t'.log, n), Lookup(t'.slots, n)) {
      assert Paired(EventsOf(t.log, n), Lookup(t.slots, n));
    }
    forall k | 0 <= k < |t.log| ensures Placed(t', now, t.log[k]) { assert Placed(t, before, t.log[k]); }
  }

  lemma UpsertKeepsInv(t: Table, name: string, c: Counters, start: int, now: int, delay: int,
                       latest: string -> Option<(Counters, int)>, before: int)
    requires Inv(t, before, delay, latest) && before <= start <= now && Room(t.slots, name)
    ensures Inv(Upserted(t, name, c, start, now).0, now, delay, Seen(latest, name, c, now))
  {
    if Lookup(t.slots, name).Some? {
      RefreshKeepsInv(t, name, c, start, now, delay, latest, before);
    } else {
      CreateKeepsInv(t, name, c, start, now, delay, latest, before);
    }
  }

  /** Stopping one overdue action. */
  lemma StopKeepsInv(t: Table, i: nat, delay: int, latest: string -> Option<(Counters, int)>, time: int)
    requires Inv(t, time, delay, latest) && 0 <= delay && i < |t.slots| && Overdue(t.slots[i], delay, time)
    ensures var e := t.slots[i].entry;
      Inv(Table(t.slots[i := Free], t.log + [Event(Stop, e.name, e.start, e.id)]), time, delay, latest)
  {
    var e := t.slots[i].entry;
    var t' := Table(t.slots[i := Free], t.log + [Event(Stop, e.name, e.start, e.id)]);
    LookupAt(t.slots, i);
    Clear(t.slots, i);
    hide EventsOf, Paired, Lookup;
    StopPairs(EventsOf(t.log, e.name), e);
    EventsAppend(t.log, Event(Stop, e.name, e.start, e.id));
    forall k | 0 <= k < |t.log| ensures Placed(t', time, t.log[k]) { assert Placed(t, time, t.log[k]); }
    forall k | 0 <= k < |t'.log| ensures Placed(t', time, t'.log[k]) {
      if k < |t.log| { assert Placed(t', time, t.log[k]); }
    }
  }

  lemma {:induction false} ExpireKeepsInv(t: Table, delay: int, clock: seq<int>, i: nat,
      latest: string -> Option<(Counters, int)>, before: int)
    requires |clock| == |t.slots| && i <= |t.slots| && 0 <= delay && Inv(t, before, delay, latest)
    requires forall j :: i <= j < |clock| ==> before <= clock[j]
    requires forall j, k :: i <= j < k < |clock| ==> clock[j] <= clock[k]
    ensures Inv(Expired(t, delay, clock, i), if i < |clock| then clock[|clock| - 1] else before, delay, latest)
    decreases |t.slots| - i
  {
    hide Inv;
    if i < |t.slots| {
      Wait(t, before, clock[i], delay, latest);
      if Overdue(t.slots[i], delay, clock[i]) {
        StopKeepsInv(t, i, delay, latest, clock[i]);
        var e := t.slots[i].entry;
        var t' := Table(t.slots[i := Free], t.log + [Event(Stop, e.name, e.start, e.id)]);
        ExpireKeepsInv(t', delay, clock, i + 1, latest, clock[i]);
      } else {
        ExpireKeepsInv(t, delay, clock, i + 1, latest, clock[i]);
      }
    }
  }

  /** After expiry, no slot is overdue at the time it was looked at, and the slots that remain are unchanged. */
  lemma {:induction false} ExpireLeaves(t: Table, delay: int, clock: seq<int>, i: nat)
    requires |clock| == |t.slots| && i <= |t.slots|
    ensures var t' := Expired(t, delay, clock, i);
      forall j :: 0 <= j < |t.slots| ==>
        t'.slots[j] == if j >= i && Overdue(t.slots[j], delay, clock[j]) then Free else t.slots[j]
    decreases |t.slots| - i
  {
    if i < |t.slots| {
      if Overdue(t.slots[i], delay, clock[i]) {
        var e := t.slots[i].entry;
        ExpireLeaves(Table(t.slots[i := Free], t.log + [Event(Stop, e.name, e.start, e.id)]), delay, clock, i + 1);
      } else {
        ExpireLeaves(t, delay, clock, i + 1);
      }
    }
  }

  /** The slots from `i` on whose action is overdue, in order. */
  ghost function Due(slots: seq<Slot>, delay: int, clock: seq<int>, i: nat): (ix: seq<nat>)
    requires |clock| == |slots| && i <= |slots|
    ensures forall k :: 0 <= k < |ix| ==> i <= ix[k] < |slots| && Overdue(slots[ix[k]], delay, clock[ix[k]])
    ensures forall j, k :: 0 <= j < k < |ix| ==> ix[j] < ix[k]
    ensures forall j :: i <= j < |slots| && Overdue(slots[j], delay, clock[j]) ==> j in ix
    decreases |slots| - i
  {
    if i == |slots| then []
    else if Overdue(slots[i], delay, clock[i]) then [i] + Due(slots, delay, clock, i + 1)
    else Due(slots, delay, clock, i + 1)
  }

  /** `events` is one STOP for each of the slots `ix`, with the name, the start time and the id of its action. */
  ghost predicate StopsFor(events: seq<Event>, slots: seq<Slot>, ix: seq<nat>) {
    |events| == |ix| &&
    forall k :: 0 <= k < |ix| ==>
      ix[k] < |slots| && slots[ix[k]].Live? &&
      var e := slots[ix[k]].entry; events[k] == Event(Stop, e.name, e.start, e.id)
  }

  /** The STOP events of the overdue slots from `i` on. */
  ghost function Stops(slots: seq<Slot>, delay: int, clock: seq<int>, i: nat): seq<Event>
    requires |clock| == |slots| && i <= |slots|
    decreases |slots| - i
  {
    if i == |slots| then []
    else if Overdue(slots[i], delay, clock[i]) then
      var e := slots[i].entry;
      [Event(Stop, e.name, e.start, e.id)] + Stops(slots, delay, clock, i + 1)
    else Stops(slots, delay, clock, i + 1)
  }

  lemma {:induction false} StopsForDue(slots: seq<Slot>, delay: int, clock: seq<int>, i: nat)
    requires |clock| == |slots| && i <= |slots|
    ensures StopsFor(Stops(slots, delay, clock, i), slots, Due(slots, delay, clock, i))
    decreases |slots| - i
  {
    if i < |slots| { StopsForDue(slots, delay, clock, i + 1); }
  }

  lemma {:induction false} ExpiredLog(t: Table, slots: seq<Slot>, delay: int, clock: seq<int>, i: nat)
    requires |clock| == |slots| == |t.slots| && i <= |slots| && t.slots[i..] == slots[i..]
    ensures Expired(t, delay, clock, i).log == t.log + Stops(slots, delay, clock, i)
    decreases |slots| - i
  {
    if i < |slots| {
      assert t.slots[i] == t.slots[i..][0] == slots[i];
      assert t.slots[i + 1..] == t.slots[i..][1..] == slots[i + 1..];
      if Overdue(slots[i], delay, clock[i]) {
        var e := slots[i].entry;
        ExpiredLog(Table(t.slots[i := Free], t.log + [Event(Stop, e.name, e.start, e.id)]), slots, delay, clock, i + 1);
      } else {
        ExpiredLog(t, slots, delay, clock, i + 1);
      }
    }
  }

  /** A pass logs one STOP for each slot it clears, in the order of the slots, and nothing else. */
  lemma ExpireLogs(t: Table, delay: int, clock: seq<int>)
    requires |clock| == |t.slots|
    ensures var log := Expired(t, delay, clock, 0).log;
      t.log <= log && StopsFor(log[|t.log|..], t.slots, Due(t.slots, delay, clock, 0))
  {
    ExpiredLog(t, t.slots, delay, clock, 0);
    StopsForDue(t.slots, delay, clock, 0);
  }

  /** Every over-limit evaluation of the run finds room. */
  ghost predicate AlwaysRoom(ops: seq<Op>, size: nat, delay: int) {
    forall k :: 0 <= k < |ops| && Upserts(ops[k]) ==> Room(Run(ops[..k], size, delay).slots, ops[k].name)
  }

  lemma AlwaysRoomBefore(ops: seq<Op>, size: nat, delay: int, m: nat)
    requires AlwaysRoom(ops, size, delay) && m <= |ops|
    ensures AlwaysRoom(ops[..m], size, delay)
  {
    forall k | 0 <= k < m && Upserts(ops[..m][k])
      ensures Room(Run(ops[..m][..k], size, delay).slots, ops[..m][k].name)
    {
      assert ops[..m][..k] == ops[..k];
    }
  }

  lemma {:induction false} RunSize(ops: seq<Op>, size: nat, delay: int)
    ensures |Run(ops, size, delay).slots| == size
  {
    if ops != [] { RunSize(ops[..|ops| - 1], size, delay); }
  }

  function LatestIn(ops: seq<Op>): string -> Option<(Counters, int)> {
    n => Latest(ops, n)
  }

  lemma SameLatest(t: Table, now: int, delay: int, latest: string -> Option<(Counters, int)>,
                   latest': string -> Option<(Counters, int)>)
    requires Inv(t, now, delay, latest) && forall n :: latest(n) == latest'(n)
    ensures Inv(t, now, delay, latest')
  {}

  lemma NewTableInv(size: nat, t0: int, delay: int)
    ensures Inv(NewTable(size), t0, delay, LatestIn([]))
  {
    forall n ensures Lookup(NewTable(size).slots, n).None? {}
  }

  /** The invariant of every run that always finds room. */
  lemma {:induction false} RunKeepsInv(ops: seq<Op>, size: nat, delay: int, t0: int)
    requires Timely(ops, size, t0) && 0 <= delay && AlwaysRoom(ops, size, delay)
    ensures Inv(Run(ops, size, delay), Now(ops, t0), delay, LatestIn(ops))
    decreases |ops|
  {
    if ops == [] {
      NewTableInv(size, t0, delay);
    } else {
      var m := |ops| - 1;
      var before, op := ops[..m], ops[m];
      AlwaysRoomBefore(ops, size, delay, m);
      RunKeepsInv(before, size, delay, t0);
      RunSize(before, size, delay);
      var t, from := Run(before, size, delay), Now(before, t0);
      var latest := LatestIn(before);
      if op.Expire? {
        ExpireKeepsInv(t, delay, op.clock, 0, latest, from);
      } else if Upserts(op) {
        assert Room(t.slots, ops[m].name);
        UpsertKeepsInv(t, op.name, op.counters, op.start, op.now, delay, latest, from);
        latest := Seen(latest, op.name, op.counters, op.now);
      } else {
        Wait(t, from, op.now, delay, latest);
      }
      SameLatest(Run(ops, size, delay), Now(ops, t0), delay, latest, LatestIn(ops));
    }
  }

  /** A second START in a row is out of turn. */
  lemma SecondStart(log: seq<Event>, name: string, start: int, id: nat)
    requires Paired(EventsOf(log, name), None)
    ensures !Paired(EventsOf(log + [Event(Start, name, start, id)], name), None)
  {
    EventsAppend(log, Event(Start, name, start, id));
  }

  lemma NoRoomBreaks(t: Table, name: string, c: Counters, start: int, now: int)
    requires Good(t) && !Room(t.slots, name)
    ensures !Good(Upserted(t, name, c, start, now).0)
  {
    hide DirectoriesDistinct, Paired, Lookup, EventsOf;
    WithoutRoom(t, name, c, start, now);
    var t' := Upserted(t, name, c, start, now).0;
    var last := |t.slots| - 1;
    assert Lookup(t.slots, name).None?;
    if last >= 0 && t.slots[last].Free? {
      assert t'.slots[last].Dangling?;
    } else {
      assert Paired(EventsOf(t.log, name), Lookup(t.slots, name));
      SecondStart(t.log, name, start, 0);
    }
  }

  /**
    Over a whole run the table stays good - ids are slots, one entry a name, START and STOP alternate for each name
    with START last exactly while it is live, every STOP is for the directory of the START before it, no directory is
    used twice - if and only if every over-limit
    evaluation of a new name finds a free slot below the last.
   */
  lemma RunIsGood(ops: seq<Op>, size: nat, delay: int, t0: int)
    requires Timely(ops, size, t0) && 0 <= delay
    ensures (forall k :: 0 <= k <= |ops| ==> Good(Run(ops[..k], size, delay))) <==> AlwaysRoom(ops, size, delay)
  {
    if AlwaysRoom(ops, size, delay) {
      forall k | 0 <= k <= |ops| ensures Good(Run(ops[..k], size, delay)) {
        PrefixTimely(ops, size, t0, k);
        AlwaysRoomBefore(ops, size, delay, k);
        RunKeepsInv(ops[..k], size, delay, t0);
      }
    }
    if forall k :: 0 <= k <= |ops| ==> Good(Run(ops[..k], size, delay)) {
      forall k | 0 <= k < |ops| && Upserts(ops[k]) ensures Room(Run(ops[..k], size, delay).slots, ops[k].name) {
        var next, op := ops[..k + 1], ops[k];
        assert next[..k] == ops[..k] && Good(Run(ops[..k], size, delay)) && Good(Run(next, size, delay));
        if !Room(Run(ops[..k], size, delay).slots, op.name) {
          NoRoomBreaks(Run(ops[..k], size, delay), op.name, op.counters, op.start, op.now);
        }
      }
    }
  }

  lemma {:induction false} PrefixTimely(ops: seq<Op>, size: nat, t0: int, k: nat)
    requires Timely(ops, size, t0) && k <= |ops|
    ensures Timely(ops[..k], size, t0)
    decreases |ops|
  {
    if k < |ops| {
      assert ops[..|ops| - 1][..k] == ops[..k];
      PrefixTimely(ops[..|ops| - 1], size, t0, k);
    } else {
      assert ops[..k] == ops;
    }
  }

  /**
    After a pass of expiry, a live name carries the counters and time of its latest over-limit evaluation, which was
    at most `delay` old when its slot was looked at; a name that was over its limit once and is not live is
    overdue by the end of the pass.
   */
  lemma LiveAfterPass(ops: seq<Op>, size: nat, delay: int, t0: int, clock: seq<int>, name: string)
    requires Timely(ops, size, t0) && 0 <= delay && AlwaysRoom(ops, size, delay) && 0 < size
    requires ops != [] && ops[|ops| - 1] == Expire(clock)
    ensures |clock| == size
    ensures var latest := Latest(ops, name);
      match Lookup(Run(ops, size, delay).slots, name)
      case Some(e) => latest == Some((e.counters, e.updated)) && e.id < size && clock[e.id] <= e.updated + delay
      case None => latest.Some? ==> latest.value.1 + delay < clock[size - 1]
  {
    var m := |ops| - 1;
    RunKeepsInv(ops, size, delay, t0);
    RunSize(ops[..m], size, delay);
    ExpireLeaves(Run(ops[..m], size, delay), delay, clock, 0);
    var slots := Run(ops, size, delay).slots;
    var i := FindName(slots, name, 0);
    if i < |slots| { assert !Overdue(slots[i], delay, clock[i]); }
    assert LatestIn(ops)(name) == Latest(ops, name);
  }

  /** When the whole pass reads one time, the live names are exactly those over their limit within `delay` of it. */
  lemma LiveIffRecent(ops: seq<Op>, size: nat, delay: int, t0: int, clock: seq<int>, time: int, name: string)
    requires Timely(ops, size, t0) && 0 <= delay && AlwaysRoom(ops, size, delay) && 0 < size
    requires ops != [] && ops[|ops| - 1] == Expire(clock) && forall i :: 0 <= i < |clock| ==> clock[i] == time
    ensures Lookup(Run(ops, size, delay).slots, name).Some? <==>
            Latest(ops, name).Some? && time <= Latest(ops, name).value.1 + delay
  {
    LiveAfterPass(ops, size, delay, t0, clock, name);
  }

  lemma {:induction false} LimitIsRate(limit: nat, count: nat, window: Window)
    ensures limit <= count / window <==> limit * window <= count
  {
    var q, r := count / window, count % window;
    assert count == q * window + r;
    if limit <= q { assert limit * window <= q * window; }
    if q < limit { assert (q + 1) * window <= limit * window; }
  }

  /** Some limit is set and reached: the window holds at least limit * seconds bytes, packets or flows. */
  predicate ReachesLimit(limits: Counters, c: Counters, window: nat) {
    (limits.bytes > 0 && limits.bytes * window <= c.bytes) ||
    (limits.pkts > 0 && limits.pkts * window <= c.pkts) ||
    (limits.flows > 0 && limits.flows * window <= c.flows)
  }

  /** The integer tests on each of the three rates together say that a limit is reached. */
  lemma OverLimitIs(limits: Counters, c: Counters, window: Window)
    ensures OverLimit(limits, c, window) <==> ReachesLimit(limits, c, window)
  {
    LimitIsRate(limits.bytes, c.bytes, window);
    LimitIsRate(limits.pkts, c.pkts, window);
    LimitIsRate(limits.flows, c.flows, window);
  }

  /** In no run does the last slot hold a live action: a table of `size` slots has room for size - 1. */
  lemma {:induction false} LastSlotUnused(ops: seq<Op>, size: nat, delay: int)
    requires 0 < size
    ensures |Run(ops, size, delay).slots| == size && !Run(ops, size, delay).slots[size - 1].Live?
    decreases |ops|
  {
    if ops != [] {
      var m := |ops| - 1;
      LastSlotUnused(ops[..m], size, delay);
      var t, op := Run(ops[..m], size, delay), ops[m];
      if op.Expire? && |op.clock| == size { ExpireLeaves(t, delay, op.clock, 0); }
    }
  }

  /** Until an upsert finds no room, the last slot is free. */
  lemma {:induction false} LastSlotFree(ops: seq<Op>, size: nat, delay: int)
    requires AlwaysRoom(ops, size, delay) && 0 < size
    ensures |Run(ops, size, delay).slots| == size && Run(ops, size, delay).slots[size - 1].Free?
    decreases |ops|
  {
    if ops != [] {
      var m := |ops| - 1;
      AlwaysRoomBefore(ops, size, delay, m);
      LastSlotFree(ops[..m], size, delay);
      var t, op := Run(ops[..m], size, delay), ops[m];
      if op.Expire? {
        if |op.clock| == size { ExpireLeaves(t, delay, op.clock, 0); }
      } else if Upserts(op) {
        assert Room(t.slots, ops[m].name);
        RoomMeansFree(t.slots, ops[m].name);
      }
    }
  }

  /**
    The two failures come in this order: the first upsert of a run that finds no room leaves the last slot dangling,
    and only later ones, which find it so, issue a START that nothing will stop.
   */
  lemma FirstFailureDangles(ops: seq<Op>, size: nat, delay: int, name: string, c: Counters, start: int, now: int)
    requires 0 < size && !Room(Run(ops, size, delay).slots, name)
    ensures var t := Run(ops, size, delay);
      var (t', ok) := Upserted(t, name, c, start, now);
      |t.slots| == size && (AlwaysRoom(ops, size, delay) ==> t.slots[size - 1].Free?) &&
      if t.slots[size - 1].Free? then !ok && t'.log == t.log && t'.slots == t.slots[size - 1 := Dangling]
      else ok && t.slots[size - 1].Dangling? && t'.slots == t.slots && t'.log == t.log + [Event(Start, name, start, 0)]
  {
    LastSlotUnused(ops, size, delay);
    if AlwaysRoom(ops, size, delay) { LastSlotFree(ops, size, delay); }
    WithoutRoom(Run(ops, size, delay), name, c, start, now);
  }

  /** Two profiles over their limits already break a table of two slots; a third one is started and never stopped. */
  lemma TwoSlotsHoldOneAction(c: Counters)
    ensures var t1 := Upserted(NewTable(2), "a", c, 1, 1).0;
      var (t2, ok2) := Upserted(t1, "b", c, 2, 2);
      var (t3, ok3) := Upserted(t2, "c", c, 3, 3);
      Good(t1) && !ok2 && t2.slots[1].Dangling? && t2.log == t1.log && !Good(t2) &&
      ok3 && t3.slots == t2.slots && t3.log == t2.log + [Event(Start, "c", 3, 0)]
  {
    var t0 := NewTable(2);
    NewTableInv(2, 0, 0);
    assert t0.slots[0].Free?;
    UpsertKeepsInv(t0, "a", c, 1, 1, 0, LatestIn([]), 0);
    var t1 := Upserted(t0, "a", c, 1, 1).0;
    assert t1.slots[0] == Live(Entry("a", 0, c, 1, 1)) && t1.slots[1].Free?;
    LookupNone(t1.slots, "b");
    WithoutRoom(t1, "b", c, 2, 2);
    var t2 := Upserted(t1, "b", c, 2, 2).0;
    LookupNone(t2.slots, "c");
    WithoutRoom(t2, "c", c, 3, 3);
  }

  lemma LookupNone(slots: seq<Slot>, name: string)
    requires forall i :: 0 <= i < |slots| ==> !Named(slots[i], name)
    ensures Lookup(slots, name).None?
  {}

  // ---------- The table in memory ----------

  class Action {
    var name: string
    var id: nat
    var counters: Counters
    var tmStart: int
    var tmUpdated: int

    ghost function View(): Entry
      reads this
    {
      Entry(name, id, counters, tmStart, tmUpdated)
    }

    /** calloc, which leaves the id at 0 until a slot is found, and the fields filled in later on. */
    constructor (name: string, c: Counters, start: int, now: int)
      ensures View() == Entry(name, 0, c, start, now)
    {
      this.name, id, counters, tmStart, tmUpdated := name, 0, c, start, now;
    }
  }

  class ActionTable {
    const actions: array<Action?>
    ghost var table: Table

    /** The slot array holds what `table` says; pointers to live actions are not shared. */
    ghost predicate Valid()
      reads this, actions, actions[..]
    {
      |table.slots| == actions.Length &&
      (forall i :: 0 <= i < actions.Length ==> (actions[i] == null <==> table.slots[i].Free?)) &&
      (forall i :: 0 <= i < actions.Length && table.slots[i].Live? ==>
         actions[i] != null && actions[i].View() == table.slots[i].entry) &&
      (forall i, j :: 0 <= i < j < actions.Length && actions[i] != null ==> actions[i] != actions[j])
    }

    /** Following any pointer in the table is safe. */
    ghost predicate Usable()
      reads this, actions, actions[..]
    {
      Valid() && forall i :: 0 <= i < |table.slots| ==> !table.slots[i].Dangling?
    }

    /** nfd_act_init */
    constructor (maxActions: nat)
      ensures Usable() && fresh(actions) && table == NewTable(maxActions)
    {
      actions := new Action?[maxActions](_ => null);
      table := NewTable(maxActions);
    }

    /** The lookup loop: the index of the action of this name, the table size if there is none. */
    method SearchName(name: string) returns (i: nat)
      requires Usable()
      ensures i == FindName(table.slots, name, 0)
    {
      i := 0;
      while i < actions.Length
        invariant 0 <= i <= actions.Length
        invariant FindName(table.slots, name, 0) == FindName(table.slots, name, i)
      {
        if actions[i] != null && actions[i].name == name { break; }
        i := i + 1;
      }
    }

    method SearchFree() returns (f: nat)
      requires Usable()
      ensures f == FindFree(table.slots, 0)
    {
      f := 0;
      while f < actions.Length && actions[f] != null
        invariant 0 <= f <= actions.Length
        invariant FindFree(table.slots, 0) == FindFree(table.slots, f)
      {
        f := f + 1;
      }
    }

    /** The action in slot `i` is over its limit again. */
    method Refresh(i: nat, c: Counters, now: int)
      requires Valid() && i < actions.Length && table.slots[i].Live?
      modifies this`table, actions[i]
      ensures Valid()
      ensures var e := old(table).slots[i].entry;
        table == old(table).(slots := old(table).slots[i := Live(e.(counters := c, updated := now))])
    {
      var a := actions[i];
      a.tmUpdated, a.counters := now, c;
      table := table.(slots := table.slots[i := Live(table.slots[i].entry.(counters := c, updated := now))]);
    }

    /** Puts an action that no slot points to yet into the free slot `f`. */
    method Place(a: Action, f: nat)
      requires Valid() && f < actions.Length && actions[f] == null && a !in actions[..]
      modifies this`table, actions, a
      ensures Valid() && actions[f] == a && a.View() == old(a.View()).(id := f)
      ensures table == old(table).(slots := old(table).slots[f := Live(a.View())])
    {
      a.id := f;
      actions[f] := a;
      table := table.(slots := table.slots[f := Live(a.View())]);
    }

    /** nfd_act_upsert; `start` and `now` are the times read when an action is created and at the end. */
    method Upsert(name: string, c: Counters, start: int, now: int) returns (ok: bool)
      requires Usable()
      modifies this, actions, actions[..]
      ensures Valid() && (table, ok) == Upserted(old(table), name, c, start, now)
      ensures Room(old(table).slots, name) ==> Usable()
    {
      RoomMeansFree(table.slots, name);
      ghost var t := table;
      var i := SearchName(name);
      if i < actions.Length {
        Refresh(i, c, now);
        return true;
      }
      var f := SearchFree();
      var a := new Action(name, c, start, now);
      if f < actions.Length {
        Place(a, f);
      }
      if f == actions.Length - 1 {
        // free(a), while actions[f] keeps pointing to it
        table := table.(slots := table.slots[f := Dangling]);
        assert table.slots == t.slots[f := Dangling];
        return false;
      }
      table := table.(log := table.log + [Event(Start, name, start, a.id)]);
      return true;
    }

    /** nfd_act_expire; `clock[i]` is the time read at slot `i`. */
    method Expire(delay: int, clock: seq<int>)
      requires Usable() && |clock| == actions.Length
      modifies this, actions
      ensures Usable() && table == Expired(old(table), delay, clock, 0)
      ensures var was, due := old(table), Due(old(table).slots, delay, clock, 0);
        was.log <= table.log && StopsFor(table.log[|was.log|..], was.slots, due) &&
        forall j :: 0 <= j < actions.Length ==> table.slots[j] == if j in due then Free else was.slots[j]
    {
      hide StopsFor;
      ghost var t0 := table;
      ExpireLogs(t0, delay, clock);
      ExpireLeaves(t0, delay, clock, 0);
      var i := 0;
      while i < actions.Length
        invariant 0 <= i <= actions.Length
        invariant Usable()
        invariant Expired(table, delay, clock, i) == Expired(t0, delay, clock, 0)
      {
        if actions[i] != null && actions[i].tmUpdated + delay < clock[i] {
          var a := actions[i];
          table := Table(table.slots[i := Free], table.log + [Event(Stop, a.name, a.tmStart, a.id)]);
          actions[i] := null;
        }
        i := i + 1;
      }
    }

    /** nfd_act_eval_profile; the length of the window is divided by only where there is a limit. */
    method EvalProfile(limits: Counters, window: nat, name: string, c: Counters, start: int, now: int) returns (r: bool)
      requires Usable() && (window > 0 || limits == Counters(0, 0, 0))
      modifies this, actions, actions[..]
      ensures Valid()
      ensures r <==> ReachesLimit(limits, c, window)
      ensures table == if r then Upserted(old(table), name, c, start, now).0 else old(table)
      ensures window > 0 ==> table == Step(old(table), Evaluate(limits, window, name, c, start, now), 0)
      ensures !r || Room(old(table).slots, name) ==> Usable()
    {
      if window > 0 { OverLimitIs(limits, c, window); }
      hide ReachesLimit;
      var overLimit := false;
      if limits.bytes != 0 && limits.bytes <= c.bytes / window { overLimit := true; }
      if limits.pkts != 0 && limits.pkts <= c.pkts / window { overLimit := true; }
      if limits.flows != 0 && limits.flows <= c.flows / window { overLimit := true; }
      if !overLimit { return false; }
      var _ := Upsert(name, c, start, now);
      r := true;
    }
  }

  lemma RoomMeansFree(slots: seq<Slot>, name: string)
    ensures Room(slots, name) ==> FindName(slots, name, 0) < |slots| || FindFree(slots, 0) < |slots| - 1
  {}
}
