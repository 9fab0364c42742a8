/**
  The pool of rule ids of the older daemon of main.c, handed out in cyclic order.

  `Next` is the first free id from the cursor on. `RunIsApart` says exactly when the rules of a run have different
  ids; `RunConserves` accounts for every id in every run.
 */
module RuleIds {

  // ---------- The pool ----------

  function Succ(id: nat, n: nat): nat {
    if id + 1 >= n then 0 else id + 1
  }

  /** The id `d` steps after the cursor. */
  function Cyclic(last: nat, d: nat, n: nat): (id: nat)
    requires last < n
    ensures id < n
  {
    if d == 0 then last else Succ(Cyclic(last, d - 1, n), n)
  }

  lemma {:induction false} CyclicIs(last: nat, d: nat, n: nat)
    requires last < n && d <= n
    ensures Cyclic(last, d, n) == if last + d < n then last + d else last + d - n
    decreases d
  {
    if d > 0 { CyclicIs(last, d - 1, n); }
  }

  predicate AllTaken(bits: seq<bool>) {
    forall i :: 0 <= i < |bits| ==> bits[i]
  }

  /** How many steps the search takes to a free id. */
  function Distance(bits: seq<bool>, last: nat, d: nat): (r: nat)
    requires last < |bits| && d <= |bits|
    ensures d <= r <= |bits| && (r < |bits| ==> !bits[Cyclic(last, r, |bits|)])
    ensures forall e :: d <= e < r ==> bits[Cyclic(last, e, |bits|)]
    decreases |bits| - d
  {
    if d == |bits| || !bits[Cyclic(last, d, |bits|)] then d else Distance(bits, last, d + 1)
  }

  /** Every id is some number of steps, less than a full turn, away from the cursor. */
  lemma Reached(last: nat, id: nat, n: nat) returns (d: nat)
    requires last < n && id < n
    ensures d < n && Cyclic(last, d, n) == id
  {
    d := if id >= last then id - last else id + n - last;
    CyclicIs(last, d, n);
  }

  lemma FullTurnIffAllTaken(bits: seq<bool>, last: nat)
    requires last < |bits|
    ensures Distance(bits, last, 0) == |bits| <==> AllTaken(bits)
  {
    if Distance(bits, last, 0) == |bits| {
      forall i | 0 <= i < |bits| ensures bits[i] { var d := Reached(last, i, |bits|); }
    }
  }

  /** The id handed out, and the bits and the cursor afterwards. With none left that is 0, which is also an id. */
  function Next(bits: seq<bool>, last: nat): (r: (nat, seq<bool>, nat))
    requires last < |bits|
  {
    if AllTaken(bits) then (0, bits, Cyclic(last, 1, |bits|))
    else
      FullTurnIffAllTaken(bits, last);
      var id := Cyclic(last, Distance(bits, last, 0), |bits|);
      (id, bits[id := true], id)
  }

  /** The id handed out is the first free one from the cursor on, in cyclic order, whenever there is one. */
  lemma NextIsFirstFree(bits: seq<bool>, last: nat)
    requires last < |bits| && !AllTaken(bits)
    ensures var (id, bits', last') := Next(bits, last);
      id < |bits| && !bits[id] && bits' == bits[id := true] && last' == id &&
      exists d: nat :: d < |bits| && Cyclic(last, d, |bits|) == id &&
                       forall e: nat :: e < d ==> bits[Cyclic(last, e, |bits|)]
  {
    FullTurnIffAllTaken(bits, last);
    assert Cyclic(last, Distance(bits, last, 0), |bits|) == Next(bits, last).0;
  }

  /** In the order that begins after `last` and goes around the end of the pool, no free id is before `id`. */
  predicate FirstAfter(bits: seq<bool>, last: int, id: nat) {
    id < |bits| && !bits[id] &&
    forall i :: 0 <= i < |bits| && !bits[i] ==>
      (if id > last then id else id + |bits|) <= (if i > last then i else i + |bits|)
  }

  /** The id handed out is the first free one, counted from the cursor itself. */
  lemma NextFollowsCursor(bits: seq<bool>, last: nat)
    requires last < |bits| && !AllTaken(bits)
    ensures FirstAfter(bits, last - 1, Next(bits, last).0)
  {
    var id, n := Next(bits, last).0, |bits|;
    NextIsFirstFree(bits, last);
    var d: nat :| d < n && Cyclic(last, d, n) == id && forall e: nat :: e < d ==> bits[Cyclic(last, e, n)];
    CyclicIs(last, d, n);
    forall i | 0 <= i < n && !bits[i] ensures (if id >= last then id else id + n) <= (if i >= last then i else i + n) {
      var e := Reached(last, i, n);
      CyclicIs(last, e, n);
      assert d <= e;
    }
  }

  /**
    A search that finds all ids taken hands out 0 and leaves the cursor one further on. So whatever ids are then given
    back, the next rule gets the first free one after the cursor's old place, and that place only as the last resort.
   */
  lemma AfterExhaustion(bits: seq<bool>, last: nat, bits': seq<bool>)
    requires last < |bits| == |bits'| && AllTaken(bits) && !AllTaken(bits')
    ensures var (id, same, cursor) := Next(bits, last);
      id == 0 && same == bits && cursor < |bits| && FirstAfter(bits', last, Next(bits', cursor).0)
  {
    CyclicIs(last, 1, |bits|);
    NextFollowsCursor(bits', Next(bits, last).2);
  }

  /** With one id given back after exhaustion, the next rule gets that one. */
  lemma OneGivenBack(bits: seq<bool>, last: nat, id: nat)
    requires last < |bits| && id < |bits| && AllTaken(bits)
    ensures Next(bits[id := false], Next(bits, last).2).0 == id
  {
    assert !bits[id := false][id];
    AfterExhaustion(bits, last, bits[id := false]);
  }

  class IdPool {
    const ids: array<bool>
    var idLast: nat

    ghost predicate Valid()
      reads this
    {
      ids.Length > 0 ==> idLast < ids.Length
    }

    constructor (idNum: nat)
      ensures Valid() && fresh(ids) && ids[..] == seq(idNum, _ => false) && idLast == 0
    {
      ids := new bool[idNum](_ => false);
      idLast := 0;
      new;
      assert ids[..] == seq(idNum, _ => false);
    }

    /** get_next_id */
    method GetNextId() returns (id: nat)
      requires Valid()
      modifies this`idLast, ids
      ensures Valid()
      ensures ids.Length == 0 ==> id == 0 && idLast == old(idLast)
      ensures ids.Length > 0 ==> (id, ids[..], idLast) == Next(old(ids[..]), old(idLast))
    {
      if ids.Length == 0 { return 0; }
      ghost var bits, from, n := ids[..], idLast, ids.Length;
      FullTurnIffAllTaken(bits, from);
      var i := 0;
      while ids[idLast]
        invariant 0 <= i <= n && idLast == Cyclic(from, i, n) && ids[..] == bits
        invariant Distance(bits, from, 0) == if i < n then Distance(bits, from, i) else n
        decreases n + 1 - i
      {
        idLast := idLast + 1;
        i := i + 1;
        if idLast >= ids.Length { idLast := 0; }
        if i > ids.Length {
          CyclicIs(from, n, n);
          assert Cyclic(from, n + 1, n) == Succ(from, n) == Cyclic(from, 1, n);
          return 0;
        }
      }
      ids[idLast] := true;
      return idLast;
    }

    /** The release of an id after a successful command. */
    method Release(id: nat)
      requires id < ids.Length
      modifies ids
      ensures ids[..] == old(ids[..])[id := false]
    {
      ids[id] := false;
    }
  }

  // ---------- Rules and their ids over whole runs ----------

  /** The pool, and the ids of the rules that are active, by node. */
  datatype Rules = Rules(bits: seq<bool>, last: nat, live: map<nat, nat>)

  /** A rule is added for a node, or removed; a removal gives the id back only if its command went through. */
  datatype Op = New(node: nat) | Del(node: nat, commandOk: bool)

  /** exec_node_cmd, less the offset that is added to every id, and the bookkeeping of its caller. */
  function Step(s: Rules, op: Op): Rules
    requires s.last < |s.bits|
  {
    match op
    case New(k) =>
      var (id, bits, last) := Next(s.bits, s.last);
      Rules(bits, last, s.live[k := id])
    case Del(k, ok) =>
      if k !in s.live then s
      else Rules(if ok && s.live[k] < |s.bits| then s.bits[s.live[k] := false] else s.bits, s.last, s.live - {k})
  }

  /** Active rules have different ids, all of them marked as taken. */
  ghost predicate Apart(s: Rules) {
    s.last < |s.bits| &&
    (forall k :: k in s.live ==> s.live[k] < |s.bits| && s.bits[s.live[k]]) &&
    (forall j, k :: j in s.live && k in s.live && j != k ==> s.live[j] != s.live[k])
  }

  /** A new rule keeps ids apart exactly when an id is free, or none is but no active rule has id 0. */
  lemma NewKeepsIdsApart(s: Rules, node: nat)
    requires Apart(s) && node !in s.live
    ensures Apart(Step(s, New(node))) <==> !AllTaken(s.bits) || forall k :: k in s.live ==> s.live[k] != 0
  {
    var s' := Step(s, New(node));
    FullTurnIffAllTaken(s.bits, s.last);
    if AllTaken(s.bits) {
      forall k | k in s.live ensures s'.live[k] == s.live[k] {}
      if exists k :: k in s.live && s.live[k] == 0 {
        var k :| k in s.live && s.live[k] == 0;
        assert k != node && s'.live[k] == s'.live[node];
      }
    }
  }

  lemma DelKeepsIdsApart(s: Rules, node: nat, ok: bool)
    requires Apart(s)
    ensures Apart(Step(s, Del(node, ok)))
  {}

  // ---------- Every id is accounted for ----------

  function Taken(bits: seq<bool>): nat {
    if bits == [] then 0 else Taken(bits[..|bits| - 1]) + if bits[|bits| - 1] then 1 else 0
  }

  lemma {:induction false} TakenUpdate(bits: seq<bool>, i: nat, b: bool)
    requires i < |bits|
    ensures Taken(bits[i := b]) == Taken(bits) - (if bits[i] then 1 else 0) + (if b then 1 else 0)
    decreases |bits|
  {
    var m := |bits| - 1;
    if i == m {
      assert bits[i := b][..m] == bits[..m];
    } else {
      assert bits[i := b][..m] == bits[..m][i := b];
      TakenUpdate(bits[..m], i, b);
    }
  }

  lemma {:induction false} TakenAll(bits: seq<bool>)
    ensures Taken(bits) <= |bits| && (Taken(bits) == |bits| <==> AllTaken(bits))
    decreases |bits|
  {
    if bits != [] {
      TakenAll(bits[..|bits| - 1]);
      if AllTaken(bits) { assert AllTaken(bits[..|bits| - 1]); }
    }
  }

  /** A run on `n` ids, all free at first. */
  function Run(ops: seq<Op>, n: nat): (s: Rules)
    requires n > 0
    ensures |s.bits| == n && s.last < n
  {
    if ops == [] then Rules(seq(n, _ => false), 0, map[])
    else
      var s := Run(ops[..|ops| - 1], n);
      FullTurnIffAllTaken(s.bits, s.last);
      Step(s, ops[|ops| - 1])
  }

  /** Rules are added only for nodes that have none. */
  ghost predicate Proper(ops: seq<Op>, n: nat)
    requires n > 0
  {
    forall k :: 0 <= k < |ops| && ops[k].New? ==> ops[k].node !in Run(ops[..k], n).live
  }

  /** Whenever a rule is added an id is free, or no active rule has id 0. */
  ghost predicate ZeroIsSpare(ops: seq<Op>, n: nat)
    requires n > 0
  {
    forall k :: 0 <= k < |ops| && ops[k].New? ==>
      var s := Run(ops[..k], n); !AllTaken(s.bits) || forall j :: j in s.live ==> s.live[j] != 0
  }

  /** The removals of active rules whose command failed: their ids stay taken. */
  function FailedDels(ops: seq<Op>, n: nat): nat
    requires n > 0
  {
    if ops == [] then 0
    else
      var before, op := ops[..|ops| - 1], ops[|ops| - 1];
      FailedDels(before, n) + if op.Del? && !op.commandOk && op.node in Run(before, n).live then 1 else 0
  }

  /** The rules that were added with no id left: they were given id 0, which was taken. */
  function SharedNews(ops: seq<Op>, n: nat): nat
    requires n > 0
  {
    if ops == [] then 0
    else
      var before, op := ops[..|ops| - 1], ops[|ops| - 1];
      SharedNews(before, n) + if op.New? && AllTaken(Run(before, n).bits) then 1 else 0
  }

  /** The removals that gave back an id that was free already. */
  function DoubleReleases(ops: seq<Op>, n: nat): nat
    requires n > 0
  {
    if ops == [] then 0
    else
      var before, op := ops[..|ops| - 1], ops[|ops| - 1];
      var s := Run(before, n);
      DoubleReleases(before, n) +
      if op.Del? && op.commandOk && op.node in s.live && s.live[op.node] < n && !s.bits[s.live[op.node]] then 1 else 0
  }

  lemma {:induction false} NoneTaken(n: nat)
    ensures Taken(seq(n, _ => false)) == 0
    decreases n
  {
    if n > 0 {
      assert seq(n, _ => false)[..n - 1] == seq(n - 1, _ => false);
      NoneTaken(n - 1);
    }
  }

  lemma {:induction false} LiveInPool(ops: seq<Op>, n: nat)
    requires n > 0
    ensures forall k :: k in Run(ops, n).live ==> Run(ops, n).live[k] < n
    decreases |ops|
  {
    if ops != [] { LiveInPool(ops[..|ops| - 1], n); }
  }

  lemma ProperBefore(ops: seq<Op>, n: nat, m: nat)
    requires n > 0 && m <= |ops| && Proper(ops, n)
    ensures Proper(ops[..m], n)
  {
    forall k | 0 <= k < m && ops[..m][k].New? ensures ops[..m][k].node !in Run(ops[..m][..k], n).live {
      assert ops[..m][..k] == ops[..k];
    }
  }

  /** One step moves as many ids in the pool as it changes the accounts. */
  lemma StepConserves(s: Rules, op: Op)
    requires s.last < |s.bits| && (op.New? ==> op.node !in s.live)
    requires forall k :: k in s.live ==> s.live[k] < |s.bits|
    ensures var s', d := Step(s, op), op.Del? && op.node in s.live;
      Taken(s'.bits) - Taken(s.bits) == |s'.live| - |s.live| -
        (if op.New? && AllTaken(s.bits) then 1 else 0) + (if d && !op.commandOk then 1 else 0) +
        (if d && op.commandOk && !s.bits[s.live[op.node]] then 1 else 0)
  {
    FullTurnIffAllTaken(s.bits, s.last);
    match op
    case New(k) => TakenUpdate(s.bits, Next(s.bits, s.last).0, true);
    case Del(k, ok) =>
      if k in s.live {
        TakenUpdate(s.bits, s.live[k], false);
        assert |s.live - {k}| == |s.live| - 1;
      }
  }

  /**
    In every run, exhausted or not, the ids taken and the rules given a taken one are together the active rules, the
    removals whose command failed and the ids given back twice. So it is known when the pool runs out.
   */
  lemma {:induction false} RunConserves(ops: seq<Op>, n: nat)
    requires n > 0 && Proper(ops, n)
    ensures var s := Run(ops, n);
      Taken(s.bits) + SharedNews(ops, n) == |s.live| + FailedDels(ops, n) + DoubleReleases(ops, n) &&
      (AllTaken(s.bits) <==> |s.live| + FailedDels(ops, n) + DoubleReleases(ops, n) == n + SharedNews(ops, n))
    decreases |ops|
  {
    if ops == [] {
      NoneTaken(n);
    } else {
      var m := |ops| - 1;
      ProperBefore(ops, n, m);
      RunConserves(ops[..m], n);
      LiveInPool(ops[..m], n);
      assert ops[m].New? ==> ops[m].node !in Run(ops[..m], n).live;
      StepConserves(Run(ops[..m], n), ops[m]);
    }
    TakenAll(Run(ops, n).bits);
  }

  lemma {:induction false} SpareKeepsApart(ops: seq<Op>, n: nat)
    requires n > 0 && Proper(ops, n) && ZeroIsSpare(ops, n)
    ensures Apart(Run(ops, n)) && DoubleReleases(ops, n) == 0
    decreases |ops|
  {
    if ops != [] {
      var m := |ops| - 1;
      var before := ops[..m];
      ProperBefore(ops, n, m);
      assert forall k :: 0 <= k < m ==> before[..k] == ops[..k];
      SpareKeepsApart(before, n);
      var s := Run(before, n);
      match ops[m]
      case New(k) =>
        assert ops[m].New? && ops[m].node == k;
        NewKeepsIdsApart(s, k);
      case Del(k, ok) => DelKeepsIdsApart(s, k, ok);
    }
  }

  /**
    Over a whole run active rules have different ids, all of them marked as taken, if and only if every rule that is
    added finds a free id or no active rule with id 0. Then no id is ever given back twice.
   */
  lemma RunIsApart(ops: seq<Op>, n: nat)
    requires n > 0 && Proper(ops, n)
    ensures (forall k :: 0 <= k <= |ops| ==> Apart(Run(ops[..k], n))) <==> ZeroIsSpare(ops, n)
    ensures ZeroIsSpare(ops, n) ==> DoubleReleases(ops, n) == 0
  {
    if ZeroIsSpare(ops, n) {
      SpareKeepsApart(ops, n);
      forall k | 0 <= k <= |ops| ensures Apart(Run(ops[..k], n)) {
        ProperBefore(ops, n, k);
        assert forall j :: 0 <= j < k ==> ops[..k][..j] == ops[..j];
        SpareKeepsApart(ops[..k], n);
      }
    }
    if forall k :: 0 <= k <= |ops| ==> Apart(Run(ops[..k], n)) {
      forall k | 0 <= k < |ops| && ops[k].New?
        ensures var s := Run(ops[..k], n); !AllTaken(s.bits) || forall j :: j in s.live ==> s.live[j] != 0
      {
        assert ops[..k + 1][..k] == ops[..k] && Apart(Run(ops[..k], n)) && Apart(Run(ops[..k + 1], n));
        NewKeepsIdsApart(Run(ops[..k], n), ops[k].node);
      }
    }
  }

  /** It is enough that active rules and failed removals never use up the pool when a rule is added. */
  lemma {:induction false} EnoughIds(ops: seq<Op>, n: nat)
    requires n > 0 && Proper(ops, n)
    requires forall k :: 0 <= k < |ops| && ops[k].New? ==> |Run(ops[..k], n).live| + FailedDels(ops[..k], n) < n
    ensures ZeroIsSpare(ops, n)
    decreases |ops|
  {
    hide Run, FailedDels, SharedNews, DoubleReleases, Taken, Proper, Apart;
    if ops != [] {
      var m := |ops| - 1;
      ProperBefore(ops, n, m);
      assert forall k :: 0 <= k < m ==> ops[..m][..k] == ops[..k];
      EnoughIds(ops[..m], n);
      SpareKeepsApart(ops[..m], n);
      RunConserves(ops[..m], n);
    }
  }

  /** Two rules on a pool of one id both have id 0; when both are removed it is given back twice. */
  lemma TwoRulesShareZero()
    ensures var ops := [New(0), New(1)];
      Proper(ops, 1) && !ZeroIsSpare(ops, 1) && Run(ops, 1).live == map[0 := 0, 1 := 0] &&
      DoubleReleases(ops + [Del(0, true), Del(1, true)], 1) == 1
  {
    var ops, o3, o4 := [New(0), New(1)], [New(0), New(1), Del(0, true)], [New(0), New(1), Del(0, true), Del(1, true)];
    assert ops + [Del(0, true), Del(1, true)] == o4;
    assert ops[..0] == [] && ops[..1] == [New(0)] && [New(0)][..0] == [] && o3[..2] == ops && o4[..3] == o3;
    var s1 := Run([New(0)], 1);
    assert s1 == Rules([true], 0, map[0 := 0]);
    assert Run(ops, 1) == Step(s1, New(1));
    assert AllTaken(s1.bits) && 0 in s1.live && s1.live[0] == 0;
    assert Run(o3, 1) == Rules([false], 0, map[1 := 0]);
    assert DoubleReleases(o4, 1) == DoubleReleases(o3, 1) + 1;
  }
}
