/**
  The statistics of the older daemon of main.c: traffic counted per rule, rules reported when they go over their limit,
  and the number of rules reported.

  `RunCounts` shows that the number is right in every run, and also why: the branch that would remove a rule is
  never taken, because an update that could enable it closes the window first.
 */
module RuleStatistics {

  type Seconds = n: nat | n > 0 witness 1

  /** A statistics node; a dynamic one is only a template for nodes of single addresses. */
  datatype Node = Node(bytes: nat, pkts: nat, windowSize: Seconds, limitBps: nat, threshold: real, removeDelay: int,
                       lastUpdated: int, windowReset: int, timeReported: int, dynamic: bool)

  /** update_stats */
  function Updated(n: Node, now: int, bytes: nat, pkts: nat): Node {
    if now >= n.windowReset + n.windowSize then n.(lastUpdated := now, windowReset := now, bytes := 0, pkts := 0)
    else n.(lastUpdated := now, bytes := n.bytes + bytes, pkts := n.pkts + pkts)
  }

  predicate Over(n: Node) {
    (n.bytes / n.windowSize * 8 * 100) as real > n.limitBps as real * n.threshold
  }

  /** The command eval_node issues, if any. */
  datatype Verdict = Nothing | Add | Remove

  predicate Removes(n: Node) {
    !Over(n) && n.timeReported != 0 && n.timeReported + n.removeDelay < n.lastUpdated &&
    n.lastUpdated >= n.windowReset + n.windowSize
  }

  /** eval_node */
  function Evaluated(n: Node): (Node, Verdict) {
    if Over(n) then (n.(timeReported := n.lastUpdated), if n.timeReported == 0 then Add else Nothing)
    else if Removes(n) then (n.(timeReported := 0), Remove)
    else (n, Nothing)
  }

  class StatNode {
    const windowSize: Seconds
    const limitBps: nat
    const threshold: real
    const removeDelay: int
    const dynamic: bool
    var bytes: nat
    var pkts: nat
    var lastUpdated: int
    var windowReset: int
    var timeReported: int

    ghost function View(): Node
      reads this
    {
      Node(bytes, pkts, windowSize, limitBps, threshold, removeDelay, lastUpdated, windowReset, timeReported, dynamic)
    }

    constructor (n: Node)
      ensures View() == n
    {
      windowSize, limitBps, threshold := n.windowSize, n.limitBps, n.threshold;
      removeDelay, dynamic := n.removeDelay, n.dynamic;
      bytes, pkts := n.bytes, n.pkts;
      lastUpdated, windowReset, timeReported := n.lastUpdated, n.windowReset, n.timeReported;
    }

    method UpdateStats(now: int, b: nat, p: nat)
      modifies this
      ensures View() == Updated(old(View()), now, b, p)
    {
      lastUpdated := now;
      bytes := bytes + b;
      pkts := pkts + p;
      if lastUpdated >= windowReset + windowSize {
        windowReset := lastUpdated;
        bytes := 0;
        pkts := 0;
      }
    }

    /** `active` is the counter of active rules, before and after. */
    method EvalNode(active: int) returns (verdict: Verdict, active': int)
      modifies this
      ensures (View(), verdict) == Evaluated(old(View()))
      ensures active' == active + match verdict case Nothing => 0 case Add => 1 case Remove => -1
    {
      verdict, active' := Nothing, active;
      if (bytes / windowSize * 8 * 100) as real > limitBps as real * threshold {
        if timeReported == 0 {
          verdict, active' := Add, active + 1;
        }
        timeReported := lastUpdated;
      } else {
        if timeReported != 0 && timeReported + removeDelay < lastUpdated {
          if lastUpdated >= windowReset + windowSize {
            verdict, active' := Remove, active - 1;
            timeReported := 0;
          }
        }
      }
    }
  }

  // ---------- Runs ----------

  /** The nodes, the counter of active rules, and how many commands to remove a rule were issued. */
  datatype State = State(nodes: seq<Node>, active: int, removals: nat)

  /** A packet is looked up to a node, or a node is evaluated. */
  datatype Op = Packet(node: nat, now: int, bytes: nat, pkts: nat) | Evaluate(node: nat)

  /** add_packet, add_dynamic_node and eval_nodes; a packet for a template only adds a copy of it. */
  function Step(s: State, op: Op): State {
    if op.node >= |s.nodes| then s else
    var n := s.nodes[op.node];
    match op
    case Packet(i, now, bytes, pkts) =>
      if n.dynamic then s.(nodes := s.nodes + [n.(dynamic := false)])
      else s.(nodes := s.nodes[i := Updated(n, now, bytes, pkts)])
    case Evaluate(i) =>
      var (n', verdict) := Evaluated(n);
      State(s.nodes[i := n'], s.active + (match verdict case Nothing => 0 case Add => 1 case Remove => -1),
            s.removals + if verdict == Remove then 1 else 0)
  }

  function Run(s: State, ops: seq<Op>): State {
    if ops == [] then s else Step(Run(s, ops[..|ops| - 1]), ops[|ops| - 1])
  }

  function Reported(nodes: seq<Node>): nat {
    if nodes == [] then 0 else Reported(nodes[..|nodes| - 1]) + if nodes[|nodes| - 1].timeReported != 0 then 1 else 0
  }

  /** A node as it is configured, before any traffic. */
  predicate Fresh(n: Node) {
    n.bytes == 0 && n.pkts == 0 && n.lastUpdated == 0 && n.windowReset == 0 && n.timeReported == 0 && n.threshold >= 0.0
  }

  /** A template never sees traffic; traffic comes with a time; the time of the last update is inside the window. */
  predicate Sound(n: Node) {
    n.threshold >= 0.0 && (n.bytes > 0 ==> n.lastUpdated > 0) && n.lastUpdated < n.windowReset + n.windowSize &&
    (n.dynamic ==> n.bytes == 0 && n.timeReported == 0)
  }

  lemma NoTrafficNotOver(n: Node)
    requires n.bytes == 0 && n.threshold >= 0.0
    ensures !Over(n)
  {
    assert n.limitBps as real * n.threshold >= 0.0;
  }

  /** In the daemon as it is, no rule is ever due for removal. */
  lemma SoundNeverRemoved(n: Node)
    requires Sound(n)
    ensures !Removes(n) && Sound(Evaluated(n).0)
  {
    if n.bytes == 0 { NoTrafficNotOver(n); }
  }

  lemma {:induction false} ReportedUpdate(nodes: seq<Node>, i: nat, n: Node)
    requires i < |nodes|
    ensures Reported(nodes[i := n]) ==
            Reported(nodes) - (if nodes[i].timeReported != 0 then 1 else 0) + (if n.timeReported != 0 then 1 else 0)
    decreases |nodes|
  {
    var m := |nodes| - 1;
    if i == m {
      assert nodes[i := n][..m] == nodes[..m];
    } else {
      assert nodes[i := n][..m] == nodes[..m][i := n];
      ReportedUpdate(nodes[..m], i, n);
    }
  }

  ghost predicate Inv(s: State) {
    (forall i :: 0 <= i < |s.nodes| ==> Sound(s.nodes[i])) && s.active == Reported(s.nodes) && s.removals == 0
  }

  lemma StepKeepsInv(s: State, op: Op)
    requires Inv(s) && (op.Packet? ==> op.now > 0)
    ensures Inv(Step(s, op))
  {
    if op.node < |s.nodes| {
      var n := s.nodes[op.node];
      if op.Evaluate? {
        SoundNeverRemoved(n);
        if n.bytes == 0 { NoTrafficNotOver(n); }
        ReportedUpdate(s.nodes, op.node, Evaluated(n).0);
      } else if n.dynamic {
        var nodes := s.nodes + [n.(dynamic := false)];
        assert nodes[..|nodes| - 1] == s.nodes;
      } else {
        ReportedUpdate(s.nodes, op.node, Updated(n, op.now, op.bytes, op.pkts));
      }
    }
  }

  lemma {:induction false} FreshNotReported(nodes: seq<Node>)
    requires forall i :: 0 <= i < |nodes| ==> Fresh(nodes[i])
    ensures Reported(nodes) == 0
    decreases |nodes|
  {
    if nodes != [] { FreshNotReported(nodes[..|nodes| - 1]); }
  }

  /**
    From freshly configured nodes on, the counter of active rules is the number of reported nodes, copies of
    templates included, and no removal is ever issued.
   */
  lemma {:induction false} RunCounts(nodes: seq<Node>, ops: seq<Op>)
    requires forall i :: 0 <= i < |nodes| ==> Fresh(nodes[i])
    requires forall op :: op in ops && op.Packet? ==> op.now > 0
    ensures var s := Run(State(nodes, 0, 0), ops); s.active == Reported(s.nodes) && s.removals == 0 && Inv(s)
    decreases |ops|
  {
    if ops == [] {
      FreshNotReported(nodes);
    } else {
      RunCounts(nodes, ops[..|ops| - 1]);
      assert ops[|ops| - 1] in ops;
      StepKeepsInv(Run(State(nodes, 0, 0), ops[..|ops| - 1]), ops[|ops| - 1]);
    }
  }

  // ---------- Traffic since the window was opened ----------

  function BytesTo(ops: seq<Op>, i: nat): nat {
    if ops == [] then 0
    else
      var op := ops[|ops| - 1];
      BytesTo(ops[..|ops| - 1], i) + if op.Packet? && op.node == i then op.bytes else 0
  }

  function PktsTo(ops: seq<Op>, i: nat): nat {
    if ops == [] then 0
    else
      var op := ops[|ops| - 1];
      PktsTo(ops[..|ops| - 1], i) + if op.Packet? && op.node == i then op.pkts else 0
  }

  /** When the last packet for the node came; `otherwise` if there was none. */
  function LastPacket(ops: seq<Op>, i: nat, otherwise: int): int {
    if ops == [] then otherwise
    else
      var op := ops[|ops| - 1];
      if op.Packet? && op.node == i then op.now else LastPacket(ops[..|ops| - 1], i, otherwise)
  }

  /**
    The window of node `i` that began at time `reset` was opened just before operation `k`: the node was configured or
    copied from its template then, or the packet before came when the last window had run out, and is not counted.
   */
  ghost predicate Opened(nodes: seq<Node>, ops: seq<Op>, i: nat, k: nat, reset: int) {
    k <= |ops| &&
    if k == 0 then i < |nodes| && reset == 0
    else
      var before := Run(State(nodes, 0, 0), ops[..k - 1]).nodes;
      if i < |before| then
        ops[k - 1].Packet? && ops[k - 1].node == i && ops[k - 1].now == reset &&
        reset >= before[i].windowReset + before[i].windowSize
      else i == |before| && i < |Run(State(nodes, 0, 0), ops[..k]).nodes| && reset == 0
  }

  /** From operation `k` on all packets for the node came within its window, and they are what it has counted. */
  ghost predicate Counts(n: Node, ops: seq<Op>, i: nat, k: nat)
    requires k <= |ops|
  {
    n.bytes == BytesTo(ops[k..], i) && n.pkts == PktsTo(ops[k..], i) &&
    n.lastUpdated == LastPacket(ops[k..], i, n.windowReset) &&
    forall j :: k <= j < |ops| && ops[j].Packet? && ops[j].node == i ==> ops[j].now < n.windowReset + n.windowSize
  }

  /** Templates stay as they were configured. */
  lemma {:induction false} TemplatesKept(nodes: seq<Node>, ops: seq<Op>, i: nat)
    requires forall i :: 0 <= i < |nodes| ==> Fresh(nodes[i])
    requires i < |Run(State(nodes, 0, 0), ops).nodes|
    ensures var n := Run(State(nodes, 0, 0), ops).nodes[i];
      n.dynamic ==> n.bytes == 0 && n.pkts == 0 && n.windowReset == n.lastUpdated == n.timeReported == 0 &&
                    n.threshold >= 0.0
    decreases |ops|
  {
    if ops != [] {
      var before := Run(State(nodes, 0, 0), ops[..|ops| - 1]).nodes;
      if i < |before| {
        TemplatesKept(nodes, ops[..|ops| - 1], i);
        if before[i].dynamic { NoTrafficNotOver(before[i]); }
      }
    } else {
      assert Fresh(nodes[i]);
    }
  }

  lemma CountsOneMore(n: Node, n': Node, before: seq<Op>, op: Op, i: nat, k: nat)
    requires k <= |before| && Counts(n, before, i, k)
    requires n'.windowReset == n.windowReset && n'.windowSize == n.windowSize
    requires if op.Packet? && op.node == i then
               n'.bytes == n.bytes + op.bytes && n'.pkts == n.pkts + op.pkts && n'.lastUpdated == op.now &&
               op.now < n.windowReset + n.windowSize
             else n'.bytes == n.bytes && n'.pkts == n.pkts && n'.lastUpdated == n.lastUpdated
    ensures Counts(n', before + [op], i, k)
  {
    var ops := (before + [op])[k..];
    assert ops == before[k..] + [op] && ops[..|ops| - 1] == before[k..];
  }

  lemma OpenedBefore(nodes: seq<Node>, before: seq<Op>, op: Op, i: nat, k: nat, reset: int)
    requires Opened(nodes, before, i, k, reset)
    ensures Opened(nodes, before + [op], i, k, reset)
  {
    assert (before + [op])[..k] == before[..k];
    if k > 0 { assert (before + [op])[..k - 1] == before[..k - 1]; }
  }

  /** The last operation made the node, or ended its window. */
  lemma WindowBegins(nodes: seq<Node>, ops: seq<Op>, i: nat)
    requires ops != [] && forall i :: 0 <= i < |nodes| ==> Fresh(nodes[i])
    requires i < |Run(State(nodes, 0, 0), ops).nodes| && !Run(State(nodes, 0, 0), ops).nodes[i].dynamic
    requires var before, op := Run(State(nodes, 0, 0), ops[..|ops| - 1]).nodes, ops[|ops| - 1];
      i < |before| ==> op.Packet? && op.node == i && op.now >= before[i].windowReset + before[i].windowSize
    ensures var n := Run(State(nodes, 0, 0), ops).nodes[i];
      Opened(nodes, ops, i, |ops|, n.windowReset) && Counts(n, ops, i, |ops|)
  {
    var before, op := ops[..|ops| - 1], ops[|ops| - 1];
    assert ops[..|ops|] == ops && ops[|ops|..] == [];
    if i >= |Run(State(nodes, 0, 0), before).nodes| { TemplatesKept(nodes, before, op.node); }
  }

  /** The last operation left the node in its window. */
  lemma WindowGoesOn(nodes: seq<Node>, before: seq<Op>, op: Op, i: nat, k: nat)
    requires var s := Run(State(nodes, 0, 0), before);
      i < |s.nodes| && !s.nodes[i].dynamic &&
      (op.Packet? && op.node == i ==> op.now < s.nodes[i].windowReset + s.nodes[i].windowSize) &&
      Opened(nodes, before, i, k, s.nodes[i].windowReset) && Counts(s.nodes[i], before, i, k)
    ensures var s := Step(Run(State(nodes, 0, 0), before), op);
      i < |s.nodes| && Opened(nodes, before + [op], i, k, s.nodes[i].windowReset) &&
      Counts(s.nodes[i], before + [op], i, k)
  {
    var s := Run(State(nodes, 0, 0), before);
    hide Run, Opened, Counts;
    OpenedBefore(nodes, before, op, i, k, s.nodes[i].windowReset);
    CountsOneMore(s.nodes[i], Step(s, op).nodes[i], before, op, i, k);
  }

  /** What a node has counted are the packets for it since its window was opened, all of them within the window. */
  lemma {:induction false} CountsItsWindow(nodes: seq<Node>, ops: seq<Op>, i: nat)
    requires forall i :: 0 <= i < |nodes| ==> Fresh(nodes[i])
    requires i < |Run(State(nodes, 0, 0), ops).nodes| && !Run(State(nodes, 0, 0), ops).nodes[i].dynamic
    ensures var n := Run(State(nodes, 0, 0), ops).nodes[i];
      exists k :: Opened(nodes, ops, i, k, n.windowReset) && Counts(n, ops, i, k)
    decreases |ops|
  {
    var n := Run(State(nodes, 0, 0), ops).nodes[i];
    if ops == [] {
      assert Fresh(nodes[i]);
      assert Opened(nodes, ops, i, 0, n.windowReset) && Counts(n, ops, i, 0);
    } else {
      var before, op := ops[..|ops| - 1], ops[|ops| - 1];
      var s := Run(State(nodes, 0, 0), before);
      hide Opened, Counts;
      assert ops == before + [op];
      if i >= |s.nodes| || (op.Packet? && op.node == i && op.now >= s.nodes[i].windowReset + s.nodes[i].windowSize) {
        WindowBegins(nodes, ops, i);
      } else {
        CountsItsWindow(nodes, before, i);
        var k :| Opened(nodes, before, i, k, s.nodes[i].windowReset) && Counts(s.nodes[i], before, i, k);
        WindowGoesOn(nodes, before, op, i, k);
      }
    }
  }

  // ---------- When a rule is reported ----------

  /** `rate` is the traffic of the node in whole bytes per second. */
  predicate IsRate(rate: nat, n: Node) {
    rate * n.windowSize <= n.bytes < rate * n.windowSize + n.windowSize
  }

  lemma RateAtMost(rate: nat, bytes: nat, seconds: Seconds)
    ensures rate <= bytes / seconds <==> rate * seconds <= bytes
  {
    var q := bytes / seconds;
    assert bytes == q * seconds + bytes % seconds;
    if rate <= q { assert rate * seconds <= q * seconds; }
    if rate > q { assert (q + 1) * seconds <= rate * seconds; }
  }

  /** A hundred times the rate in bits per second is more than the limit times the threshold, which is in percent. */
  ghost predicate ExceedsLimit(n: Node) {
    exists rate: nat :: IsRate(rate, n) && (rate * 800) as real > n.limitBps as real * n.threshold
  }

  lemma OverIs(n: Node)
    ensures Over(n) <==> ExceedsLimit(n)
  {
    var q := n.bytes / n.windowSize;
    RateAtMost(q, n.bytes, n.windowSize);
    RateAtMost(q + 1, n.bytes, n.windowSize);
    assert IsRate(q, n);
    forall rate: nat | IsRate(rate, n) ensures rate == q {
      RateAtMost(rate, n.bytes, n.windowSize);
      RateAtMost(rate + 1, n.bytes, n.windowSize);
    }
  }

  /** Evaluation `j` of the run found node `i` over its limit. */
  ghost predicate FoundOver(nodes: seq<Node>, ops: seq<Op>, i: nat, j: int) {
    0 <= j < |ops| && ops[j] == Evaluate(i) && i < |Run(State(nodes, 0, 0), ops[..j]).nodes| &&
    ExceedsLimit(Run(State(nodes, 0, 0), ops[..j]).nodes[i])
  }

  lemma FoundOneMore(nodes: seq<Node>, ops: seq<Op>, i: nat)
    requires ops != []
    ensures var m := |ops| - 1;
      (exists j :: FoundOver(nodes, ops, i, j)) <==>
      (exists j :: FoundOver(nodes, ops[..m], i, j)) || FoundOver(nodes, ops, i, m)
  {
    var m := |ops| - 1;
    forall j | 0 <= j < m ensures FoundOver(nodes, ops, i, j) <==> FoundOver(nodes, ops[..m], i, j) {
      assert ops[..m][..j] == ops[..j];
    }
    if j :| FoundOver(nodes, ops, i, j) && j != m { assert FoundOver(nodes, ops[..m], i, j); }
    if j :| FoundOver(nodes, ops[..m], i, j) { assert FoundOver(nodes, ops, i, j); }
  }

  /** A step reports a node that is there exactly when it evaluates it and finds it over its limit. */
  lemma StepReports(s: State, op: Op, i: nat)
    requires Inv(s) && i < |s.nodes|
    ensures i < |Step(s, op).nodes|
    ensures Step(s, op).nodes[i].timeReported != 0 <==>
            s.nodes[i].timeReported != 0 || (op == Evaluate(i) && ExceedsLimit(s.nodes[i]))
    ensures Step(s, op).nodes[i].timeReported ==
            if op == Evaluate(i) && ExceedsLimit(s.nodes[i]) then s.nodes[i].lastUpdated else s.nodes[i].timeReported
  {
    var n := s.nodes[i];
    if n.bytes == 0 { NoTrafficNotOver(n); }
    SoundNeverRemoved(n);
    OverIs(n);
  }

  /** The nodes reported are exactly those that some evaluation found over their limit, copies of templates included. */
  lemma {:induction false} ReportedIffOver(nodes: seq<Node>, ops: seq<Op>, i: nat)
    requires forall i :: 0 <= i < |nodes| ==> Fresh(nodes[i])
    requires forall op :: op in ops && op.Packet? ==> op.now > 0
    requires i < |Run(State(nodes, 0, 0), ops).nodes|
    ensures Run(State(nodes, 0, 0), ops).nodes[i].timeReported != 0 <==> exists j :: FoundOver(nodes, ops, i, j)
    decreases |ops|
  {
    hide ExceedsLimit, Over;
    if ops == [] {
      assert Fresh(nodes[i]);
    } else {
      var m := |ops| - 1;
      var s := Run(State(nodes, 0, 0), ops[..m]);
      FoundOneMore(nodes, ops, i);
      if i < |s.nodes| {
        ReportedIffOver(nodes, ops[..m], i);
        RunCounts(nodes, ops[..m]);
        StepReports(s, ops[m], i);
      } else {
        TemplatesKept(nodes, ops[..m], ops[m].node);
        NotFoundBefore(nodes, ops[..m], i);
      }
    }
  }

  lemma {:induction false} NotFoundBefore(nodes: seq<Node>, ops: seq<Op>, i: nat)
    requires i >= |Run(State(nodes, 0, 0), ops).nodes|
    ensures !exists j :: FoundOver(nodes, ops, i, j)
    decreases |ops|
  {
    if ops != [] {
      NotFoundBefore(nodes, ops[..|ops| - 1], i);
      FoundOneMore(nodes, ops, i);
    }
  }

  /** A node that was counted once stays counted: without removals the number of active rules never goes down. */
  lemma ActiveOnlyGrows(s: State, op: Op)
    requires Inv(s)
    ensures s.active <= Step(s, op).active <= s.active + 1
  {
    if op.node < |s.nodes| { SoundNeverRemoved(s.nodes[op.node]); }
  }
}
