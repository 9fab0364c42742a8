/**
  The histogram counter: a ring of time slots with cached totals and cached peak slots.

  An update is a list of contributions, one for each time slot it covers. `Filled` is the ring after a history of
  contributions; the lemmas say what it then holds, and the class keeps its caches right in place.
 */
module Histogram {

  datatype Slot = Slot(bytes: nat, pkts: nat, global: nat)

  /** What one round of the update loop adds, and to which slot of the absolute time line. */
  datatype Contribution = Contribution(global: nat, bytes: nat, pkts: nat)

  /** The two quantities that are counted side by side. */
  datatype Quantity = Bytes | Pkts

  function Content(s: Slot, q: Quantity): nat {
    match q case Bytes => s.bytes case Pkts => s.pkts
  }

  function Amount(c: Contribution, q: Quantity): nat {
    match q case Bytes => c.bytes case Pkts => c.pkts
  }

  /** One round of the loop: the slot is emptied first if it held another time slot. */
  function Touched(slots: seq<Slot>, c: Contribution): (r: seq<Slot>)
    requires |slots| > 0
    ensures |r| == |slots|
  {
    var i := c.global % |slots|;
    var s := slots[i];
    slots[i := if s.global == c.global then Slot(s.bytes + c.bytes, s.pkts + c.pkts, c.global)
               else Slot(c.bytes, c.pkts, c.global)]
  }

  function TouchedAll(slots: seq<Slot>, cs: seq<Contribution>): (r: seq<Slot>)
    requires |slots| > 0
    ensures |r| == |slots|
  {
    if cs == [] then slots else Touched(TouchedAll(slots, cs[..|cs| - 1]), cs[|cs| - 1])
  }

  function Zeroed(n: nat): seq<Slot> {
    seq(n, _ => Slot(0, 0, 0))
  }

  /** The ring of `n` slots after a history of contributions. */
  function Filled(n: nat, history: seq<Contribution>): (r: seq<Slot>)
    requires n > 0
    ensures |r| == n
  {
    TouchedAll(Zeroed(n), history)
  }

  function Sum(slots: seq<Slot>, q: Quantity): nat {
    if slots == [] then 0 else Sum(slots[..|slots| - 1], q) + Content(slots[|slots| - 1], q)
  }

  /** Slot `p` holds a maximum. */
  ghost predicate IsPeak(slots: seq<Slot>, q: Quantity, p: nat) {
    p < |slots| && forall i :: 0 <= i < |slots| ==> Content(slots[i], q) <= Content(slots[p], q)
  }

  // ---------- Division and remainder ----------

  lemma MulMonotone(a: nat, b: nat, n: nat)
    requires a <= b
    ensures a * n <= b * n
  {
    assert b * n - a * n == (b - a) * n;
  }

  lemma DivisionIs(x: nat, n: nat, q: nat, r: nat)
    requires n > 0 && r < n && x == q * n + r
    ensures x / n == q && x % n == r
  {
    var d := x / n;
    assert x == d * n + x % n;
    assert (q + 1) * n == q * n + n && (d + 1) * n == d * n + n;
    if q < d { MulMonotone(q + 1, d, n); }
    if d < q { MulMonotone(d + 1, q, n); }
  }

  lemma AddMultiple(x: nat, n: nat, k: nat)
    requires n > 0
    ensures (x + k * n) / n == x / n + k && (x + k * n) % n == x % n
  {
    assert x + k * n == (x / n + k) * n + x % n;
    DivisionIs(x + k * n, n, x / n + k, x % n);
  }

  lemma SameResidue(a: nat, b: nat, n: nat)
    requires n > 0 && a < b && a % n == b % n
    ensures a + n <= b
  {
    assert a == a / n * n + a % n && b == b / n * n + b % n;
    if b / n <= a / n { MulMonotone(b / n, a / n, n); }
    MulMonotone(a / n + 1, b / n, n);
    assert (a / n + 1) * n == a / n * n + n;
  }

  // ---------- What the ring holds, for any history ----------

  /** The newest contributions to residue class `i` that all go to time slot `g`, added up. */
  function TrailingRun(history: seq<Contribution>, n: nat, i: nat, g: nat, q: Quantity): nat
    requires n > 0
  {
    if history == [] then 0
    else
      var c, before := history[|history| - 1], history[..|history| - 1];
      if c.global % n != i then TrailingRun(before, n, i, g, q)
      else if c.global == g then TrailingRun(before, n, i, g, q) + Amount(c, q)
      else 0
  }

  /** The time slot that residue class `i` was touched for last. */
  function LastIn(history: seq<Contribution>, n: nat, i: nat): nat
    requires n > 0
  {
    if history == [] then 0
    else if history[|history| - 1].global % n == i then history[|history| - 1].global
    else LastIn(history[..|history| - 1], n, i)
  }

  /** Whatever the order, each slot holds its time slot's contributions since another one last displaced it. */
  lemma {:induction false} SlotHoldsRun(n: nat, history: seq<Contribution>, i: nat, q: Quantity)
    requires n > 0 && i < n
    ensures var s := Filled(n, history)[i];
      s.global == LastIn(history, n, i) && Content(s, q) == TrailingRun(history, n, i, s.global, q)
    decreases |history|
  {
    if history != [] {
      var c, before := history[|history| - 1], history[..|history| - 1];
      SlotHoldsRun(n, before, i, q);
      if c.global % n == i && c.global != LastIn(before, n, i) { RunOfOther(n, before, i, c.global, q); }
    }
  }

  /** A time slot that is not the last one of its class has no trailing run. */
  lemma {:induction false} RunOfOther(n: nat, history: seq<Contribution>, i: nat, g: nat, q: Quantity)
    requires n > 0 && g != LastIn(history, n, i)
    ensures TrailingRun(history, n, i, g, q) == 0
    decreases |history|
  {
    if history != [] && history[|history| - 1].global % n != i {
      RunOfOther(n, history[..|history| - 1], i, g, q);
    }
  }

  /** A slot that holds anything at all is at the index of its time slot. */
  lemma {:induction false} SlotAtItsIndex(n: nat, history: seq<Contribution>, i: nat)
    requires n > 0 && i < n
    ensures var s := Filled(n, history)[i]; s.global % n == i || s == Slot(0, 0, 0)
    decreases |history|
  {
    if history != [] { SlotAtItsIndex(n, history[..|history| - 1], i); }
  }

  // ---------- Histories that are not too late ----------

  /** All that was ever contributed to time slot `g`. */
  function TotalAt(history: seq<Contribution>, g: nat, q: Quantity): nat {
    if history == [] then 0
    else TotalAt(history[..|history| - 1], g, q) +
         if history[|history| - 1].global == g then Amount(history[|history| - 1], q) else 0
  }

  /** The newest time slot contributed to. */
  function Newest(history: seq<Contribution>): nat {
    if history == [] then 0
    else
      var g, m := history[|history| - 1].global, Newest(history[..|history| - 1]);
      if g > m then g else m
  }

  /** Every contribution is less than `n` time slots behind the newest one before it. */
  ghost predicate InTime(history: seq<Contribution>, n: nat) {
    history == [] ||
    (InTime(history[..|history| - 1], n) && history[|history| - 1].global + n > Newest(history[..|history| - 1]))
  }

  lemma {:induction false} NewestBounds(history: seq<Contribution>, g: nat, q: Quantity)
    ensures TotalAt(history, g, q) > 0 ==> g <= Newest(history)
    decreases |history|
  {
    if history != [] { NewestBounds(history[..|history| - 1], g, q); }
  }

  /** In time, a contribution never goes back behind the last one of its residue class. */
  lemma {:induction false} LastIsNewest(history: seq<Contribution>, n: nat, g: nat)
    requires n > 0 && InTime(history, n) && g + n > Newest(history)
    ensures LastIn(history, n, g % n) <= g
    decreases |history|
  {
    LastBounds(history, n, g % n);
    var last := LastIn(history, n, g % n);
    if last > g {
      SameResidue(g, last, n);
    }
  }

  lemma {:induction false} LastBounds(history: seq<Contribution>, n: nat, i: nat)
    requires n > 0
    ensures LastIn(history, n, i) <= Newest(history)
    ensures LastIn(history, n, i) % n == i || LastIn(history, n, i) == 0
    decreases |history|
  {
    if history != [] { LastBounds(history[..|history| - 1], n, i); }
  }

  /**
    As long as every update is in time, each slot holds all that was contributed to the newest time slot of its class:
    nothing was contributed to a later one.
   */
  lemma {:induction false} SlotHoldsTotal(n: nat, history: seq<Contribution>, i: nat, q: Quantity)
    requires n > 0 && i < n && InTime(history, n)
    ensures var s := Filled(n, history)[i];
      (s.global % n == i ==> Content(s, q) == TotalAt(history, s.global, q)) &&
      forall g: nat :: g % n == i && g > s.global ==> TotalAt(history, g, q) == 0
    ensures Filled(n, history)[i].global == LastIn(history, n, i)
    decreases |history|
  {
    if history != [] {
      var c, before := history[|history| - 1], history[..|history| - 1];
      SlotHoldsTotal(n, before, i, q);
      if c.global % n == i {
        LastIsNewest(before, n, c.global);
        SlotAtItsIndex(n, before, i);
      }
    }
  }

  // ---------- The sliding window ----------

  /** In time, and never more than one time slot ahead of the newest. */
  ghost predicate Gapless(history: seq<Contribution>, n: nat) {
    history == [] ||
    var c, before := history[|history| - 1], history[..|history| - 1];
    Gapless(before, n) && (before == [] || (c.global + n > Newest(before) && c.global <= Newest(before) + 1))
  }

  /** All contributions to the `k` time slots up to `top`. */
  function WindowSum(history: seq<Contribution>, top: nat, k: nat, q: Quantity): nat {
    if k == 0 then 0
    else WindowSum(history, top, k - 1, q) + if k - 1 <= top then TotalAt(history, top - (k - 1), q) else 0
  }

  /** The slot of time slot `g` holds all contributions to it. */
  predicate SlotFor(slots: seq<Slot>, history: seq<Contribution>, g: nat, q: Quantity)
    requires |slots| > 0
  {
    var s := slots[g % |slots|];
    Content(s, q) == TotalAt(history, g, q) && (s.global == g || Content(s, q) == 0)
  }

  ghost predicate WindowHeld(slots: seq<Slot>, history: seq<Contribution>, q: Quantity)
    requires |slots| > 0
  {
    var top := Newest(history);
    (forall g: nat :: g <= top < g + |slots| ==> SlotFor(slots, history, g, q)) &&
    (forall i :: top < i < |slots| ==> Content(slots[i], q) == 0) &&
    Sum(slots, q) == WindowSum(history, top, |slots|, q)
  }

  lemma {:induction false} SumUpdate(slots: seq<Slot>, i: nat, s: Slot, q: Quantity)
    requires i < |slots|
    ensures Sum(slots[i := s], q) == Sum(slots, q) - Content(slots[i], q) + Content(s, q)
    decreases |slots|
  {
    var m := |slots| - 1;
    if i == m {
      assert slots[i := s][..m] == slots[..m];
    } else {
      assert slots[i := s][..m] == slots[..m][i := s];
      SumUpdate(slots[..m], i, s, q);
    }
  }

  lemma {:induction false} SumBounds(slots: seq<Slot>, i: nat, q: Quantity)
    requires i < |slots|
    ensures Content(slots[i], q) <= Sum(slots, q)
    decreases |slots|
  {
    if i < |slots| - 1 { SumBounds(slots[..|slots| - 1], i, q); }
  }

  lemma {:induction false} WindowAppend(before: seq<Contribution>, c: Contribution, top: nat, k: nat, q: Quantity)
    ensures WindowSum(before + [c], top, k, q) ==
            WindowSum(before, top, k, q) + if c.global <= top < c.global + k then Amount(c, q) else 0
    decreases k
  {
    assert (before + [c])[..|before|] == before;
    if k > 0 { WindowAppend(before, c, top, k - 1, q); }
  }

  lemma {:induction false} WindowSlide(history: seq<Contribution>, top: nat, k: nat, q: Quantity)
    ensures WindowSum(history, top + 1, k, q) + (if top + 1 >= k then TotalAt(history, top + 1 - k, q) else 0) ==
            WindowSum(history, top, k, q) + TotalAt(history, top + 1, q)
    decreases k
  {
    if k > 0 { WindowSlide(history, top, k - 1, q); }
  }

  lemma {:induction false} WindowOfNone(top: nat, k: nat, q: Quantity)
    ensures WindowSum([], top, k, q) == 0
    decreases k
  {
    if k > 0 { WindowOfNone(top, k - 1, q); }
  }

  lemma {:induction false} ZeroedSum(n: nat, q: Quantity)
    ensures Sum(Zeroed(n), q) == 0
    decreases n
  {
    if n > 0 {
      assert Zeroed(n)[..n - 1] == Zeroed(n - 1);
      ZeroedSum(n - 1, q);
    }
  }

  /** What the slots hold of time slots that are already out of the window of `n` up to `top`. */
  function Stale(slots: seq<Slot>, top: nat, n: nat, q: Quantity): nat {
    if slots == [] then 0
    else
      var s := slots[|slots| - 1];
      Stale(slots[..|slots| - 1], top, n, q) + if s.global + n <= top then Content(s, q) else 0
  }

  lemma {:induction false} StaleUpdate(slots: seq<Slot>, i: nat, s: Slot, top: nat, n: nat, q: Quantity)
    requires i < |slots| && s.global + n > top
    ensures Stale(slots[i := s], top, n, q) ==
            Stale(slots, top, n, q) - if slots[i].global + n <= top then Content(slots[i], q) else 0
    decreases |slots|
  {
    var m := |slots| - 1;
    if i == m {
      assert slots[i := s][..m] == slots[..m];
    } else {
      assert slots[i := s][..m] == slots[..m][i := s];
      StaleUpdate(slots[..m], i, s, top, n, q);
    }
  }

  /** When the window moves on by one, only the slot of the time slot that leaves it goes stale. */
  lemma {:induction false} StaleSlide(slots: seq<Slot>, i: nat, top: nat, n: nat, q: Quantity)
    requires forall j :: 0 <= j < |slots| && j != i && slots[j].global + n == top + 1 ==> Content(slots[j], q) == 0
    ensures Stale(slots, top + 1, n, q) == Stale(slots, top, n, q) +
            if i < |slots| && slots[i].global + n == top + 1 then Content(slots[i], q) else 0
    decreases |slots|
  {
    if slots != [] { StaleSlide(slots[..|slots| - 1], i, top, n, q); }
  }

  lemma {:induction false} StaleIffOld(slots: seq<Slot>, top: nat, n: nat, q: Quantity)
    ensures Stale(slots, top, n, q) == 0 <==>
            forall i :: 0 <= i < |slots| && slots[i].global + n <= top ==> Content(slots[i], q) == 0
    decreases |slots|
  {
    if slots != [] {
      var m := |slots| - 1;
      StaleIffOld(slots[..m], top, n, q);
      assert forall i :: 0 <= i < m ==> slots[..m][i] == slots[i];
    }
  }

  /** The ring is split between the window up to `top` and stale slots. */
  ghost predicate Split(n: nat, history: seq<Contribution>, top: nat, q: Quantity)
    requires n > 0
  {
    Sum(Filled(n, history), q) == WindowSum(history, top, n, q) + Stale(Filled(n, history), top, n, q)
  }

  /** The slot of a time slot that leaves the window holds all of it; else there was nothing. */
  lemma SlotLeaves(n: nat, history: seq<Contribution>, leaving: nat, q: Quantity)
    requires n > 0 && InTime(history, n) && Newest(history) < leaving + n
    ensures var s := Filled(n, history)[leaving % n];
      TotalAt(history, leaving, q) == if s.global == leaving then Content(s, q) else 0
  {
    var i := leaving % n;
    SlotHoldsTotal(n, history, i, q);
    LastIsNewest(history, n, leaving);
  }

  /** Nothing is contributed: what leaves the window goes stale. */
  lemma SplitSlides(n: nat, history: seq<Contribution>, top: nat, q: Quantity)
    requires n > 0 && InTime(history, n) && Newest(history) <= top && Split(n, history, top, q)
    ensures Split(n, history, top + 1, q)
  {
    hide Filled, WindowSum, Stale, Sum, InTime, Newest, TotalAt;
    var slots, i := Filled(n, history), (top + 1) % n;
    WindowSlide(history, top, n, q);
    NewestBounds(history, top + 1, q);
    forall j | 0 <= j < n && j != i && slots[j].global + n == top + 1 ensures Content(slots[j], q) == 0 {
      SlotAtItsIndex(n, history, j);
      AddMultiple(slots[j].global, n, 1);
    }
    StaleSlide(slots, i, top, n, q);
    if top + 1 >= n {
      AddMultiple(top + 1 - n, n, 1);
      SlotLeaves(n, history, top + 1 - n, q);
    }
  }

  /** A contribution in time goes to the window, and replaces nothing but stale content. */
  lemma SplitGrows(n: nat, before: seq<Contribution>, c: Contribution, top: nat, q: Quantity)
    requires n > 0 && InTime(before, n) && c.global + n > top && c.global <= top && Newest(before) <= top
    requires Split(n, before, top, q)
    ensures Split(n, before + [c], top, q)
  {
    var slots, i := Filled(n, before), c.global % n;
    assert (before + [c])[..|before|] == before;
    var s := Touched(slots, c)[i];
    SumUpdate(slots, i, s, q);
    StaleUpdate(slots, i, s, top, n, q);
    WindowAppend(before, c, top, n, q);
    SlotAtItsIndex(n, before, i);
    SlotHoldsTotal(n, before, i, q);
    LastIsNewest(before, n, c.global);
    if slots[i].global < c.global && slots[i].global % n == i { SameResidue(slots[i].global, c.global, n); }
  }

  lemma {:induction false} SplitAt(n: nat, history: seq<Contribution>, top: nat, q: Quantity)
    requires n > 0 && InTime(history, n) && Newest(history) <= top
    ensures Split(n, history, top, q)
    decreases |history|, top
  {
    if Newest(history) < top {
      SplitAt(n, history, top - 1, q);
      SplitSlides(n, history, top - 1, q);
    } else if history == [] {
      ZeroedSum(n, q);
      WindowOfNone(top, n, q);
      StaleIffOld(Zeroed(n), top, n, q);
    } else {
      var c, before := history[|history| - 1], history[..|history| - 1];
      assert before + [c] == history;
      SplitAt(n, before, top, q);
      SplitGrows(n, before, c, top, q);
    }
  }

  /**
    While updates are in time, the sum of the ring, which is the cached total, is what was contributed to the last
    `n` time slots and what stale slots still hold. So it is the window's total if and only if no slot that holds
    anything has dropped out of the window.
   */
  lemma TotalIsWindowPlusStale(n: nat, history: seq<Contribution>, q: Quantity)
    requires n > 0 && InTime(history, n)
    ensures var slots, top := Filled(n, history), Newest(history);
      Sum(slots, q) == WindowSum(history, top, n, q) + Stale(slots, top, n, q) &&
      (Sum(slots, q) == WindowSum(history, top, n, q) <==>
       forall i :: 0 <= i < n && slots[i].global + n <= top ==> Content(slots[i], q) == 0)
  {
    SplitAt(n, history, Newest(history), q);
    StaleIffOld(Filled(n, history), Newest(history), n, q);
  }

  /** Without gaps, no residue class that was ever touched falls out of the window. */
  lemma {:induction false} GaplessNotStale(n: nat, history: seq<Contribution>, i: nat)
    requires n > 0 && i < n && Gapless(history, n)
    ensures InTime(history, n)
    ensures Filled(n, history)[i] == Slot(0, 0, 0) || LastIn(history, n, i) + n > Newest(history)
    decreases |history|
  {
    if history != [] {
      var c, before := history[|history| - 1], history[..|history| - 1];
      GaplessNotStale(n, before, i);
      SlotAtItsIndex(n, before, i);
      SlotHoldsRun(n, before, i, Bytes);
      if LastIn(before, n, i) + n == c.global { AddMultiple(LastIn(before, n, i), n, 1); }
    }
  }

  /**
    While updates are in time and leave no gap, the ring holds exactly the last `n` time slots: each slot all that
    was contributed to its time slot, and their sum, which is the cached total, all contributions to the window.
   */
  lemma RingIsWindow(n: nat, history: seq<Contribution>, q: Quantity)
    requires n > 0 && Gapless(history, n)
    ensures WindowHeld(Filled(n, history), history, q)
  {
    var slots, top := Filled(n, history), Newest(history);
    forall i | 0 <= i < n
      ensures InTime(history, n) && (slots[i].global + n <= top ==> Content(slots[i], q) == 0)
      ensures top < i ==> Content(slots[i], q) == 0
    {
      GaplessNotStale(n, history, i);
      SlotAtItsIndex(n, history, i);
      SlotHoldsTotal(n, history, i, q);
      LastBounds(history, n, i);
      if slots[i].global % n == i { DivisionBound(slots[i].global, n); }
    }
    assert InTime(history, n) by { assert 0 <= 0 < n; GaplessNotStale(n, history, 0); }
    TotalIsWindowPlusStale(n, history, q);
    forall g: nat | g <= top < g + n ensures SlotFor(slots, history, g, q) {
      var i := g % n;
      SlotHoldsTotal(n, history, i, q);
      LastBounds(history, n, i);
      if slots[i].global > g && slots[i].global % n == i { SameResidue(g, slots[i].global, n); }
      if slots[i].global < g && slots[i].global % n == i { SameResidue(slots[i].global, g, n); }
      if slots[i].global % n != i { SlotAtItsIndex(n, history, i); }
    }
  }

  lemma DivisionBound(x: nat, n: nat)
    requires n > 0
    ensures x % n <= x
  {
    MulMonotone(0, x / n, n);
  }

  lemma FilledOne(n: nat, c: Contribution)
    requires n > 0
    ensures Filled(n, [c]) == Touched(Zeroed(n), c)
  {
    var none: seq<Contribution> := [];
    assert [c][..0] == none && [c][0] == c;
    assert TouchedAll(Zeroed(n), none) == Zeroed(n);
  }

  /** A gap leaves behind what was in the slots it jumps over. */
  lemma GapKeepsOldSlots(bytes: nat)
    requires bytes > 0
    ensures var history := [Contribution(1, bytes, 0), Contribution(5, 0, 0)];
      InTime(history, 3) && !Gapless(history, 3) &&
      Sum(Filled(3, history), Bytes) == bytes && WindowSum(history, Newest(history), 3, Bytes) == 0
  {
    var c, d := Contribution(1, bytes, 0), Contribution(5, 0, 0);
    var history, none: seq<Contribution> := [c, d], [];
    FilledOne(3, c);
    assert history[..1] == [c] && [c][..0] == none;
    var slots := Filled(3, history);
    assert slots == [Slot(0, 0, 0), Slot(bytes, 0, 1), Slot(0, 0, 5)];
    assert slots[..2] == [slots[0], slots[1]] && [slots[0], slots[1]][..1] == [slots[0]] && [slots[0]][..0] == [];
    assert Sum(slots, Bytes) == Sum([slots[0], slots[1]], Bytes) + 0;
    assert Sum([slots[0], slots[1]], Bytes) == Sum([slots[0]], Bytes) + bytes;
    assert forall g :: TotalAt([c], g, Bytes) == TotalAt(none, g, Bytes) + if g == 1 then bytes else 0;
    assert forall g :: TotalAt(history, g, Bytes) == TotalAt([c], g, Bytes) + 0;
    assert WindowSum(history, 5, 3, Bytes) == WindowSum(history, 5, 2, Bytes) + TotalAt(history, 3, Bytes);
    assert WindowSum(history, 5, 2, Bytes) == WindowSum(history, 5, 1, Bytes) + TotalAt(history, 4, Bytes);
    assert WindowSum(history, 5, 1, Bytes) == 0 + TotalAt(history, 5, Bytes);
  }

  // ---------- The counter in memory ----------

  /** How many rounds the loop makes for a duration: the number of slots, rounded up. */
  function Rounds(duration: nat, slotSize: nat): (k: nat)
    requires slotSize > 0
    ensures duration > 0 ==> k > 0
    ensures k * slotSize >= duration && (duration > 0 ==> (k - 1) * slotSize < duration)
  {
    var k, r := duration / slotSize, duration % slotSize;
    assert duration == k * slotSize + r;
    assert (k + 1) * slotSize == k * slotSize + slotSize;
    if r > 0 then k + 1 else k
  }

  /** The contributions of an update: equal shares, rounded down, to consecutive time slots from the first on. */
  function Contributions(bytes: nat, pkts: nat, start: nat, duration: nat, slotSize: nat): seq<Contribution>
    requires slotSize > 0
  {
    if duration == 0 then []
    else
      var k := Rounds(duration, slotSize);
      var first, b, p := start / slotSize, bytes / k, pkts / k;
      seq(k, j requires 0 <= j => Contribution(first + j, b, p))
  }

  function GrandTotal(cs: seq<Contribution>, q: Quantity): nat {
    if cs == [] then 0 else GrandTotal(cs[..|cs| - 1], q) + Amount(cs[|cs| - 1], q)
  }

  lemma {:induction false} ConstantTotal(cs: seq<Contribution>, share: nat, q: Quantity)
    requires forall j :: 0 <= j < |cs| ==> Amount(cs[j], q) == share
    ensures GrandTotal(cs, q) == |cs| * share
    decreases |cs|
  {
    if cs != [] {
      ConstantTotal(cs[..|cs| - 1], share, q);
      assert |cs| * share == (|cs| - 1) * share + share;
    }
  }

  lemma QuotientIff(a: nat, x: nat, d: nat)
    requires d > 0
    ensures a <= x / d <==> a * d <= x
  {
    var q := x / d;
    assert x == q * d + x % d && (q + 1) * d == q * d + d;
    if a <= q { MulMonotone(a, q, d); } else { MulMonotone(q + 1, a, d); }
  }

  lemma ShareBounds(amount: nat, k: nat)
    requires k > 0
    ensures k * (amount / k) <= amount < k * (amount / k) + k
  {
    assert amount == amount / k * k + amount % k;
  }

  /** Fewer units than there are slots in the interval are lost to rounding. */
  lemma LittleIsLost(bytes: nat, pkts: nat, start: nat, duration: nat, slotSize: nat, q: Quantity)
    requires slotSize > 0 && duration > 0
    ensures var cs, k := Contributions(bytes, pkts, start, duration, slotSize), Rounds(duration, slotSize);
      var amount := if q == Bytes then bytes else pkts;
      |cs| == k && GrandTotal(cs, q) <= amount < GrandTotal(cs, q) + k
  {
    hide Rounds;
    var cs, k := Contributions(bytes, pkts, start, duration, slotSize), Rounds(duration, slotSize);
    var amount := if q == Bytes then bytes else pkts;
    ConstantTotal(cs, amount / k, q);
    ShareBounds(amount, k);
  }

  /** The ring never holds more than was contributed: no cached value wraps while the grand total fits its word. */
  lemma {:induction false} RingWithinTotal(n: nat, history: seq<Contribution>, q: Quantity)
    requires n > 0
    ensures Sum(Filled(n, history), q) <= GrandTotal(history, q)
    decreases |history|
  {
    if history == [] {
      ZeroedSum(n, q);
    } else {
      var c, before := history[|history| - 1], history[..|history| - 1];
      RingWithinTotal(n, before, q);
      var slots, i := Filled(n, before), c.global % n;
      SumUpdate(slots, i, Touched(slots, c)[i], q);
    }
  }

  lemma {:induction false} SumAtMostPeak(slots: seq<Slot>, q: Quantity, max: nat)
    requires forall i :: 0 <= i < |slots| ==> Content(slots[i], q) <= max
    ensures Sum(slots, q) <= |slots| * max
    decreases |slots|
  {
    if slots != [] {
      SumAtMostPeak(slots[..|slots| - 1], q, max);
      assert |slots| * max == (|slots| - 1) * max + max;
    }
  }

  lemma FloorOfMean(total: nat, n: nat, max: nat, d: nat)
    requires n > 0 && d > 0 && total <= n * max
    ensures d * n > 0 && total / (d * n) <= max / d
  {
    MulMonotone(1, d, n);
    var mean := total / (d * n);
    QuotientIff(mean, total, d * n);
    QuotientIff(mean, max, d);
    assert mean * (d * n) == (mean * d) * n;
    assert (max + 1) * n == n * max + n;
    if mean * d > max { MulMonotone(max + 1, mean * d, n); }
  }

  /** The time the ring covers, in milliseconds. */
  function Span(slotSize: nat, numSlots: nat): (r: nat)
    requires slotSize > 0 && numSlots > 0
    ensures r > 0
  {
    MulMonotone(1, slotSize, numSlots);
    slotSize * numSlots
  }

  /** Units a second, rounded down to units a millisecond first. */
  function PerSecond(amount: nat, millis: nat): nat
    requires millis > 0
  {
    amount / millis * 1000
  }

  /**
    `rate` is a multiple of `unit`, and the largest for which the units it makes in `millis` milliseconds are no more
    than `amount` of them; a thousand milliseconds are a second, and eight bits a byte.
   */
  predicate RoundedRate(rate: nat, unit: nat, amount: nat, millis: nat) {
    unit > 0 && rate % unit == 0 && rate * millis <= amount * unit < (rate + unit) * millis
  }

  /** What is reported is the rate per second, less than a thousand below the exact one. */
  lemma PerSecondIs(amount: nat, millis: nat)
    requires millis > 0
    ensures RoundedRate(PerSecond(amount, millis), 1000, amount, millis)
  {
    var q := amount / millis;
    QuotientIff(q, amount, millis);
    QuotientIff(q + 1, amount, millis);
    assert q * 1000 * millis == q * millis * 1000 && (q * 1000 + 1000) * millis == (q + 1) * millis * 1000;
  }

  lemma BitsPerSecondIs(amount: nat, millis: nat)
    requires millis > 0
    ensures RoundedRate(PerSecond(amount, millis) * 8, 8000, amount, millis)
  {
    var q := amount / millis;
    QuotientIff(q, amount, millis);
    QuotientIff(q + 1, amount, millis);
    assert PerSecond(amount, millis) * 8 == q * 8000;
    assert q * 8000 * millis == q * millis * 8000 && (q * 8000 + 8000) * millis == (q + 1) * millis * 8000;
  }

  /** When time slot `global` begins. */
  function BeginOf(global: nat, slotSize: nat): nat {
    global * slotSize
  }

  lemma BeginOfIs(global: nat, slotSize: nat)
    requires slotSize > 0
    ensures BeginOf(global, slotSize) / slotSize == global && BeginOf(global, slotSize) % slotSize == 0
  {
    DivisionIs(global * slotSize, slotSize, global, 0);
  }

  /** The mean rate over the ring, rounded down, is at most that of the peak slot, rounded down. */
  lemma MeanAtMostPeak(slots: seq<Slot>, q: Quantity, p: nat, slotSize: nat)
    requires slotSize > 0 && IsPeak(slots, q, p)
    ensures PerSecond(Sum(slots, q), Span(slotSize, |slots|)) <= PerSecond(Content(slots[p], q), slotSize)
  {
    SumAtMostPeak(slots, q, Content(slots[p], q));
    FloorOfMean(Sum(slots, q), |slots|, Content(slots[p], q), slotSize);
  }

  /** The time stamp of the `j`-th round of the loop. */
  function Stamp(start: nat, j: nat, slotSize: nat): nat {
    if j == 0 then start else Stamp(start, j - 1, slotSize) + slotSize
  }

  lemma {:induction false} StampIs(start: nat, j: nat, slotSize: nat)
    ensures Stamp(start, j, slotSize) == start + j * slotSize
    decreases j
  {
    if j > 0 {
      StampIs(start, j - 1, slotSize);
      assert j * slotSize == (j - 1) * slotSize + slotSize;
    }
  }

  /** The `j`-th round works on the `j`-th time slot from the first, and there are as many rounds as slots. */
  lemma RoundSlot(start: nat, j: nat, slotSize: nat, duration: nat)
    requires slotSize > 0
    ensures Stamp(start, j, slotSize) / slotSize == start / slotSize + j
    ensures duration > 0 ==> (Stamp(start, j, slotSize) < start + duration <==> j < Rounds(duration, slotSize))
  {
    StampIs(start, j, slotSize);
    AddMultiple(start, slotSize, j);
    if duration > 0 {
      var k := Rounds(duration, slotSize);
      if j < k { MulMonotone(j, k - 1, slotSize); } else { MulMonotone(k, j, slotSize); }
    }
  }

  /** The `j`-th contribution goes to the time slot that lies `j` slot lengths after the start. */
  lemma SlotsCover(bytes: nat, pkts: nat, start: nat, duration: nat, slotSize: nat, j: nat)
    requires slotSize > 0 && j < |Contributions(bytes, pkts, start, duration, slotSize)|
    ensures var g := Contributions(bytes, pkts, start, duration, slotSize)[j].global;
      g * slotSize <= start + j * slotSize < g * slotSize + slotSize
  {
    RoundContributes(bytes, pkts, start, j, slotSize, duration);
    StampIs(start, j, slotSize);
    hide Contributions, Rounds, Stamp;
    Floor(start + j * slotSize, slotSize);
  }

  lemma Floor(x: nat, n: nat)
    requires n > 0
    ensures x / n * n <= x < x / n * n + n
  {}

  /** Round `j` adds the `j`-th contribution, and there are as many rounds as contributions. */
  lemma RoundContributes(bytes: nat, pkts: nat, start: nat, j: nat, slotSize: nat, duration: nat)
    requires slotSize > 0
    ensures var cs, k := Contributions(bytes, pkts, start, duration, slotSize), Rounds(duration, slotSize);
      (Stamp(start, j, slotSize) < start + duration <==> j < |cs|) &&
      (j < |cs| ==> k > 0 && cs[j] == Contribution(Stamp(start, j, slotSize) / slotSize, bytes / k, pkts / k))
  {
    RoundSlot(start, j, slotSize, duration);
    hide Stamp, Rounds;
  }

  /** All the time slots an update covers have numbers that fit the int they are kept in. */
  predicate FitsInt(start: nat, duration: nat, slotSize: nat)
    requires slotSize > 0
  {
    (start + duration) / slotSize < 0x8000_0000
  }

  class HistCounter {
    const numSlots: nat
    const slotSize: nat
    const slots: array<Slot>
    var bytes: nat
    var pkts: nat
    var peakSlotBytes: nat
    var peakSlotPkts: nat
    ghost var history: seq<Contribution>

    /** The cached totals and peaks are those of the slots. */
    ghost predicate Cached()
      reads this, slots
    {
      slots.Length > 0 && bytes == Sum(slots[..], Bytes) && pkts == Sum(slots[..], Pkts) &&
      IsPeak(slots[..], Bytes, peakSlotBytes) && IsPeak(slots[..], Pkts, peakSlotPkts)
    }

    /** The ring is that of the history, and all caches are right. */
    ghost predicate Valid()
      reads this, slots
    {
      numSlots > 0 && slotSize > 0 && slots.Length == numSlots && slots[..] == Filled(numSlots, history) && Cached()
    }

    /** histc_init, on a structure of zeros. */
    constructor (numSlots: nat, slotSize: nat)
      requires numSlots > 0 && slotSize > 0
      ensures Valid() && fresh(slots) && history == [] && this.numSlots == numSlots && this.slotSize == slotSize
    {
      this.numSlots, this.slotSize := numSlots, slotSize;
      slots := new Slot[numSlots](_ => Slot(0, 0, 0));
      bytes, pkts, peakSlotBytes, peakSlotPkts, history := 0, 0, 0, 0, [];
      new;
      assert slots[..] == Zeroed(numSlots);
      ZeroedSum(numSlots, Bytes);
      ZeroedSum(numSlots, Pkts);
    }

    /** The rescan after the peak slot was emptied. */
    method RescanBytes()
      requires slots.Length > 0 && peakSlotBytes < slots.Length
      modifies this`peakSlotBytes
      ensures IsPeak(slots[..], Bytes, peakSlotBytes)
    {
      var i := 0;
      while i < slots.Length
        invariant 0 <= i <= slots.Length && peakSlotBytes < slots.Length
        invariant forall j :: 0 <= j < i ==> slots[j].bytes <= slots[peakSlotBytes].bytes
      {
        if slots[i].bytes >= slots[peakSlotBytes].bytes { peakSlotBytes := i; }
        i := i + 1;
      }
    }

    method RescanPkts()
      requires slots.Length > 0 && peakSlotPkts < slots.Length
      modifies this`peakSlotPkts
      ensures IsPeak(slots[..], Pkts, peakSlotPkts)
    {
      var i := 0;
      while i < slots.Length
        invariant 0 <= i <= slots.Length && peakSlotPkts < slots.Length
        invariant forall j :: 0 <= j < i ==> slots[j].pkts <= slots[peakSlotPkts].pkts
      {
        if slots[i].pkts >= slots[peakSlotPkts].pkts { peakSlotPkts := i; }
        i := i + 1;
      }
    }

    /** Empties slot `i` for time slot `g`, taking its content out of the totals. */
    method Evict(i: nat, g: nat)
      requires Cached() && i < slots.Length
      modifies this`bytes, this`pkts, this`peakSlotBytes, this`peakSlotPkts, slots
      ensures Cached() && slots[..] == old(slots[..])[i := Slot(0, 0, g)]
    {
      SumBounds(slots[..], i, Bytes);
      SumBounds(slots[..], i, Pkts);
      SumUpdate(slots[..], i, Slot(0, 0, g), Bytes);
      SumUpdate(slots[..], i, Slot(0, 0, g), Pkts);
      bytes := bytes - slots[i].bytes;
      pkts := pkts - slots[i].pkts;
      slots[i] := Slot(0, 0, g);
      if peakSlotBytes == i { RescanBytes(); }
      if peakSlotPkts == i { RescanPkts(); }
    }

    /** Adds to slot `i` and to the totals, and moves the peaks there if it is now among the fullest. */
    method Accumulate(i: nat, b: nat, p: nat)
      requires Cached() && i < slots.Length
      modifies this`bytes, this`pkts, this`peakSlotBytes, this`peakSlotPkts, slots
      ensures Cached()
      ensures var s := old(slots[i]); slots[..] == old(slots[..])[i := Slot(s.bytes + b, s.pkts + p, s.global)]
    {
      ghost var was := slots[..];
      var s := Slot(slots[i].bytes + b, slots[i].pkts + p, slots[i].global);
      SumUpdate(was, i, s, Bytes);
      SumUpdate(was, i, s, Pkts);
      slots[i] := s;
      assert slots[..] == was[i := s];
      bytes := bytes + b;
      pkts := pkts + p;
      if slots[i].bytes >= slots[peakSlotBytes].bytes { peakSlotBytes := i; }
      if slots[i].pkts >= slots[peakSlotPkts].pkts { peakSlotPkts := i; }
    }

    /** One round of the loop of histc_add. */
    method AddToSlot(g: nat, b: nat, p: nat)
      requires Valid()
      modifies this`bytes, this`pkts, this`peakSlotBytes, this`peakSlotPkts, this`history, slots
      ensures Valid() && history == old(history) + [Contribution(g, b, p)]
    {
      hide Sum, IsPeak;
      var i := g % numSlots;
      ghost var before := slots[..];
      if slots[i].global != g { Evict(i, g); }
      Accumulate(i, b, p);
      assert slots[..] == Touched(before, Contribution(g, b, p));
      history := history + [Contribution(g, b, p)];
      assert history[..|history| - 1] == old(history);
    }

    /** histc_add */
    method Add(bytes: nat, pkts: nat, start: nat, duration: nat)
      requires Valid() && FitsInt(start, duration, slotSize)
      modifies this, slots
      ensures Valid() && history == old(history) + Contributions(bytes, pkts, start, duration, slotSize)
    {
      hide Cached, Filled, FitsInt, Contributions;
      var k := 1;
      if duration > 0 {
        k := duration / slotSize;
        if duration % slotSize > 0 { k := k + 1; }
        assert k == Rounds(duration, slotSize);
      }
      hide Rounds;
      var bytesPerSlot, pktsPerSlot := bytes / k, pkts / k;
      ghost var cs, j := Contributions(bytes, pkts, start, duration, slotSize), 0;
      RoundContributes(bytes, pkts, start, 0, slotSize, duration);
      var slotTs := start;
      while slotTs < start + duration
        invariant Valid() && slotTs == Stamp(start, j, slotSize)
        invariant 0 <= j <= |cs| && (slotTs < start + duration <==> j < |cs|)
        invariant history == old(history) + cs[..j]
        decreases |cs| - j
      {
        RoundContributes(bytes, pkts, start, j, slotSize, duration);
        RoundContributes(bytes, pkts, start, j + 1, slotSize, duration);
        AddToSlot(slotTs / slotSize, bytesPerSlot, pktsPerSlot);
        assert cs[..j + 1] == cs[..j] + [cs[j]];
        slotTs, j := slotTs + slotSize, j + 1;
      }
      assert cs[..j] == cs;
    }

    /** histc_get_avg */
    method GetAvg() returns (bps: nat, pps: nat)
      requires Valid()
      ensures bps == PerSecond(Sum(slots[..], Bytes), Span(slotSize, numSlots)) * 8
      ensures pps == PerSecond(Sum(slots[..], Pkts), Span(slotSize, numSlots))
      ensures RoundedRate(bps, 8000, Sum(slots[..], Bytes), slotSize * numSlots)
      ensures RoundedRate(pps, 1000, Sum(slots[..], Pkts), slotSize * numSlots)
    {
      BitsPerSecondIs(bytes, Span(slotSize, numSlots));
      PerSecondIs(pkts, Span(slotSize, numSlots));
      assert Span(slotSize, numSlots) == slotSize * numSlots;
      hide Sum, Filled, IsPeak, Span, PerSecond, RoundedRate;
      bps := PerSecond(bytes, Span(slotSize, numSlots)) * 8;
      pps := PerSecond(pkts, Span(slotSize, numSlots));
    }

    /** histc_get_peak: rates of the fullest slots; the time is that of the slot with the most packets. */
    method GetPeak() returns (bps: nat, pps: nat, time: nat)
      requires Valid()
      ensures exists p: nat :: IsPeak(slots[..], Bytes, p) && bps == PerSecond(slots[p].bytes, slotSize) * 8
      ensures exists p: nat :: (IsPeak(slots[..], Pkts, p) && pps == PerSecond(slots[p].pkts, slotSize) &&
                                time == BeginOf(slots[p].global, slotSize))
      ensures exists p: nat :: IsPeak(slots[..], Bytes, p) && RoundedRate(bps, 8000, slots[p].bytes, slotSize)
      ensures exists p: nat :: (IsPeak(slots[..], Pkts, p) && RoundedRate(pps, 1000, slots[p].pkts, slotSize) &&
                                time / slotSize == slots[p].global && time % slotSize == 0)
    {
      ghost var ring := slots[..];
      assert IsPeak(ring, Bytes, peakSlotBytes) && IsPeak(ring, Pkts, peakSlotPkts);
      assert peakSlotBytes < slots.Length && peakSlotPkts < slots.Length;
      BitsPerSecondIs(slots[peakSlotBytes].bytes, slotSize);
      PerSecondIs(slots[peakSlotPkts].pkts, slotSize);
      BeginOfIs(slots[peakSlotPkts].global, slotSize);
      hide IsPeak, Cached, Filled, PerSecond, BeginOf, RoundedRate;
      bps := PerSecond(slots[peakSlotBytes].bytes, slotSize) * 8;
      pps := PerSecond(slots[peakSlotPkts].pkts, slotSize);
      time := BeginOf(slots[peakSlotPkts].global, slotSize);
    }
  }

  /** While updates are in time, the cached totals are right for the sliding window exactly when no slot is stale. */
  lemma CachedTotalsAreWindow(h: HistCounter)
    requires h.Valid() && InTime(h.history, h.numSlots)
    ensures var n, top := h.numSlots, Newest(h.history);
      (h.bytes == WindowSum(h.history, top, n, Bytes) && h.pkts == WindowSum(h.history, top, n, Pkts)) <==>
      forall i :: 0 <= i < n && h.slots[i].global + n <= top ==> h.slots[i].bytes == 0 && h.slots[i].pkts == 0
  {
    TotalIsWindowPlusStale(h.numSlots, h.history, Bytes);
    TotalIsWindowPlusStale(h.numSlots, h.history, Pkts);
    assert forall i :: 0 <= i < h.numSlots ==> h.slots[..][i] == h.slots[i];
  }

  /** What is reported as the mean never exceeds what is reported as the peak. */
  lemma AverageAtMostPeak(h: HistCounter)
    requires h.Valid()
    ensures PerSecond(Sum(h.slots[..], Bytes), Span(h.slotSize, h.numSlots)) <=
            PerSecond(h.slots[h.peakSlotBytes].bytes, h.slotSize)
    ensures PerSecond(Sum(h.slots[..], Pkts), Span(h.slotSize, h.numSlots)) <=
            PerSecond(h.slots[h.peakSlotPkts].pkts, h.slotSize)
  {
    MeanAtMostPeak(h.slots[..], Bytes, h.peakSlotBytes, h.slotSize);
    MeanAtMostPeak(h.slots[..], Pkts, h.peakSlotPkts, h.slotSize);
  }
}
