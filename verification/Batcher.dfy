/**
 The live-stream batchers of tcpdump and log tail: a fixed ring keeps the newest items since
 the last flush, the rest are only counted. Both streams run this code, with 250 and 400 slots.
 */
module Batcher {
  datatype Batch<T> = Batch(items: seq<T>, skipped: nat, total: nat)

  /** The last items a ring of cap slots has kept. */
  function Tail<T>(xs: seq<T>, cap: nat): (r: seq<T>)
    ensures |r| == if |xs| < cap then |xs| else cap
  {
    if |xs| <= cap then xs else xs[|xs| - cap..]
  }

  lemma TailIsLast<T>(xs: seq<T>, cap: nat)
    ensures Tail(xs, cap) == xs[|xs| - |Tail(xs, cap)|..]
  {
  }

  /** The ring slot of an ever-growing index. */
  function Slot(i: nat, cap: nat): (r: nat)
    requires cap > 0
    ensures r < cap
  {
    i % cap
  }

  class BatchRing<T(0)> {
    const ring: array<T>
    var head: nat
    var filled: nat
    var skipped: nat
    var total: nat
    ghost var pending: seq<T>      // every item since the last flush
    ghost var capture: Capture<T>  // all that was emitted so far

    ghost predicate Valid()
      reads this, ring
    {
      && ring.Length > 0 && head < ring.Length && filled <= ring.Length
      && filled == |Tail(pending, ring.Length)|
      && skipped == |pending| - filled
      && head == Slot(|pending|, ring.Length)
      && capture.pending == pending && capture.total == total && |pending| <= total
      && forall i :: |pending| - filled <= i < |pending| ==> ring[Slot(i, ring.Length)] == pending[i]
    }

    constructor (cap: nat)
      requires cap > 0
      ensures Valid() && capture == Run([], cap) && ring.Length == cap && fresh(ring)
    {
      ring := new T[cap];
      head, filled, skipped, total, pending := 0, 0, 0, 0, [];
      capture := Capture([], [], 0);
    }

    method OnLine(x: T)
      requires Valid()
      modifies this, ring
      ensures Valid() && capture == Step(old(capture), Line(x), ring.Length)
      ensures pending == old(pending) + [x] && total == old(total) + 1
    {
      hide Slot, Step, Tail;
      StepLine(capture, x, ring.Length);
      ghost var n := |pending|;
      total := total + 1;
      if filled == ring.Length { skipped := skipped + 1; } else { filled := filled + 1; }
      ring[head] := x;
      head := Slot(head + 1, ring.Length);
      pending, capture := pending + [x], Step(capture, Line(x), ring.Length);
      NextIndex(n, ring.Length);
      forall i | n + 1 - filled <= i < n ensures Slot(i, ring.Length) != Slot(n, ring.Length) {
        Distinct(i, n, ring.Length);
      }
    }

    /** Sends nothing when nothing arrived; otherwise the batch of the capture's tick. */
    method Flush() returns (sent: bool, b: Batch<T>)
      requires Valid()
      modifies this
      ensures Valid() && capture == Step(old(capture), Tick, ring.Length)
      ensures sent <==> old(pending) != []
      ensures sent ==> capture.batches == old(capture).batches + [b]
      ensures pending == [] && total == old(total)
      ensures sent ==> b.total == total && |b.items| + b.skipped == |old(pending)|
      ensures sent ==> |b.items| == (if |old(pending)| < ring.Length then |old(pending)| else ring.Length)
      ensures sent ==> b.items == old(pending)[b.skipped..]
    {
      StepTick(capture, ring.Length);
      TailIsLast(pending, ring.Length);
      hide Step, Slot, Tail;
      sent, b := filled != 0, Batch([], skipped, total);
      if filled == 0 { return; }
      var items := ReadBack();
      b := Batch(items, skipped, total);
      filled, head, skipped := 0, 0, 0;
      pending, capture := [], Step(capture, Tick, ring.Length);
    }

    /** The kept items, oldest first. */
    method ReadBack() returns (items: seq<T>)
      requires Valid()
      ensures items == Tail(pending, ring.Length)
    {
      hide Slot, Tail;
      var n: nat := ring.Length;
      var first := Slot(head + n - filled, n);
      ghost var kept := Tail(pending, n);
      items := [];
      for i := 0 to filled
        invariant items == kept[..i]
      {
        KeptAt(i);
        hide Valid;
        items := items + [ring[Slot(first + i, n)]];
      }
    }

    /** Where the i-th kept item sits. */
    lemma KeptAt(i: nat)
      requires Valid() && i < filled
      ensures ring[Slot(Slot(head + ring.Length - filled, ring.Length) + i, ring.Length)] ==
          Tail(pending, ring.Length)[i]
    {
      hide Slot;
      ReadIndex(|pending|, filled, i, ring.Length);
      assert ring[Slot(|pending| - filled + i, ring.Length)] == pending[|pending| - filled + i];
    }
  }

  lemma StepTick<T>(c: Capture<T>, cap: nat)
    ensures Step(c, Tick, cap) ==
      if c.pending == [] then c
      else
        Capture(c.batches + [Batch(Tail(c.pending, cap), |c.pending| - |Tail(c.pending, cap)|, c.total)], [], c.total)
  {
  }

  lemma StepLine<T>(c: Capture<T>, x: T, cap: nat)
    ensures Step(c, Line(x), cap) == Capture(c.batches, c.pending + [x], c.total + 1)
  {
  }

  /** Reading slot i of the kept items reads the i-th of them. */
  lemma ReadIndex(n: nat, filled: nat, i: nat, cap: nat)
    requires cap > 0 && filled <= cap && filled <= n
    ensures Slot(Slot(Slot(n, cap) + cap - filled, cap) + i, cap) == Slot(n - filled + i, cap)
  {
    StartIndex(n, filled, cap);
    AddMod(n - filled, i, cap);
  }

  lemma NextIndex(n: nat, cap: nat)
    requires cap > 0
    ensures Slot(Slot(n, cap) + 1, cap) == Slot(n + 1, cap)
  {
    AddMod(n, 1, cap);
  }

  lemma AddMod(a: nat, b: nat, cap: nat)
    requires cap > 0
    ensures (a % cap + b) % cap == (a + b) % cap
  {
    var q := a / cap;
    assert a + b == cap * q + (a % cap + b);
    MulMod(q, a % cap + b, cap);
  }

  lemma {:induction false} MulMod(q: nat, r: nat, cap: nat)
    requires cap > 0
    ensures (cap * q + r) % cap == r % cap
  {
    if q > 0 {
      MulMod(q - 1, r, cap);
      assert cap * q + r == cap * (q - 1) + r + cap;
      OneMore(cap * (q - 1) + r, cap);
    }
  }

  lemma OneMore(x: nat, cap: nat)
    requires cap > 0
    ensures (x + cap) % cap == x % cap
  {
    var k := (x + cap) / cap - x / cap - 1;
    assert x == x / cap * cap + x % cap;
    assert x + cap == (x + cap) / cap * cap + (x + cap) % cap;
    assert k * cap == (x + cap) / cap * cap - x / cap * cap - cap;
    AtLeastOnce(k, cap);
    AtLeastOnce(-k, cap);
  }

  lemma AtLeastOnce(k: int, m: nat)
    ensures k >= 1 ==> k * m >= m
  {
    if k >= 1 { assert k * m == m + (k - 1) * m; }
  }

  /** Indices less than a ring apart use different slots. */
  lemma Distinct(i: nat, n: nat, cap: nat)
    requires i < n < i + cap
    ensures Slot(i, cap) != Slot(n, cap)
  {
    var r, d := i % cap, n - i;
    AddMod(i, d, cap);
    if r + d < cap {
      Small(r + d, cap);
    } else {
      OneMore(r + d - cap, cap);
      Small(r + d - cap, cap);
    }
  }

  lemma Small(x: nat, cap: nat)
    requires x < cap
    ensures x % cap == x
  {
  }

  /** Where the oldest kept item sits. */
  lemma StartIndex(n: nat, filled: nat, cap: nat)
    requires cap > 0 && filled <= cap && filled <= n
    ensures (n % cap + cap - filled) % cap == (n - filled) % cap
  {
    AddMod(n, cap - filled, cap);
    OneMore(n - filled, cap);
  }

  // ---- a whole capture ----

  datatype Event<T> = Line(x: T) | Tick

  /** What a capture emits: the batches so far, the items since the last one, and the count. */
  datatype Capture<T> = Capture(batches: seq<Batch<T>>, pending: seq<T>, total: nat)

  function Step<T>(c: Capture<T>, e: Event<T>, cap: nat): Capture<T> {
    match e
    case Line(x) => Capture(c.batches, c.pending + [x], c.total + 1)
    case Tick =>
      if c.pending == [] then c
      else
        var items := Tail(c.pending, cap);
        Capture(c.batches + [Batch(items, |c.pending| - |items|, c.total)], [], c.total)
  }

  function Run<T>(es: seq<Event<T>>, cap: nat): Capture<T> {
    if es == [] then Capture([], [], 0) else Step(Run(es[..|es| - 1], cap), es[|es| - 1], cap)
  }

  function Emitted<T>(bs: seq<Batch<T>>): nat {
    if bs == [] then 0 else Emitted(bs[..|bs| - 1]) + |bs[|bs| - 1].items|
  }

  function Skipped<T>(bs: seq<Batch<T>>): nat {
    if bs == [] then 0 else Skipped(bs[..|bs| - 1]) + bs[|bs| - 1].skipped
  }

  /** The items that arrived. */
  function Arrived<T>(es: seq<Event<T>>): (xs: seq<T>) {
    if es == [] then []
    else Arrived(es[..|es| - 1]) + if es[|es| - 1].Line? then [es[|es| - 1].x] else []
  }

  /** Nothing is lost from the count: emitted, skipped and pending items are all that arrived. */
  lemma {:induction false} CountsAddUp<T>(es: seq<Event<T>>, cap: nat)
    ensures var c := Run(es, cap);
      Emitted(c.batches) + Skipped(c.batches) + |c.pending| == c.total == |Arrived(es)|
  {
    if es != [] {
      CountsAddUp(es[..|es| - 1], cap);
      var c, d := Run(es[..|es| - 1], cap), Run(es, cap);
      if |d.batches| > |c.batches| { assert d.batches[..|d.batches| - 1] == c.batches; }
    }
  }

  /** Each batch carries the count of everything up to its flush. */
  lemma {:induction false} TotalsAreCumulative<T>(es: seq<Event<T>>, cap: nat, i: nat)
    requires i < |Run(es, cap).batches|
    ensures var bs := Run(es, cap).batches; bs[i].total == Emitted(bs[..i + 1]) + Skipped(bs[..i + 1])
  {
    var init := es[..|es| - 1];
    var c, d := Run(init, cap), Run(es, cap);
    if i < |c.batches| {
      TotalsAreCumulative(init, cap, i);
      assert d.batches[..i + 1] == c.batches[..i + 1];
    } else {
      CountsAddUp(es, cap);
      assert d.batches[..i + 1] == d.batches && d.pending == [];
    }
  }

  /** b holds the newest of xs[lo..hi] that fit, and counts the others as skipped. */
  predicate Holds<T(==)>(b: Batch<T>, xs: seq<T>, lo: nat, hi: nat, cap: nat) {
    && lo < hi <= |xs| && hi == lo + |b.items| + b.skipped
    && |b.items| == (if hi - lo < cap then hi - lo else cap)
    && b.items == xs[hi - |b.items|..hi]
  }

  lemma HoldsLonger<T>(b: Batch<T>, xs: seq<T>, ys: seq<T>, lo: nat, hi: nat, cap: nat)
    requires Holds(b, xs, lo, hi, cap) && xs <= ys
    ensures Holds(b, ys, lo, hi, cap)
  {
  }

  /** The batch a tick sends. */
  lemma TickHolds<T>(c: Capture<T>, xs: seq<T>, cap: nat)
    requires c.pending != [] && |c.pending| <= |xs| && c.pending == xs[|xs| - |c.pending|..]
    ensures |Step(c, Tick, cap).batches| == |c.batches| + 1
    ensures Holds(Step(c, Tick, cap).batches[|c.batches|], xs, |xs| - |c.pending|, |xs|, cap)
  {
    TailIsLast(c.pending, cap);
  }

  /** Batch i was sent by the tick es[n]. It holds, in order, the newest of the items that arrived before
      that tick and after the flush before, as many as the ring has slots; the others are its skipped ones. */
  lemma {:induction false} BatchesAreTails<T>(es: seq<Event<T>>, cap: nat, i: nat) returns (lo: nat, hi: nat, n: nat)
    requires i < |Run(es, cap).batches|
    ensures n < |es| && es[n].Tick? && hi == |Arrived(es[..n])|
    ensures lo == Emitted(Run(es, cap).batches[..i]) + Skipped(Run(es, cap).batches[..i])
    ensures Holds(Run(es, cap).batches[i], Arrived(es), lo, hi, cap)
  {
    hide Holds, Tail, Emitted, Skipped;
    var init := es[..|es| - 1];
    var c, d := Run(init, cap), Run(es, cap);
    if i < |c.batches| {
      lo, hi, n := BatchesAreTails(init, cap, i);
      assert d.batches[..i] == c.batches[..i] && es[..n] == init[..n];
      HoldsLonger(c.batches[i], Arrived(init), Arrived(es), lo, hi, cap);
    } else {
      PendingIsTheRest(init, cap);
      CountsAddUp(init, cap);
      lo, hi, n := |Arrived(init)| - |c.pending|, |Arrived(init)|, |init|;
      TickHolds(c, Arrived(init), cap);
      assert d.batches[..i] == c.batches && Arrived(es) == Arrived(init);
    }
  }

  lemma {:induction false} PendingIsTheRest<T>(es: seq<Event<T>>, cap: nat)
    ensures |Run(es, cap).pending| <= |Arrived(es)|
    ensures Run(es, cap).pending == Arrived(es)[|Arrived(es)| - |Run(es, cap).pending|..]
  {
    if es != [] { PendingIsTheRest(es[..|es| - 1], cap); }
  }
}
