/**
 The proxy's dial loop over several addresses: each attempt gets its share, by integer
 division, of what is left of one overall bound. Times are nanoseconds.
 */
module DialBudget {
  function Share(left: nat, n: nat): nat
    requires n > 0
  {
    left / n
  }

  /** Attempts that end by their deadlines leave at least as much for each later one. */
  lemma NextBudget(left: nat, n: nat, d: nat)
    requires n > 1 && d <= Share(left, n) <= left
    ensures Share(left - d, n - 1) >= Share(left, n)
  {
    var b := left / n;
    ShareTimes(left, n);
    OneLess(b, n);
    DivLower(left - d, n - 1, b);
  }

  lemma ShareTimes(left: nat, n: nat)
    requires n > 0
    ensures left / n * n <= left
  {
    assert left == left / n * n + left % n;
  }

  lemma OneLess(b: int, n: int)
    ensures b * (n - 1) == b * n - b
  {
  }

  lemma DivLower(x: nat, m: nat, b: nat)
    requires m > 0 && b * m <= x
    ensures x / m >= b
  {
    var k := b - x / m - 1;
    assert x == x / m * m + x % m;
    assert k * m == b * m - x / m * m - m;
    NonNegative(k, m);
  }

  lemma NonNegative(k: int, m: nat)
    ensures k >= 0 ==> k * m >= 0
  {
  }

  lemma ShareIs(left: nat, n: nat)
    requires n > 0
    ensures Share(left, n) == left / n
  {
  }

  /** A share of the time left is no more than the time left. */
  lemma ShareFits(left: nat, n: nat)
    requires n > 0
    ensures Share(left, n) <= left
  {
    var b := left / n;
    assert left == b * n + left % n;
    assert b * n == b + (n - 1) * b;
    NonNegative(n - 1, b);
  }

  /** While another address is left, an attempt that ends by its deadline leaves some of the time. */
  lemma SomeIsLeft(left: nat, n: nat, took: nat)
    requires n > 1 && left > 0 && took <= Share(left, n)
    ensures took < left
  {
    var b := Share(left, n);
    ShareTimes(left, n);
    if b >= left { Doubled(b, n); }
  }

  lemma Doubled(b: nat, n: nat)
    requires n > 1
    ensures b * n >= b + b
  {
    assert b * n == b + b + b * (n - 2);
    NonNegative(n - 2, b);
  }

  function Sum(xs: seq<nat>): nat {
    if xs == [] then 0 else Sum(xs[..|xs| - 1]) + xs[|xs| - 1]
  }

  lemma SumOneMore(xs: seq<nat>, x: nat)
    ensures Sum(xs + [x]) == Sum(xs) + x
  {
    assert (xs + [x])[..|xs|] == xs;
  }

  /** The i-th attempt's share: what is left of total, over the addresses not tried yet. */
  predicate IsShare(total: nat, n: nat, took: seq<nat>, i: nat, budget: nat)
    requires i <= |took|
  {
    i < n && Sum(took[..i]) <= total && budget == (total - Sum(took[..i])) / (n - i)
  }

  /** Dials n addresses within total, until one answers: answers says which of them do. budgets and
      took record each attempt's share and the time it used; how much of its share an attempt takes is up
      to the network. Without an answer every address is tried: a silent one cannot use up the time of
      those behind it. */
  method DialInTurn(n: nat, total: nat, answers: seq<bool>)
      returns (connected: bool, budgets: seq<nat>, took: seq<nat>)
    requires n > 0 && |answers| == n
    ensures 0 < |budgets| == |took| <= n
    ensures connected == answers[|budgets| - 1]
    ensures forall i :: 0 <= i < |budgets| - 1 ==> !answers[i]
    ensures forall i :: 0 <= i < |budgets| ==> IsShare(total, n, took, i, budgets[i]) && took[i] <= budgets[i]
    ensures Sum(took) <= total
    ensures forall i, j :: 0 <= i < j < |budgets| ==> budgets[i] <= budgets[j]
    ensures forall i :: 0 <= i < |budgets| ==> budgets[i] >= total / n
    ensures !connected ==> |budgets| == n || total == 0
    ensures total > 0 ==> (connected <==> exists i :: 0 <= i < n && answers[i])
  {
    hide Share, Sum, IsShare;
    connected, budgets, took := false, [], [];
    var i := 0;
    var spent: nat := 0;
    ShareIs(total, n);
    NothingSpent();
    while i < n
      invariant 0 <= i <= n && |budgets| == |took| == i && spent == Sum(took) <= total && !connected
      invariant forall k :: 0 <= k < i ==> !answers[k]
      invariant forall k :: 0 <= k < i ==> IsShare(total, n, took, k, budgets[k]) && took[k] <= budgets[k]
      invariant forall j, k :: 0 <= j < k < |budgets| ==> budgets[j] <= budgets[k]
      invariant i < n ==> Share(total - spent, n - i) >= Share(total, n)
      invariant forall k :: 0 <= k < i ==> budgets[k] >= Share(total, n)
      invariant i < n ==> forall k :: 0 <= k < i ==> budgets[k] <= Share(total - spent, n - i)
      invariant i < n && total > 0 ==> spent < total
    {
      var left := total - spent;
      var budget := left / (n - i);
      ShareIs(left, n - i);
      ShareFits(left, n - i);
      var time: nat :| time <= budget;
      if n - i > 1 {
        NextBudget(left, n - i, time);
        if left > 0 { SomeIsLeft(left, n - i, time); }
      }
      SumOneMore(took, time);
      SharesKept(total, n, budgets, took, budget, time);
      budgets, took, spent := budgets + [budget], took + [time], spent + time;
      connected := answers[i];
      i := i + 1;
      if connected || spent == total { return; }
    }
  }

  lemma NothingSpent()
    ensures Sum([]) == 0
  {
  }

  lemma SharesKept(total: nat, n: nat, budgets: seq<nat>, took: seq<nat>, budget: nat, time: nat)
    requires |budgets| == |took| < n && Sum(took) <= total && budget == (total - Sum(took)) / (n - |took|)
    requires forall k :: 0 <= k < |took| ==> IsShare(total, n, took, k, budgets[k])
    ensures forall k :: 0 <= k <= |took| ==> IsShare(total, n, took + [time], k, (budgets + [budget])[k])
  {
    assert forall k :: 0 <= k <= |took| ==> (took + [time])[..k] == took[..k];
    assert took[..|took|] == took;
  }
}
