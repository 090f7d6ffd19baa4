/** Searching and weighing the slots of a fixed-size table. */
module Tables {

  /** The first slot that satisfies `p`, or the length of the table. */
  function First<T>(s: seq<T>, p: T -> bool): (i: nat)
    ensures i <= |s|
    ensures forall k :: 0 <= k < i ==> !p(s[k])
    ensures i < |s| ==> p(s[i])
  {
    if s == [] then 0
    else
      var i := First(s[..|s| - 1], p);
      if i < |s| - 1 || p(s[|s| - 1]) then i else |s|
  }

  lemma FirstIs<T>(s: seq<T>, p: T -> bool, i: nat)
    requires i <= |s| && (forall k :: 0 <= k < i ==> !p(s[k])) && (i < |s| ==> p(s[i]))
    ensures First(s, p) == i
  {
    hide First;
  }

  lemma FirstOfMore<T>(s: seq<T>, x: T, p: T -> bool)
    ensures First(s + [x], p) == if First(s, p) < |s| then First(s, p) else if p(x) then |s| else |s| + 1
  {
    hide First;
    FirstIs(s + [x], p, if First(s, p) < |s| then First(s, p) else if p(x) then |s| else |s| + 1);
  }

  function Sum<T>(s: seq<T>, weight: T -> nat): nat {
    if s == [] then 0 else Sum(s[..|s| - 1], weight) + weight(s[|s| - 1])
  }

  lemma {:induction false} SumUpdate<T>(s: seq<T>, weight: T -> nat, i: nat, x: T)
    requires i < |s|
    ensures Sum(s[i := x], weight) + weight(s[i]) == Sum(s, weight) + weight(x)
    decreases |s|
  {
    var t := s[i := x];
    if i == |s| - 1 {
      assert t[..|t| - 1] == s[..|s| - 1];
    } else {
      assert t[..|t| - 1] == s[..|s| - 1][i := x];
      SumUpdate(s[..|s| - 1], weight, i, x);
    }
  }

  lemma {:induction false} SumAtLeast<T>(s: seq<T>, weight: T -> nat, i: nat)
    requires i < |s|
    ensures Sum(s, weight) >= weight(s[i])
    decreases |s|
  {
    if i < |s| - 1 {
      SumAtLeast(s[..|s| - 1], weight, i);
    }
  }

  lemma {:induction false} SumZero<T>(s: seq<T>, weight: T -> nat)
    requires forall i :: 0 <= i < |s| ==> weight(s[i]) == 0
    ensures Sum(s, weight) == 0
    decreases |s|
  {
    if s != [] {
      SumZero(s[..|s| - 1], weight);
    }
  }

  lemma {:induction false} SumAppend<T>(s: seq<T>, t: seq<T>, weight: T -> nat)
    ensures Sum(s + t, weight) == Sum(s, weight) + Sum(t, weight)
    decreases |t|
  {
    if t == [] {
      assert s + t == s;
    } else {
      assert (s + t)[..|s + t| - 1] == s + t[..|t| - 1];
      SumAppend(s, t[..|t| - 1], weight);
    }
  }

  /** One slot more; a prefix never weighs more than the whole. */
  lemma SumPrefix<T>(s: seq<T>, weight: T -> nat, n: nat)
    requires n < |s|
    ensures Sum(s[..n + 1], weight) == Sum(s[..n], weight) + weight(s[n])
    ensures Sum(s[..n + 1], weight) <= Sum(s, weight)
  {
    var front := s[..n + 1];
    assert front[..n] == s[..n];
    assert Sum(front, weight) == Sum(s[..n], weight) + weight(s[n]);
    hide Sum;
    assert s == front + s[n + 1..];
    SumAppend(front, s[n + 1..], weight);
  }

  lemma {:induction false} SumBound<T>(s: seq<T>, weight: T -> nat, bound: nat)
    requires forall i :: 0 <= i < |s| ==> weight(s[i]) <= bound
    ensures Sum(s, weight) <= |s| * bound
    decreases |s|
  {
    if s != [] {
      SumBound(s[..|s| - 1], weight, bound);
      assert |s| * bound == (|s| - 1) * bound + bound;
    }
  }

  /** Tables that weigh the same slot by slot weigh the same. */
  lemma {:induction false} SumPointwise<T>(s: seq<T>, t: seq<T>, weight: T -> nat)
    requires |s| == |t| && forall i :: 0 <= i < |s| ==> weight(s[i]) == weight(t[i])
    ensures Sum(s, weight) == Sum(t, weight)
    decreases |s|
  {
    if s != [] {
      SumPointwise(s[..|s| - 1], t[..|t| - 1], weight);
    }
  }

  /** A table whose slots split between two weighs what the two weigh. */
  lemma {:induction false} SumSplit<T>(s: seq<T>, a: seq<T>, b: seq<T>, weight: T -> nat)
    requires |s| == |a| == |b| && forall i :: 0 <= i < |s| ==> weight(s[i]) == weight(a[i]) + weight(b[i])
    ensures Sum(s, weight) == Sum(a, weight) + Sum(b, weight)
    decreases |s|
  {
    if s != [] {
      var n := |s| - 1;
      SumSplit(s[..n], a[..n], b[..n], weight);
    }
  }

  // ---------------------------------------------------------------------
  // Draining a table: take the first slot that satisfies `p`, replace it, repeat
  // ---------------------------------------------------------------------

  /** Every slot that satisfies `p`, replaced by `g` of it. */
  function Swept<T>(s: seq<T>, p: T -> bool, g: T -> T): (r: seq<T>)
    ensures |r| == |s|
    ensures forall i :: 0 <= i < |s| ==> r[i] == if p(s[i]) then g(s[i]) else s[i]
  {
    if s == [] then []
    else
      var last := s[|s| - 1];
      Swept(s[..|s| - 1], p, g) + [if p(last) then g(last) else last]
  }

  /** What `h` reads off the slots that satisfy `p`, in order. */
  function Collect<T, U>(s: seq<T>, p: T -> bool, h: T -> U): (r: seq<U>)
    ensures |r| <= |s|
  {
    if s == [] then []
    else
      var front, last := Collect(s[..|s| - 1], p, h), s[|s| - 1];
      if p(last) then front + [h(last)] else front
  }

  lemma {:induction false} CollectSkips<T, U>(s: seq<T>, p: T -> bool, h: T -> U, f: nat, i: nat)
    requires f <= i <= |s|
    requires forall k :: f <= k < i ==> !p(s[k])
    ensures Collect(s[..i], p, h) == Collect(s[..f], p, h)
    decreases i
  {
    if f < i {
      assert s[..i][..i - 1] == s[..i - 1];
      CollectSkips(s, p, h, f, i - 1);
    }
  }

  /** Every slot that satisfies `p` is collected, each of them once. */
  lemma {:induction false} CollectExact<T, U>(s: seq<T>, p: T -> bool, h: T -> U)
    ensures |Collect(s, p, h)| == Sum(s, x => if p(x) then 1 else 0)
    ensures forall i :: 0 <= i < |s| && p(s[i]) ==> h(s[i]) in Collect(s, p, h)
    decreases |s|
  {
    if s != [] {
      CollectExact(s[..|s| - 1], p, h);
    }
  }

  /** The table once the first `f` slots have been swept. */
  ghost function SweptTo<T>(s: seq<T>, p: T -> bool, g: T -> T, f: nat): (r: seq<T>)
    requires f <= |s|
    ensures |r| == |s|
    ensures forall i :: 0 <= i < |s| ==> r[i] == if i < f && p(s[i]) then g(s[i]) else s[i]
  {
    Swept(s[..f], p, g) + s[f..]
  }

  /** One turn of the drain loop moves the swept prefix past the first slot that satisfies `p`. */
  lemma SweepStep<T>(s: seq<T>, p: T -> bool, g: T -> T, f: nat, current: seq<T>, i: nat)
    requires f <= |s|
    requires forall i :: 0 <= i < |s| && p(s[i]) ==> !p(g(s[i]))
    requires current == SweptTo(s, p, g, f) && i == First(current, p)
    ensures f <= i
    ensures forall k :: f <= k < i ==> !p(s[k])
    ensures i == |s| ==> current == Swept(s, p, g)
    ensures i < |s| ==> current[i] == s[i] && current[i := g(s[i])] == SweptTo(s, p, g, i + 1)
  {
    hide First, Swept, SweptTo;
    assert forall k :: 0 <= k < f ==> !p(current[k]);
    assert f <= i;
    forall k | f <= k < i
      ensures !p(s[k])
    {
      assert current[k] == s[k];
    }
    if i < |s| {
      var next, after := current[i := g(s[i])], SweptTo(s, p, g, i + 1);
      assert |next| == |after| && forall k :: 0 <= k < |s| ==> next[k] == after[k];
    }
  }

  lemma CollectStep<T, U>(s: seq<T>, p: T -> bool, h: T -> U, f: nat, i: nat)
    requires f <= i <= |s|
    requires forall k :: f <= k < i ==> !p(s[k])
    ensures i == |s| ==> Collect(s, p, h) == Collect(s[..f], p, h)
    ensures i < |s| && p(s[i]) ==> Collect(s[..i + 1], p, h) == Collect(s[..f], p, h) + [h(s[i])]
  {
    CollectSkips(s, p, h, f, i);
    if i == |s| {
      assert s[..i] == s;
    } else {
      assert s[..i + 1][..i] == s[..i];
    }
  }

  // ---------------------------------------------------------------------
  // Order of collected slots
  // ---------------------------------------------------------------------

  /** Filling a slot behind every collected one appends to the collection. */
  lemma {:induction false} CollectAppends<T, U>(s: seq<T>, p: T -> bool, h: T -> U, v: nat, x: T)
    requires v < |s| && !p(s[v]) && p(x)
    requires forall k :: v < k < |s| ==> !p(s[k])
    ensures Collect(s[v := x], p, h) == Collect(s, p, h) + [h(x)]
    decreases |s|
  {
    var t := s[v := x];
    if v == |s| - 1 {
      assert t[..|t| - 1] == s[..|s| - 1];
    } else {
      assert t[..|t| - 1] == s[..|s| - 1][v := x];
      CollectAppends(s[..|s| - 1], p, h, v, x);
    }
  }

  /** Slots that are not collected on either side do not matter. */
  lemma {:induction false} CollectSame<T, U>(s: seq<T>, t: seq<T>, p: T -> bool, h: T -> U)
    requires |s| == |t|
    requires forall k :: 0 <= k < |s| ==> s[k] == t[k] || (!p(s[k]) && !p(t[k]))
    ensures Collect(s, p, h) == Collect(t, p, h)
    decreases |s|
  {
    if s != [] {
      CollectSame(s[..|s| - 1], t[..|t| - 1], p, h);
    }
  }
}
