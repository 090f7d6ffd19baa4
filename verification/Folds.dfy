/** Repeating a step, and feeding a sequence to a step, over any state type. */
module Folds {

  function Iterate<R>(f: R -> R, x: R, n: nat): R
    decreases n
  {
    if n == 0 then x else Iterate(f, f(x), n - 1)
  }

  function Fold<R, B>(step: (R, B) -> R, state: R, input: seq<B>): R {
    if input == [] then state
    else step(Fold(step, state, input[..|input| - 1]), input[|input| - 1])
  }

  ghost predicate Injective<R(!new)>(f: R -> R) {
    forall a, b :: f(a) == f(b) ==> a == b
  }

  ghost predicate StateInjective<R(!new), B(!new)>(step: (R, B) -> R) {
    forall a, b, x :: step(a, x) == step(b, x) ==> a == b
  }

  lemma {:induction false} IterateInjective<R(!new)>(f: R -> R, a: R, b: R, n: nat)
    requires Injective(f)
    requires Iterate(f, a, n) == Iterate(f, b, n)
    ensures a == b
    decreases n
  {
    if n > 0 {
      IterateInjective(f, f(a), f(b), n - 1);
    }
  }

  /** Distinct states stay distinct while they are fed the same input. */
  lemma {:induction false} FoldInjective<R(!new), B(!new)>(step: (R, B) -> R, a: R, b: R, input: seq<B>)
    requires StateInjective(step)
    requires Fold(step, a, input) == Fold(step, b, input)
    ensures a == b
    decreases |input|
  {
    if input != [] {
      FoldInjective(step, a, b, input[..|input| - 1]);
    }
  }

  lemma {:induction false} FoldConcat<R, B>(step: (R, B) -> R, state: R, front: seq<B>, back: seq<B>)
    ensures Fold(step, state, front + back) == Fold(step, Fold(step, state, front), back)
    decreases |back|
  {
    if back == [] {
      assert front + back == front;
    } else {
      assert (front + back)[..|front + back| - 1] == front + back[..|back| - 1];
      FoldConcat(step, state, front, back[..|back| - 1]);
    }
  }

  lemma {:induction false} IterateLast<R>(f: R -> R, x: R, n: nat)
    requires n > 0
    ensures Iterate(f, x, n) == f(Iterate(f, x, n - 1))
    decreases n
  {
    if n > 1 {
      IterateLast(f, f(x), n - 1);
    }
  }

  // ---------------------------------------------------------------------
  // Differences that travel through a shift register
  // ---------------------------------------------------------------------

  /** Where there is room, mixing in `up(y)` before `f` is mixing in `y` after it. */
  ghost predicate Descends<R(!new)>(f: R -> R, mix: (R, R) -> R, up: R -> R, room: R -> bool) {
    forall z, y :: room(y) ==> f(mix(z, up(y))) == mix(f(z), y)
  }

  /** There is room to raise `y` `n` times. */
  ghost predicate Room<R>(up: R -> R, room: R -> bool, y: R, n: nat)
    decreases n
  {
    n == 0 || (room(y) && Room(up, room, up(y), n - 1))
  }

  lemma {:induction false} MovesDown<R(!new)>(
    f: R -> R, mix: (R, R) -> R, up: R -> R, room: R -> bool, z: R, y: R, n: nat)
    requires Descends(f, mix, up, room) && Room(up, room, y, n)
    ensures Iterate(f, mix(z, Iterate(up, y, n)), n) == mix(Iterate(f, z, n), y)
    decreases n
  {
    if n > 0 {
      MovesDown(f, mix, up, room, z, up(y), n - 1);
      IterateLast(f, mix(z, Iterate(up, y, n)), n);
      IterateLast(f, z, n);
    }
  }

  ghost predicate SelfInverse<R(!new)>(mix: (R, R) -> R) {
    && (forall x, y :: mix(mix(x, y), y) == x)
    && (forall x, y :: mix(x, y) == mix(y, x))
    && (forall x, y, z :: mix(mix(x, y), z) == mix(x, mix(y, z)))
  }

  /** `p + w == (q + v) + high` gives `p == q + ((w + v) + high)`. */
  lemma Peel<R(!new)>(mix: (R, R) -> R, p: R, q: R, w: R, v: R, high: R)
    requires SelfInverse(mix) && mix(p, w) == mix(mix(q, v), high)
    ensures p == mix(q, mix(mix(w, v), high))
  {
    calc {
      p;
      mix(mix(p, w), w);
      mix(mix(mix(q, v), high), w);
      mix(mix(q, mix(v, high)), w);
      mix(q, mix(mix(v, high), w));
      mix(q, mix(w, mix(v, high)));
      mix(q, mix(mix(w, v), high));
    }
  }

  /** Reading a round backwards: a difference below came from the same difference raised. */
  lemma RoundBackwards<R(!new)>(
    round: R -> R, mix: (R, R) -> R, up: R -> R, room: R -> bool, p: R, q: R, d: R)
    requires Injective(round) && Descends(round, mix, up, room) && room(d)
    requires round(p) == mix(round(q), d)
    ensures p == mix(q, up(d))
  {
    assert round(mix(q, up(d))) == round(p);
  }

  /** Absorbing an input is mixing it in and running one round. */
  ghost predicate Absorbs<R(!new), B(!new)>(step: (R, B) -> R, round: R -> R, mix: (R, R) -> R, embed: B -> R) {
    forall a, x :: step(a, x) == round(mix(a, embed(x)))
  }

  lemma FoldOfFour<R, B>(step: (R, B) -> R, a: R, w: seq<B>)
    requires |w| == 4
    ensures Fold(step, a, w) == step(step(step(step(a, w[0]), w[1]), w[2]), w[3])
  {
    assert w[..3][..2] == w[..2] && w[..2][..1] == w[..1] && w[..1][..0] == [];
    assert Fold(step, a, w[..1]) == step(a, w[0]);
    assert Fold(step, a, w[..2]) == step(Fold(step, a, w[..1]), w[1]);
    assert Fold(step, a, w[..3]) == step(Fold(step, a, w[..2]), w[2]);
  }

  /** The difference that `w` and `v` leave after four rounds, below the top input. */
  ghost function Raised<R, B>(mix: (R, R) -> R, embed: B -> R, up: R -> R, w: seq<B>, v: seq<B>, k: nat): R
    requires 1 <= k <= |w| == |v|
    decreases |w| - k
  {
    if k == |w| then mix(embed(w[k - 1]), embed(v[k - 1]))
    else mix(mix(embed(w[k - 1]), embed(v[k - 1])), up(Raised(mix, embed, up, w, v, k + 1)))
  }

  /** Inputs small enough that four of them fit in a state side by side. */
  ghost predicate SideBySide<R, B>(
    mix: (R, R) -> R, embed: B -> R, up: R -> R, room: R -> bool, w: seq<B>, v: seq<B>)
    requires |w| == |v| == 4
  {
    && room(Raised(mix, embed, up, w, v, 4))
    && room(Raised(mix, embed, up, w, v, 3))
    && room(Raised(mix, embed, up, w, v, 2))
    && (mix(embed(w[0]), embed(v[0])) == up(Raised(mix, embed, up, w, v, 2)) ==> w == v)
  }

  ghost predicate FourFit<R(!new), B(!new)>(mix: (R, R) -> R, embed: B -> R, up: R -> R, room: R -> bool) {
    forall w: seq<B>, v: seq<B> :: |w| == |v| == 4 ==> SideBySide(mix, embed, up, room, w, v)
  }

  /** Differences of inputs are `small`, and vanish only for equal inputs. */
  ghost predicate SmallInputs<R(!new), B(!new)>(mix: (R, R) -> R, embed: B -> R, small: R -> bool, zero: R) {
    forall w: B, v: B :: small(mix(embed(w), embed(v))) && (mix(embed(w), embed(v)) == zero ==> w == v)
  }

  /** Raised by position, four small values fit and cannot cancel. */
  ghost predicate StackedAt<R>(
    mix: (R, R) -> R, up: R -> R, room: R -> bool, zero: R, e0: R, e1: R, e2: R, e3: R)
  {
    && room(e3)
    && room(mix(e2, up(e3)))
    && room(mix(e1, up(mix(e2, up(e3)))))
    && (e0 == up(mix(e1, up(mix(e2, up(e3))))) ==> e0 == e1 == e2 == e3 == zero)
  }

  ghost predicate Stacks<R(!new)>(mix: (R, R) -> R, up: R -> R, room: R -> bool, small: R -> bool, zero: R) {
    forall e0, e1, e2, e3 {:trigger StackedAt(mix, up, room, zero, e0, e1, e2, e3)} ::
      small(e0) && small(e1) && small(e2) && small(e3)
      ==> StackedAt(mix, up, room, zero, e0, e1, e2, e3)
  }

  lemma SmallInputsFit<R(!new), B(!new)>(
    mix: (R, R) -> R, embed: B -> R, up: R -> R, room: R -> bool, small: R -> bool, zero: R)
    requires SmallInputs(mix, embed, small, zero) && Stacks(mix, up, room, small, zero)
    ensures FourFit(mix, embed, up, room)
  {
    forall w: seq<B>, v: seq<B> | |w| == |v| == 4
      ensures SideBySide(mix, embed, up, room, w, v)
    {
      FitsAt(mix, embed, up, room, small, zero, w, v);
    }
  }

  lemma FitsAt<R(!new), B(!new)>(
    mix: (R, R) -> R, embed: B -> R, up: R -> R, room: R -> bool, small: R -> bool, zero: R, w: seq<B>, v: seq<B>)
    requires SmallInputs(mix, embed, small, zero) && Stacks(mix, up, room, small, zero)
    requires |w| == |v| == 4
    ensures SideBySide(mix, embed, up, room, w, v)
  {
    var e0, e1 := mix(embed(w[0]), embed(v[0])), mix(embed(w[1]), embed(v[1]));
    var e2, e3 := mix(embed(w[2]), embed(v[2])), mix(embed(w[3]), embed(v[3]));
    assert small(e0) && small(e1) && small(e2) && small(e3);
    assert StackedAt(mix, up, room, zero, e0, e1, e2, e3);
    var d3 := Raised(mix, embed, up, w, v, 4);
    assert d3 == e3;
    var d2 := Raised(mix, embed, up, w, v, 3);
    assert d2 == mix(e2, up(d3));
    var d1 := Raised(mix, embed, up, w, v, 2);
    assert d1 == mix(e1, up(d2));
    if e0 == up(d1) {
      assert w[0] == v[0] && w[1] == v[1] && w[2] == v[2] && w[3] == v[3];
    }
  }

  /** The laws of a register that four inputs fill exactly. */
  ghost predicate ShiftRegister<R(!new), B(!new)>(
    step: (R, B) -> R, round: R -> R, mix: (R, R) -> R, embed: B -> R, up: R -> R, room: R -> bool)
  {
    && Injective(round)
    && Descends(round, mix, up, room)
    && SelfInverse(mix)
    && Absorbs(step, round, mix, embed)
    && FourFit(mix, embed, up, room)
    && StateInjective(step)
  }

  /** Undoing one absorbed pair of inputs: the difference below moves up and takes theirs along. */
  lemma UndoPair<R(!new)>(
    round: R -> R, mix: (R, R) -> R, up: R -> R, room: R -> bool, x: R, y: R, w: R, v: R, d: R)
    requires Injective(round) && Descends(round, mix, up, room) && SelfInverse(mix) && room(d)
    requires round(mix(x, w)) == mix(round(mix(y, v)), d)
    ensures x == mix(y, mix(mix(w, v), up(d)))
  {
    RoundBackwards(round, mix, up, room, mix(x, w), mix(y, v), d);
    hide Injective, Descends;
    Peel(mix, x, y, w, v, up(d));
  }

  /** Equal states leave the difference of their last inputs. */
  lemma UndoLast<R(!new)>(round: R -> R, mix: (R, R) -> R, x: R, y: R, w: R, v: R)
    requires Injective(round) && SelfInverse(mix) && round(mix(x, w)) == round(mix(y, v))
    ensures x == mix(y, mix(w, v))
  {
    assert mix(x, w) == mix(y, v);
    assert x == mix(mix(y, v), w) == mix(y, mix(v, w));
  }

  /** Four differing inputs cannot cancel out. */
  lemma FourInputs<R(!new), B(!new)>(
    step: (R, B) -> R, round: R -> R, mix: (R, R) -> R, embed: B -> R, up: R -> R, room: R -> bool,
    a: R, w: seq<B>, v: seq<B>)
    requires ShiftRegister(step, round, mix, embed, up, room)
    requires |w| == |v| == 4
    requires Fold(step, a, w) == Fold(step, a, v)
    ensures w == v
  {
    FoldOfFour(step, a, w);
    FoldOfFour(step, a, v);
    assert SideBySide(mix, embed, up, room, w, v);
    var w0, w1, w2, w3 := embed(w[0]), embed(w[1]), embed(w[2]), embed(w[3]);
    var v0, v1, v2, v3 := embed(v[0]), embed(v[1]), embed(v[2]), embed(v[3]);
    var x1, y1 := round(mix(a, w0)), round(mix(a, v0));
    var x2, y2 := round(mix(x1, w1)), round(mix(y1, v1));
    var x3, y3 := round(mix(x2, w2)), round(mix(y2, v2));
    assert round(mix(x3, w3)) == round(mix(y3, v3));
    var d3 := Raised(mix, embed, up, w, v, 4);
    var d2 := Raised(mix, embed, up, w, v, 3);
    var d1 := Raised(mix, embed, up, w, v, 2);
    assert d3 == mix(w3, v3) && d2 == mix(mix(w2, v2), up(d3)) && d1 == mix(mix(w1, v1), up(d2));
    hide Injective, Descends, SelfInverse, Absorbs, FourFit, StateInjective, Fold, Raised;
    UndoLast(round, mix, x3, y3, w3, v3);
    UndoPair(round, mix, up, room, x2, y2, w2, v2, d3);
    UndoPair(round, mix, up, room, x1, y1, w1, v1, d2);
    UndoPair(round, mix, up, room, a, a, w0, v0, d1);
    Cancel(mix, a, w0, v0, up(d1));
  }

  /** `w` and `v` agree outside the four positions that start at `p`. */
  ghost predicate SameOutside<B>(w: seq<B>, v: seq<B>, p: nat) {
    |w| == |v| && forall k :: 0 <= k < |w| && !(p <= k < p + 4) ==> w[k] == v[k]
  }

  lemma AroundWindow<B>(w: seq<B>, v: seq<B>, p: nat)
    requires SameOutside(w, v, p) && p + 4 <= |w|
    ensures |v| == |w| && w == w[..p] + w[p..p + 4] + w[p + 4..]
    ensures v == w[..p] + v[p..p + 4] + w[p + 4..]
  {
    assert v[..p] == w[..p] && v[p + 4..] == w[p + 4..];
  }

  lemma FoldOfThree<R, B>(step: (R, B) -> R, a: R, front: seq<B>, window: seq<B>, back: seq<B>)
    ensures Fold(step, a, front + window + back) == Fold(step, Fold(step, Fold(step, a, front), window), back)
  {
    hide Fold;
    FoldConcat(step, a, front, window);
    FoldConcat(step, a, front + window, back);
  }

  lemma WindowDetected<R(!new), B(!new)>(
    step: (R, B) -> R, round: R -> R, mix: (R, R) -> R, embed: B -> R, up: R -> R, room: R -> bool,
    a: R, w: seq<B>, v: seq<B>, p: nat)
    requires ShiftRegister(step, round, mix, embed, up, room)
    requires SameOutside(w, v, p) && p + 4 <= |w|
    requires Fold(step, a, w) == Fold(step, a, v)
    ensures w == v
  {
    hide Fold, SameOutside, Injective, Descends, SelfInverse, Absorbs, FourFit, StateInjective;
    AroundWindow(w, v, p);
    var front, window, other, back := w[..p], w[p..p + 4], v[p..p + 4], w[p + 4..];
    var start := Fold(step, a, front);
    FoldOfThree(step, a, front, window, back);
    FoldOfThree(step, a, front, other, back);
    FoldInjective(step, Fold(step, start, window), Fold(step, start, other), back);
    FourInputs(step, round, mix, embed, up, room, start, window, other);
  }

  /**
   Inputs that agree outside four consecutive positions lead to different states.
   Equal padding behind both keeps the states apart and gives a window at the end its four inputs.
   */
  lemma BurstDetected<R(!new), B(!new)>(
    step: (R, B) -> R, round: R -> R, mix: (R, R) -> R, embed: B -> R, up: R -> R, room: R -> bool,
    a: R, w: seq<B>, v: seq<B>, p: nat, pad: B)
    requires ShiftRegister(step, round, mix, embed, up, room)
    requires SameOutside(w, v, p) && w != v
    ensures Fold(step, a, w) != Fold(step, a, v)
  {
    if Fold(step, a, w) == Fold(step, a, v) {
      var padding := [pad, pad, pad, pad];
      FoldConcat(step, a, w, padding);
      FoldConcat(step, a, v, padding);
      assert (w + padding)[..|w|] == w && (v + padding)[..|v|] == v;
      WindowDetected(step, round, mix, embed, up, room, a, w + padding, v + padding, if p < |w| then p else |w|);
    }
  }

  lemma Cancel<R(!new)>(mix: (R, R) -> R, a: R, w: R, v: R, high: R)
    requires SelfInverse(mix) && a == mix(a, mix(mix(w, v), high))
    ensures mix(w, v) == high
  {
    var e := mix(mix(w, v), high);
    assert mix(a, a) == mix(mix(a, e), a) == mix(mix(e, a), a) == e;
    assert mix(e, high) == mix(w, v);
    assert mix(high, mix(a, a)) == mix(mix(high, a), a) == high;
    assert mix(e, high) == mix(high, e);
  }
}
