/** The goods slice of the store: an ordered list of item names that can be
    rotated. */
module GoodsSlice {
  import opened Wrappers
  import opened Actions

  datatype GoodsListState = GoodsListState(goods: seq<string>)

  /** The state the reducer starts from when it is given no state. */
  const InitialGoodsListState: GoodsListState :=
    GoodsListState(["milk", "flour", "nuts", "apples", "pen"])

  /** The reducer's default parameter: an undefined state reads as the
      initial one. */
  function Current(state: Option<GoodsListState>): (s: GoodsListState)
    ensures state.Some? ==> s == state.value
    ensures state.None? ==> s == InitialGoodsListState
  {
    state.GetOr(InitialGoodsListState)
  }

  /** `goods.slice(1).concat(goods.slice(0, 1))`: the first item moves to the
      end. On an empty list both slices are empty, so the result is empty. */
  function RotateOnce(goods: seq<string>): (r: seq<string>)
    ensures |r| == |goods|
    ensures |goods| > 0 ==> r[|r| - 1] == goods[0]
  {
    if |goods| == 0 then [] else goods[1..] + goods[..1]
  }

  /** Rotation keeps the same items with the same multiplicities. */
  lemma RotateOncePermutes(goods: seq<string>)
    ensures multiset(RotateOnce(goods)) == multiset(goods)
  {
    if |goods| > 0 {
      assert goods == goods[..1] + goods[1..];
    }
  }

  /** Every item but the first moves one place towards the front. */
  lemma RotateOnceShift(goods: seq<string>, i: int)
    requires 0 <= i < |goods| - 1
    ensures RotateOnce(goods)[i] == goods[i + 1]
  {
  }

  /** The goods reducer. `ROTATE` builds a new state from the rotated list;
      every other action returns the state it was given. */
  function GoodsReduce(state: Option<GoodsListState>, action: Action): (r: GoodsListState)
    ensures action == Rotate ==> r.goods == RotateOnce(Current(state).goods)
    ensures action != Rotate ==> r == Current(state)
  {
    match action
    case Rotate => GoodsListState(RotateOnce(Current(state).goods))
    case _ => Current(state)
  }

  /** The list after `n` rotations. */
  function RotateN(goods: seq<string>, n: nat): (r: seq<string>)
    ensures |r| == |goods|
  {
    if n == 0 then goods else RotateOnce(RotateN(goods, n - 1))
  }

  /** Any number of rotations keeps the same items with the same
      multiplicities. */
  lemma {:induction false} RotateNPermutes(goods: seq<string>, n: nat)
    ensures multiset(RotateN(goods, n)) == multiset(goods)
  {
    if n > 0 {
      RotateNPermutes(goods, n - 1);
      RotateOncePermutes(RotateN(goods, n - 1));
    }
  }

  /** Rotating `k <= |goods|` times moves the first `k` items, in order, to
      the end. */
  lemma {:induction false} RotateNSplit(goods: seq<string>, k: nat)
    requires k <= |goods|
    ensures RotateN(goods, k) == goods[k..] + goods[..k]
  {
    if k > 0 {
      RotateNSplit(goods, k - 1);
      var prev := goods[k - 1..] + goods[..k - 1];
      assert prev[0] == goods[k - 1];
      assert prev[1..] == goods[k..] + goods[..k - 1];
      assert goods[..k] == goods[..k - 1] + [goods[k - 1]];
    }
  }

  /** Rotating a list as many times as it has items gives the list back. */
  lemma RotateFullCycle(goods: seq<string>)
    ensures RotateN(goods, |goods|) == goods
  {
    RotateNSplit(goods, |goods|);
  }

  /** Rotations compose by adding their counts. */
  lemma {:induction false} RotateNAdd(goods: seq<string>, a: nat, b: nat)
    ensures RotateN(RotateN(goods, a), b) == RotateN(goods, a + b)
  {
    if b > 0 {
      RotateNAdd(goods, a, b - 1);
      assert RotateN(goods, a + b) == RotateOnce(RotateN(goods, a + b - 1));
    }
  }

  /** Rotation is periodic with period `|goods|`. */
  lemma RotateNPeriodic(goods: seq<string>, k: nat)
    ensures RotateN(goods, k + |goods|) == RotateN(goods, k)
  {
    RotateNAdd(goods, |goods|, k);
    RotateFullCycle(goods);
  }

  /** Rotation is a cyclic permutation: after `k` rotations the item at
      position `i` is the one that was `k` places further along, wrapping
      around the end. */
  lemma {:induction false} RotateNIndex(goods: seq<string>, k: nat, i: int)
    requires 0 <= i < |goods|
    ensures RotateN(goods, k)[i] == goods[(i + k) % |goods|]
    decreases k
  {
    var n := |goods|;
    if k >= n {
      RotateNPeriodic(goods, k - n);
      RotateNIndex(goods, k - n, i);
      ModShift(i + k - n, n);
    } else {
      RotateNSplit(goods, k);
      if i < n - k {
        ModSmall(i + k, n);
      } else {
        ModSmall(i + k - n, n);
        ModShift(i + k - n, n);
      }
    }
  }

  lemma ModSmall(x: int, n: int)
    requires 0 <= x < n
    ensures x % n == x
  {
  }

  lemma ModShift(x: int, n: int)
    requires n > 0
    ensures (x + n) % n == x % n
  {
    var q, r := x / n, x % n;
    assert x + n == (q + 1) * n + r;
    DivModUnique(x + n, n, q + 1, r);
  }

  /** Euclidean division has a unique quotient and remainder. */
  lemma DivModUnique(a: int, n: int, q: int, r: int)
    requires n > 0 && 0 <= r < n && a == q * n + r
    ensures a % n == r
  {
    var q', r' := a / n, a % n;
    var d := q - q';
    assert d * n == r' - r by {
      assert q * n - q' * n == d * n;
    }
    if d > 0 {
      MulAtLeast(d, n);
    } else if d < 0 {
      MulAtLeast(-d, n);
    }
  }

  lemma MulAtLeast(d: int, n: int)
    requires d >= 1 && n > 0
    ensures d * n >= n
  {
    assert d * n == (d - 1) * n + n;
    assert (d - 1) * n >= 0;
  }
}
