/** The fractional-step cursor `float_step` and the `zip` adaptor, as their
    unit tests pin them down.

    A cursor starts at an element index `start` and moves by a rational step
    `num / den` (den > 0, num != 0; the sign of num is the direction). Its state
    is a base element index plus a remainder `rem` in units of 1/den, kept in
    `[0, den)` by an explicit carry (on ++) and borrow (on --). After a net
    count `n` of ++ minus --, it dereferences `floor(start + n * num / den)`,
    whatever the interleaving of the moves. */
module FloatStep {

  import opened Arith

  /** The element index a cursor built at `start` with step num/den
      dereferences after a net count of `n` moves. Dafny's `/` by a positive
      divisor is floor division, so this is floor(start + n * num / den). */
  function IndexAt(start: int, num: int, den: int, n: int): (r: int)
    requires den > 0
    // The largest index at or before the exact position, in 1/den units.
    ensures r * den <= start * den + n * num < r * den + den
  {
    (start * den + n * num) / den
  }

  /** IndexAt agrees with the floor of the exact rational position, which is
      how the tests compute their expected indices (indexing the array at
      the product of the read count and the step, truncated). */
  lemma IndexAtIsFloor(start: int, num: int, den: int, n: int)
    requires den > 0
    ensures IndexAt(start, num, den, n) == ((start as real) + ((n * num) as real) / (den as real)).Floor
  {
    var t := start * den + n * num;
    var q, r := t / den, t % den;
    assert t == q * den + r;
    var x := (start as real) + ((n * num) as real) / (den as real);
    assert (n * num) as real == (t as real) - (start as real) * (den as real);
    assert x == (t as real) / (den as real);
    assert (t as real) == (q as real) * (den as real) + (r as real);
    assert x == (q as real) + (r as real) / (den as real);
    assert 0.0 <= (r as real) / (den as real) < 1.0;
  }

  /** A move of the cursor: `++` or `--`. */
  datatype Move = Forward | Backward

  /** Number of ++ minus number of -- in a list of moves. */
  function NetCount(moves: seq<Move>): int
  {
    if moves == [] then 0
    else (if moves[0] == Forward then 1 else -1) + NetCount(moves[1..])
  }

  function Repeat(m: Move, k: nat): (r: seq<Move>)
    ensures |r| == k && forall i :: 0 <= i < k ==> r[i] == m
  {
    if k == 0 then [] else [m] + Repeat(m, k - 1)
  }

  lemma {:induction false} NetCountAppend(a: seq<Move>, b: seq<Move>)
    ensures NetCount(a + b) == NetCount(a) + NetCount(b)
  {
    if a == [] {
      assert a + b == b;
    } else {
      assert (a + b)[1..] == a[1..] + b;
      NetCountAppend(a[1..], b);
    }
  }

  lemma {:induction false} NetCountRepeat(m: Move, k: nat)
    ensures NetCount(Repeat(m, k)) == if m == Forward then k as int else -(k as int)
  {
    if k > 0 {
      assert Repeat(m, k)[1..] == Repeat(m, k - 1);
      NetCountRepeat(m, k - 1);
    }
  }

  /** The round-trip law: k increments followed by k decrements, or k
      decrements followed by k increments, have net count zero. */
  lemma RoundTripNet(k: nat)
    ensures NetCount(Repeat(Forward, k) + Repeat(Backward, k)) == 0
    ensures NetCount(Repeat(Backward, k) + Repeat(Forward, k)) == 0
  {
    NetCountAppend(Repeat(Forward, k), Repeat(Backward, k));
    NetCountAppend(Repeat(Backward, k), Repeat(Forward, k));
    NetCountRepeat(Forward, k);
    NetCountRepeat(Backward, k);
  }

  class Cursor {
    /** Base element index: the index the cursor dereferences. */
    var index: int
    /** Fractional part of the position, in units of 1/den. */
    var rem: int
    /** The step is num / den. */
    const num: int
    const den: int
    /** Index the cursor was built at. */
    ghost const start: int
    /** Number of ++ minus number of -- applied since construction. */
    ghost var net: int

    ghost predicate Valid()
      reads this
    {
      den > 0 && num != 0 && 0 <= rem < den &&
      index * den + rem == start * den + net * num
    }

    /** The position in units of 1/den. */
    function Raw(): int
      reads this
    {
      index * den + rem
    }

    /** In a valid cursor the dereferenced index is the floor of
        start + net * step, and the remainder is the fractional part. */
    lemma IndexIsFloor()
      requires Valid()
      ensures index == IndexAt(start, num, den, net)
      ensures rem == (start * den + net * num) % den
    {
      DivModUnique(start * den + net * num, den, index, rem);
    }

    /** The index this cursor dereferences after a further net count of k
        moves. */
    ghost function IndexAfter(k: int): int
      reads this
      requires Valid()
    {
      IndexAt(start, num, den, net + k)
    }

    /** `float_step(it, step)`, with step == num / den. */
    constructor (at: int, num: int, den: int)
      requires den > 0 && num != 0
      ensures Valid()
      ensures this.num == num && this.den == den && start == at && net == 0
      ensures index == at && rem == 0
    {
      index, rem := at, 0;
      this.num, this.den := num, den;
      start, net := at, 0;
    }

    /** Copy construction: iterators are passed by value. */
    constructor Copy(other: Cursor)
      requires other.Valid()
      ensures Valid()
      ensures num == other.num && den == other.den && start == other.start && net == other.net
      ensures index == other.index && rem == other.rem
    {
      index, rem := other.index, other.rem;
      num, den := other.num, other.den;
      start, net := other.start, other.net;
    }

    /** `*it`: the element at the base index. Bounds are the caller's. */
    function Deref(data: seq<int>): (x: int)
      reads this
      requires Valid() && 0 <= IndexAt(start, num, den, net) < |data|
      ensures x == data[IndexAt(start, num, den, net)]
    {
      IndexIsFloor();
      data[index]
    }

    /** `++it`: add the step to the remainder and carry whole elements
        into the base index. */
    method Increment()
      requires Valid()
      modifies this
      ensures Valid() && net == old(net) + 1
      ensures index == IndexAt(start, num, den, net)
    {
      var total := rem + num;
      index := index + total / den;
      rem := total % den;
      net := net + 1;
      IndexIsFloor();
    }

    /** `--it`: subtract the step from the remainder and borrow whole
        elements from the base index. */
    method Decrement()
      requires Valid()
      modifies this
      ensures Valid() && net == old(net) - 1
      ensures index == IndexAt(start, num, den, net)
    {
      var total := rem - num;
      index := index + total / den;
      rem := total % den;
      net := net - 1;
      IndexIsFloor();
    }

    /** `it++` as the tests observe it: the returned iterator already
        points after the move, so `*it++` reads the element after ++. */
    method PostIncrement() returns (moved: Cursor)
      requires Valid()
      modifies this
      ensures Valid() && net == old(net) + 1
      ensures fresh(moved) && moved.Valid()
      ensures moved.index == index && moved.rem == rem && moved.net == net
      ensures moved.start == start && moved.num == num && moved.den == den
    {
      Increment();
      moved := new Cursor.Copy(this);
    }

    /** `it--` as the tests observe it, symmetric to PostIncrement. */
    method PostDecrement() returns (moved: Cursor)
      requires Valid()
      modifies this
      ensures Valid() && net == old(net) - 1
      ensures fresh(moved) && moved.Valid()
      ensures moved.index == index && moved.rem == rem && moved.net == net
      ensures moved.start == start && moved.num == num && moved.den == den
    {
      Decrement();
      moved := new Cursor.Copy(this);
    }

    /** Applies a list of moves in order. The state afterwards depends only
        on the net count of the moves. */
    method Apply(moves: seq<Move>)
      requires Valid()
      modifies this
      ensures Valid() && net == old(net) + NetCount(moves)
      ensures index == IndexAt(start, num, den, net)
    {
      var i := 0;
      while i < |moves|
        invariant 0 <= i <= |moves|
        invariant Valid()
        invariant net == old(net) + NetCount(moves[..i])
      {
        NetCountAppend(moves[..i], [moves[i]]);
        assert moves[..i + 1] == moves[..i] + [moves[i]];
        if moves[i] == Forward {
          Increment();
        } else {
          Decrement();
        }
        i := i + 1;
      }
      assert moves[..i] == moves;
      IndexIsFloor();
    }

    /** The round-trip law on the full state: k increments then k
        decrements restore both the base index and the remainder. */
    method RoundTrip(k: nat)
      requires Valid()
      modifies this
      ensures Valid() && net == old(net)
      ensures index == old(index) && rem == old(rem)
    {
      ghost var i0, r0 := index, rem;
      RoundTripNet(k);
      Apply(Repeat(Forward, k) + Repeat(Backward, k));
      DivModUnique(start * den + net * num, den, i0, r0);
      DivModUnique(start * den + net * num, den, index, rem);
    }

    /** `last - first` for `last == this`: the signed distance in logical
        steps, the quotient of the position difference by the step,
        truncated toward zero. */
    function Minus(first: Cursor): (d: int)
      reads this, first
      requires Valid() && first.Valid() && first.num == num && first.den == den
      ensures start == first.start ==> d == net - first.net
      ensures Raw() - first.Raw() >= 0 ==> 0 <= (Raw() - first.Raw()) - d * num < Abs(num)
      ensures Raw() - first.Raw() < 0 ==> 0 <= d * num - (Raw() - first.Raw()) < Abs(num)
    {
      var diff := Raw() - first.Raw();
      SameStartQuotient(diff, num, net - first.net, start == first.start);
      TruncDiv(diff, num)
    }
  }


  lemma SameStartQuotient(diff: int, b: int, m: int, same: bool)
    requires b != 0 && (same ==> diff == m * b)
    ensures same ==> TruncDiv(diff, b) == m
  {
    if same {
      MultipleQuotient(m, b);
    }
  }

  /** A whole number of steps divides out exactly. */
  lemma MultipleQuotient(m: int, b: int)
    requires b != 0
    ensures TruncDiv(m * b, b) == m
  {
    var q := TruncDiv(m * b, b);
    MulSubDistrib(m, q, b);
    if m * b >= 0 {
      assert 0 <= (m - q) * b < Abs(b);
    } else {
      assert -Abs(b) < (m - q) * b <= 0;
    }
    SmallMultiple(m - q, b);
  }

  /** Integer division truncating toward zero, as C++ does: the remainder
      a - q * b has the sign of a and is smaller than |b|. */
  function TruncDiv(a: int, b: int): (q: int)
    requires b != 0
    ensures a >= 0 ==> 0 <= a - q * b < Abs(b)
    ensures a < 0 ==> 0 <= q * b - a < Abs(b)
  {
    if a >= 0 && b > 0 then a / b
    else if a >= 0 then -(a / -b)
    else if b > 0 then -((-a) / b)
    else (-a) / (-b)
  }

  /** Copying `count` elements from a cursor into a vector: dereference and
      advance a copy of `first`, `count` times; `first` itself is passed by
      value and does not move. */
  method CopyN(data: seq<int>, first: Cursor, count: nat) returns (actual: seq<int>)
    requires first.Valid()
    requires forall k :: 0 <= k < count ==> 0 <= first.IndexAfter(k) < |data|
    ensures |actual| == count
    ensures forall k :: 0 <= k < count ==> actual[k] == data[first.IndexAfter(k)]
  {
    var it := new Cursor.Copy(first);
    actual := [];
    var k := 0;
    while k < count
      invariant 0 <= k <= count
      invariant fresh(it) && it.Valid()
      invariant it.start == first.start && it.num == first.num && it.den == first.den
      invariant it.net == first.net + k
      invariant |actual| == k
      invariant forall j :: 0 <= j < k ==> actual[j] == data[first.IndexAfter(j)]
    {
      assert it.IndexAfter(0) == first.IndexAfter(k);
      var x := it.Deref(data);
      actual := actual + [x];
      it.Increment();
      k := k + 1;
    }
  }

  /** Section "Step = 1": `last - first` is the plain index distance and the
      range [first, last) reads the array in order. */
  method StepOne(iterData: seq<int>) returns (distance: int, actual: seq<int>)
    requires |iterData| == 10
    ensures distance == |iterData|
    ensures actual == iterData
  {
    var first := new Cursor(0, 1, 1);
    var last := new Cursor(|iterData|, 1, 1);
    distance := last.Minus(first);
    actual := CopyN(iterData, first, distance);
  }

  /** Section "Step = -1": from index 9 back to index -1 is 10 logical
      steps, and reading 10 elements gives the array reversed. */
  method StepMinusOne(iterData: seq<int>) returns (distance: int, actual: seq<int>)
    requires |iterData| == 10
    ensures distance == |iterData|
    ensures actual == seq(10, k requires 0 <= k < 10 => iterData[9 - k])
  {
    var first := new Cursor(9, -1, 1);
    var last := new Cursor(-1, -1, 1);
    distance := last.Minus(first);
    actual := CopyN(iterData, first, distance);
  }

  /** A cursor from `at` with step num/den reads, at its k-th element, the
      floor of the exact position at + k * num / den. */
  lemma ReadsAtFloor(at: int, num: int, den: int, count: nat)
    requires den > 0
    ensures forall k :: 0 <= k < count ==>
      IndexAt(at, num, den, k) == ((at as real) + ((k * num) as real) / (den as real)).Floor
  {
    forall k | 0 <= k < count
      ensures IndexAt(at, num, den, k) == ((at as real) + ((k * num) as real) / (den as real)).Floor
    {
      IndexAtIsFloor(at, num, den, k);
    }
  }

  /** Section "Step = 0.5": the k-th element read is the one at k * 0.5,
      rounded down. */
  method StepHalf(iterData: seq<int>) returns (actual: seq<int>)
    requires |iterData| == 10
    ensures |actual| == 20
    ensures forall k :: 0 <= k < 20 ==> actual[k] == iterData[((k as real) * 0.5).Floor]
  {
    var first := new Cursor(0, 1, 2);
    actual := CopyN(iterData, first, 20);
    ReadsAtFloor(0, 1, 2, 20);
  }

  /** Section "Step = -0.5": from the last index, the k-th element read is
      the one at 9 - k * 0.5, rounded down. */
  method StepMinusHalf(iterData: seq<int>) returns (actual: seq<int>)
    requires |iterData| == 10
    ensures |actual| == 18
    ensures forall k :: 0 <= k < 18 ==> actual[k] == iterData[(9.0 - (k as real) * 0.5).Floor]
  {
    var first := new Cursor(9, -1, 2);
    actual := CopyN(iterData, first, 18);
    ReadsAtFloor(9, -1, 2, 18);
  }

  /** Section "Step = 1.5": the k-th element read is the one at k * 1.5,
      rounded down. */
  method StepThreeHalves(iterData: seq<int>) returns (actual: seq<int>)
    requires |iterData| == 10
    ensures |actual| == 6
    ensures forall k :: 0 <= k < 6 ==> actual[k] == iterData[((k as real) * 1.5).Floor]
  {
    var first := new Cursor(0, 3, 2);
    actual := CopyN(iterData, first, 6);
    ReadsAtFloor(0, 3, 2, 6);
  }

  /** Section "Step = -1.5": from the last index, the k-th element read is
      the one at 9 - k * 1.5, rounded down. */
  method StepMinusThreeHalves(iterData: seq<int>) returns (actual: seq<int>)
    requires |iterData| == 10
    ensures |actual| == 6
    ensures forall k :: 0 <= k < 6 ==> actual[k] == iterData[(9.0 - (k as real) * 1.5).Floor]
  {
    var first := new Cursor(9, -3, 2);
    actual := CopyN(iterData, first, 6);
    ReadsAtFloor(9, -3, 2, 6);
  }

  /** The move pattern of the "Going back and forth" test case: read, then
      three times `*first++`, twice `*first--`, once `*first++`. Each read
      after a move sees the element after that move. */
  method BackAndForth(data: seq<int>, at: int, num: int, den: int) returns (actual: seq<int>)
    requires den > 0 && num != 0
    requires forall n :: 0 <= n <= 3 ==> 0 <= IndexAt(at, num, den, n) < |data|
    ensures actual == [data[IndexAt(at, num, den, 0)], data[IndexAt(at, num, den, 1)],
                       data[IndexAt(at, num, den, 2)], data[IndexAt(at, num, den, 3)],
                       data[IndexAt(at, num, den, 2)], data[IndexAt(at, num, den, 1)],
                       data[IndexAt(at, num, den, 2)]]
  {
    var first := new Cursor(at, num, den);
    var x0 := first.Deref(data);
    var moved := first.PostIncrement();
    var x1 := moved.Deref(data);
    moved := first.PostIncrement();
    var x2 := moved.Deref(data);
    moved := first.PostIncrement();
    var x3 := moved.Deref(data);
    assert first.net == 3;
    moved := first.PostDecrement();
    var x4 := moved.Deref(data);
    moved := first.PostDecrement();
    var x5 := moved.Deref(data);
    moved := first.PostIncrement();
    var x6 := moved.Deref(data);
    actual := [x0, x1, x2, x3, x4, x5, x6];
  }

  /** The array of the "Going back and forth" test case. */
  function ZeroToTen(): (r: seq<int>)
    ensures |r| == 11 && forall i :: 0 <= i < 11 ==> r[i] == i
  {
    [0, 1, 2, 3, 4, 5, 6, 7, 8, 9, 10]
  }

  method BackAndForthStepOne() returns (actual: seq<int>)
    ensures actual == [0, 1, 2, 3, 2, 1, 2]
  {
    actual := BackAndForth(ZeroToTen(), 0, 1, 1);
  }

  method BackAndForthStepMinusOne() returns (actual: seq<int>)
    ensures actual == [10, 9, 8, 7, 8, 9, 8]
  {
    actual := BackAndForth(ZeroToTen(), 10, -1, 1);
  }

  method BackAndForthStepHalf() returns (actual: seq<int>)
    ensures actual == [0, 0, 1, 1, 1, 0, 1]
  {
    actual := BackAndForth(ZeroToTen(), 0, 1, 2);
  }

  method BackAndForthStepMinusHalf() returns (actual: seq<int>)
    ensures actual == [10, 9, 9, 8, 9, 9, 9]
  {
    actual := BackAndForth(ZeroToTen(), 10, -1, 2);
  }


  /** Assigning through `zip(data, newData)`: the pairs run to the end of
      the shorter range, and each destination element is assigned its
      source element. */
  method ZipAssign(data: array<int>, newData: array<int>)
    modifies data
    ensures forall i :: 0 <= i < Min(data.Length, newData.Length) ==> data[i] == old(newData[i])
    ensures forall i :: Min(data.Length, newData.Length) <= i < data.Length ==> data[i] == old(data[i])
    ensures data.Length == newData.Length ==> data[..] == old(newData[..])
  {
    var n := Min(data.Length, newData.Length);
    var i := 0;
    while i < n
      invariant 0 <= i <= n
      invariant forall j :: 0 <= j < i ==> data[j] == old(newData[j])
      invariant forall j :: i <= j < data.Length ==> data[j] == old(data[j])
      invariant forall j :: i <= j < newData.Length ==> newData[j] == old(newData[j])
    {
      data[i] := newData[i];
      i := i + 1;
    }
  }
}
