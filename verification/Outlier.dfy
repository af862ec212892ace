/** The "high amount" anomaly filter of the analytics service: orders whose amount reaches
    mean + 3 standard deviations of the positive amounts. Amounts are reals. */
module Outlier {

  datatype Row = Row(id: string, amount: real)

  /** The positive amounts, in order; only these enter the statistics. */
  function Positive(orders: seq<Row>): (xs: seq<real>)
    ensures forall i :: 0 <= i < |xs| ==> xs[i] > 0.0
  {
    if orders == [] then []
    else (if orders[0].amount > 0.0 then [orders[0].amount] else []) + Positive(orders[1..])
  }

  function Sum(xs: seq<real>): real {
    if xs == [] then 0.0 else xs[0] + Sum(xs[1..])
  }

  function Square(x: real): (r: real)
    ensures r >= 0.0
  {
    x * x
  }

  /** Sum of the squared distances to `center`. */
  function SumSquares(xs: seq<real>, center: real): (r: real)
    ensures r >= 0.0
  {
    if xs == [] then 0.0 else Square(xs[0] - center) + SumSquares(xs[1..], center)
  }

  function Mean(xs: seq<real>): real
    requires xs != []
  {
    Sum(xs) / |xs| as real
  }

  /** `std` is the non-negative root of the population variance of `xs`. */
  ghost predicate IsStd(xs: seq<real>, std: real) {
    std >= 0.0 && (xs != [] ==> std * std == SumSquares(xs, Mean(xs)) / |xs| as real)
  }

  function AtLeast(orders: seq<Row>, threshold: real): (r: seq<Row>)
    ensures forall o :: o in r ==> o in orders && o.amount >= threshold
  {
    if orders == [] then []
    else (if orders[0].amount >= threshold then [orders[0]] else []) + AtLeast(orders[1..], threshold)
  }

  lemma {:induction false} AtLeastAppend(orders: seq<Row>, last: Row, threshold: real)
    ensures AtLeast(orders + [last], threshold)
            == AtLeast(orders, threshold) + if last.amount >= threshold then [last] else []
    decreases |orders|
  {
    if orders == [] {
      assert [last][1..] == [];
    } else {
      assert (orders + [last])[1..] == orders[1..] + [last];
      AtLeastAppend(orders[1..], last, threshold);
    }
  }

  /** `at` lists, in increasing order, the positions of all orders from the threshold up. */
  ghost predicate AllFrom(orders: seq<Row>, threshold: real, at: seq<nat>) {
    && (forall i, j :: 0 <= i < j < |at| ==> at[i] < at[j])
    && (forall i: nat :: i in at <==> i < |orders| && orders[i].amount >= threshold)
  }

  /** The rows at the given positions. */
  ghost predicate RowsAt(orders: seq<Row>, at: seq<nat>, r: seq<Row>) {
    |r| == |at| && forall k :: 0 <= k < |at| ==> at[k] < |orders| && r[k] == orders[at[k]]
  }

  lemma {:induction false} AllFromSnoc(orders: seq<Row>, last: Row, threshold: real, at: seq<nat>)
    requires AllFrom(orders, threshold, at)
    ensures AllFrom(orders + [last], threshold, if last.amount >= threshold then at + [|orders|] else at)
  {
    var more, all := orders + [last], if last.amount >= threshold then at + [|orders|] else at;
    forall i: nat
      ensures i in all <==> i < |more| && more[i].amount >= threshold
    {
      assert i in all <==> i in at || (last.amount >= threshold && i == |orders|);
      assert i < |orders| ==> more[i] == orders[i];
    }
    forall i, j | 0 <= i < j < |all|
      ensures all[i] < all[j]
    {
      assert i < |at| && all[i] == at[i] && at[i] in at;
    }
  }

  lemma {:induction false} RowsAtSnoc(orders: seq<Row>, last: Row, at: seq<nat>, r: seq<Row>)
    requires RowsAt(orders, at, r)
    ensures RowsAt(orders + [last], at, r) && RowsAt(orders + [last], at + [|orders|], r + [last])
  {
  }

  /** Every order from the threshold up is returned, once for every time it occurs and in its place. */
  lemma {:induction false} AtLeastIsAll(orders: seq<Row>, threshold: real) returns (at: seq<nat>)
    ensures AllFrom(orders, threshold, at) && RowsAt(orders, at, AtLeast(orders, threshold))
    decreases |orders|
  {
    if orders == [] {
      at := [];
    } else {
      var init, last := orders[..|orders| - 1], orders[|orders| - 1];
      var before := AtLeastIsAll(init, threshold);
      assert orders == init + [last];
      AllFromSnoc(init, last, threshold, before);
      RowsAtSnoc(init, last, before, AtLeast(init, threshold));
      AtLeastAppend(init, last, threshold);
      at := if last.amount >= threshold then before + [|init|] else before;
      assert last.amount < threshold ==> AtLeast(orders, threshold) == AtLeast(init, threshold);
    }
  }

  lemma {:induction false} PositiveAppend(orders: seq<Row>, last: Row)
    ensures Positive(orders + [last]) == Positive(orders) + if last.amount > 0.0 then [last.amount] else []
    decreases |orders|
  {
    if orders == [] {
      assert [last][1..] == [];
    } else {
      assert (orders + [last])[1..] == orders[1..] + [last];
      PositiveAppend(orders[1..], last);
    }
  }

  /** Sum and squared distances of one amount more. */
  lemma {:induction false} SumsAppend(xs: seq<real>, last: real, center: real)
    ensures Sum(xs + [last]) == Sum(xs) + last
    ensures SumSquares(xs + [last], center) == SumSquares(xs, center) + (last - center) * (last - center)
    decreases |xs|
  {
    if xs == [] {
      assert [last][1..] == [] && xs + [last] == [last];
    } else {
      assert (xs + [last])[1..] == xs[1..] + [last];
      SumsAppend(xs[1..], last, center);
    }
  }

  /** `getHighAmountOrders`, with the square root passed in as `std`. */
  function HighAmountOrders(orders: seq<Row>, std: real): seq<Row> {
    var amounts := Positive(orders);
    if |amounts| < 2 then [] else AtLeast(orders, Mean(amounts) + 3.0 * std)
  }

  /** What is flagged, for any amounts: below two positive ones nothing, and otherwise every order from
      their mean plus three deviations up, once for every time it occurs, in the order of the query. */
  lemma {:induction false} FlagsExactly(orders: seq<Row>, std: real) returns (at: seq<nat>)
    ensures RowsAt(orders, at, HighAmountOrders(orders, std))
    ensures var xs := Positive(orders);
            && (|xs| < 2 ==> at == [])
            && (|xs| >= 2 ==> AllFrom(orders, Sum(xs) / |xs| as real + 3.0 * std, at))
  {
    var xs := Positive(orders);
    if |xs| < 2 {
      at := [];
    } else {
      at := AtLeastIsAll(orders, Mean(xs) + 3.0 * std);
    }
  }

  ghost predicate AllEqual(xs: seq<real>) {
    forall i, j :: 0 <= i < |xs| && 0 <= j < |xs| ==> xs[i] == xs[j]
  }

  function CountAtLeast(xs: seq<real>, threshold: real): nat {
    if xs == [] then 0 else (if xs[0] >= threshold then 1 else 0) + CountAtLeast(xs[1..], threshold)
  }

  /** With a positive threshold only positive amounts can be flagged. */
  lemma {:induction false} FlaggedArePositive(orders: seq<Row>, threshold: real)
    requires threshold > 0.0
    ensures |AtLeast(orders, threshold)| == CountAtLeast(Positive(orders), threshold)
  {
    if orders != [] {
      FlaggedArePositive(orders[1..], threshold);
      if orders[0].amount > 0.0 {
        assert Positive(orders)[1..] == Positive(orders[1..]);
      } else {
        assert Positive(orders) == Positive(orders[1..]);
      }
    }
  }

  lemma {:induction false} SumPositive(xs: seq<real>)
    requires xs != [] && forall i :: 0 <= i < |xs| ==> xs[i] > 0.0
    ensures Sum(xs) > 0.0
  {
    if |xs| > 1 {
      SumPositive(xs[1..]);
    } else {
      assert Sum(xs[1..]) == 0.0;
    }
  }

  lemma {:induction false} ShiftOne(x: real, m: real, c: real)
    ensures Square(x - (m - c)) == Square(x - m) + 2.0 * (c * (x - m)) + Square(c)
  {
  }

  lemma {:induction false} Distribute(c: real, a: real, b: real)
    ensures c * (a + b) == c * a + c * b
  {
  }

  lemma {:induction false} PositiveProduct(a: real, b: real, product: real)
    requires a > 0.0 && b > 0.0 && product == a * b
    ensures product > 0.0
  {
  }

  lemma {:induction false} NegativeProduct(a: real, b: real, product: real)
    requires a < 0.0 && b < 0.0 && product == a * b
    ensures product > 0.0
  {
  }

  lemma {:induction false} SquarePositive(x: real)
    requires x != 0.0
    ensures Square(x) > 0.0
  {
    if x > 0.0 {
      PositiveProduct(x, x, Square(x));
    } else {
      NegativeProduct(x, x, Square(x));
    }
  }

  lemma {:induction false} Quotient(a: real, n: real)
    requires n > 0.0
    ensures a / n * n == a && (a * n) / n == a
  {
  }

  /** Signed distances to `m`, summed; zero when `m` is the mean. */
  function Deviation(xs: seq<real>, m: real): real {
    if xs == [] then 0.0 else xs[0] - m + Deviation(xs[1..], m)
  }

  function Repeat(x: real, n: nat): real {
    if n == 0 then 0.0 else x + Repeat(x, n - 1)
  }

  lemma {:induction false} RepeatIsProduct(x: real, n: nat)
    ensures Repeat(x, n) == x * n as real
  {
    if n > 0 {
      RepeatIsProduct(x, n - 1);
      Distribute(x, (n - 1) as real, 1.0);
    }
  }

  lemma {:induction false} DeviationFromSum(xs: seq<real>, m: real)
    ensures Deviation(xs, m) == Sum(xs) - Repeat(m, |xs|)
  {
    if xs != [] {
      DeviationFromSum(xs[1..], m);
    }
  }

  lemma {:induction false} MeanBalances(xs: seq<real>)
    requires xs != []
    ensures Deviation(xs, Mean(xs)) == 0.0
  {
    DeviationFromSum(xs, Mean(xs));
    RepeatIsProduct(Mean(xs), |xs|);
    Quotient(Sum(xs), |xs| as real);
  }

  /** What moving the centre by `c` adds, term by term; `sq` stands for the square of `c`. */
  function Added(xs: seq<real>, m: real, c: real, sq: real): real {
    if xs == [] then 0.0 else 2.0 * (c * (xs[0] - m)) + sq + Added(xs[1..], m, c, sq)
  }

  lemma {:induction false} ShiftCentre(xs: seq<real>, m: real, c: real)
    ensures SumSquares(xs, m - c) == SumSquares(xs, m) + Added(xs, m, c, Square(c))
  {
    if xs != [] {
      ShiftCentre(xs[1..], m, c);
      ShiftOne(xs[0], m, c);
    }
  }

  lemma {:induction false} AddedTotal(xs: seq<real>, m: real, c: real, sq: real)
    ensures Added(xs, m, c, sq) == 2.0 * (c * Deviation(xs, m)) + Repeat(sq, |xs|)
  {
    if xs != [] {
      AddedTotal(xs[1..], m, c, sq);
      Distribute(c, xs[0] - m, Deviation(xs[1..], m));
    }
  }

  lemma {:induction false} SquareMonotone(a: real, b: real)
    requires 0.0 <= a <= b
    ensures Square(a) <= Square(b)
  {
    Distribute(b, b - a, a);
    Distribute(a, b - a, a);
    if 0.0 < a < b {
      PositiveProduct(b, b - a, b * (b - a));
      PositiveProduct(a, b - a, a * (b - a));
    }
  }

  /** Every element at or above the threshold contributes at least `w`, the threshold's own square. */
  lemma {:induction false} CountTimesSquare(xs: seq<real>, threshold: real, center: real, w: real)
    requires center <= threshold && w == Square(threshold - center)
    ensures Repeat(w, CountAtLeast(xs, threshold)) <= SumSquares(xs, center)
  {
    if xs != [] {
      CountTimesSquare(xs[1..], threshold, center, w);
      if xs[0] >= threshold {
        SquareMonotone(threshold - center, xs[0] - center);
      }
    }
  }

  lemma {:induction false} ZeroSquares(xs: seq<real>, m: real)
    requires SumSquares(xs, m) == 0.0
    ensures forall i :: 0 <= i < |xs| ==> xs[i] == m
  {
    if xs != [] {
      assert Square(xs[0] - m) == 0.0 && SumSquares(xs[1..], m) == 0.0;
      if xs[0] != m {
        SquarePositive(xs[0] - m);
      }
      ZeroSquares(xs[1..], m);
      forall i | 0 <= i < |xs| ensures xs[i] == m {
        if i > 0 {
          assert xs[i] == xs[1..][i - 1];
        }
      }
    }
  }

  lemma {:induction false} ConstantSums(xs: seq<real>, v: real)
    requires forall i :: 0 <= i < |xs| ==> xs[i] == v
    ensures Sum(xs) == v * |xs| as real && SumSquares(xs, v) == 0.0
    ensures CountAtLeast(xs, v) == |xs|
  {
    if xs != [] {
      var n := |xs[1..]| as real;
      ConstantSums(xs[1..], v);
      Distribute(v, n, 1.0);
      assert |xs| as real == n + 1.0;
      assert Square(xs[0] - v) == 0.0;
    } else {
      Distribute(v, 0.0, 0.0);
    }
  }

  lemma {:induction false} DivideBack(sum: real, a: real, n: real)
    requires n > 0.0 && sum == a * n
    ensures sum / n == a
  {
    Quotient(a, n);
  }

  lemma {:induction false} EqualAmounts(xs: seq<real>)
    requires xs != [] && AllEqual(xs)
    ensures Mean(xs) == xs[0] && SumSquares(xs, Mean(xs)) == 0.0
  {
    ConstantSums(xs, xs[0]);
    DivideBack(Sum(xs), xs[0], |xs| as real);
  }

  /** The deviation is zero exactly when the amounts are all equal. */
  lemma {:induction false} StdZero(xs: seq<real>, std: real)
    requires xs != [] && IsStd(xs, std)
    ensures std == 0.0 <==> AllEqual(xs)
    ensures AllEqual(xs) ==> Mean(xs) == xs[0]
  {
    var squares, n := SumSquares(xs, Mean(xs)), |xs| as real;
    Quotient(squares, n);
    if std == 0.0 {
      assert squares == 0.0;
      ZeroSquares(xs, Mean(xs));
    }
    if AllEqual(xs) {
      EqualAmounts(xs);
      ZeroRoot(std, squares / n);
    }
  }

  lemma {:induction false} ZeroRoot(std: real, variance: real)
    requires std * std == variance == 0.0
    ensures std == 0.0
  {
    if std != 0.0 {
      SquarePositive(std);
    }
  }

  /** k*100q <= n*9q + n*q leaves 10k <= n. */
  lemma {:induction false} CancelSquare(k: nat, n: nat, q: real)
    requires q > 0.0 && Repeat(100.0 * q, k) <= Repeat(9.0 * q, n) + Repeat(q, n)
    ensures 10 * k <= n
  {
    RepeatIsProduct(100.0 * q, k);
    RepeatIsProduct(9.0 * q, n);
    RepeatIsProduct(q, n);
    var d := 10.0 * k as real - n as real;
    assert 10.0 * (q * d) == 100.0 * q * k as real - (9.0 * q * n as real + q * n as real);
    if d > 0.0 {
      PositiveProduct(q, d, q * d);
    }
  }

  lemma {:induction false} SquareOfMultiples(c: real)
    ensures Square(10.0 * c) == 100.0 * Square(c) && Square(3.0 * c) == 9.0 * Square(c)
  {
  }

  lemma {:induction false} ShiftedSquares(xs: seq<real>, m: real, c: real, q: real)
    requires Deviation(xs, m) == 0.0 && q == Square(c)
    ensures SumSquares(xs, m - c) == SumSquares(xs, m) + Repeat(q, |xs|)
  {
    ShiftCentre(xs, m, c);
    AddedTotal(xs, m, c, q);
  }

  /** n variances make the sum of squares. */
  lemma {:induction false} StdTotal(n: nat, variance: real, squares: real)
    requires n > 0 && variance == squares / n as real
    ensures squares == Repeat(variance, n)
  {
    RepeatIsProduct(variance, n);
    Quotient(squares, n as real);
  }

  /** The one-sided three-sigma bound, for c a third of the deviation. Shifting the centre by c
      is what turns the usual two-sided ninth into a tenth. */
  lemma {:induction false} TenthOfAmounts(xs: seq<real>, m: real, c: real, q: real)
    requires c > 0.0 && q == Square(c) && Deviation(xs, m) == 0.0
    requires SumSquares(xs, m) == Repeat(9.0 * q, |xs|)
    ensures 10 * CountAtLeast(xs, m + 9.0 * c) <= |xs|
  {
    ShiftedSquares(xs, m, c, q);
    SquareOfMultiples(c);
    assert m + 9.0 * c - (m - c) == 10.0 * c;
    CountTimesSquare(xs, m + 9.0 * c, m - c, 100.0 * q);
    SquarePositive(c);
    CancelSquare(CountAtLeast(xs, m + 9.0 * c), |xs|, q);
  }

  lemma {:induction false} MeanPositive(xs: seq<real>)
    requires xs != [] && Sum(xs) > 0.0
    ensures Mean(xs) > 0.0
  {
  }

  lemma {:induction false} FlaggedCount(orders: seq<Row>, xs: seq<real>, std: real)
    requires xs == Positive(orders) && |xs| >= 2 && std >= 0.0
    ensures |HighAmountOrders(orders, std)| == CountAtLeast(xs, Mean(xs) + 3.0 * std)
  {
    SumPositive(xs);
    MeanPositive(xs);
    FlaggedArePositive(orders, Mean(xs) + 3.0 * std);
  }

  /** What the filter flags: nothing below two positive amounts, everything when the amounts
      are all equal, and otherwise at most one tenth of the positive amounts. */
  lemma {:induction false} AtMostATenth(orders: seq<Row>, std: real)
    requires IsStd(Positive(orders), std)
    ensures var n, k := |Positive(orders)|, |HighAmountOrders(orders, std)|;
            && (n < 2 ==> k == 0)
            && (n >= 2 ==> (10 * k <= n <==> !AllEqual(Positive(orders))))
            && (n >= 2 && AllEqual(Positive(orders)) ==> k == n)
  {
    var xs := Positive(orders);
    if |xs| >= 2 {
      FlaggedCount(orders, xs, std);
      StdZero(xs, std);
      if AllEqual(xs) {
        ConstantSums(xs, xs[0]);
      } else {
        NotAllEqual(xs, std);
      }
    }
  }

  lemma {:induction false} NotAllEqual(xs: seq<real>, std: real)
    requires xs != [] && IsStd(xs, std) && std > 0.0
    ensures 10 * CountAtLeast(xs, Mean(xs) + 3.0 * std) <= |xs|
  {
    var c := std / 3.0;
    assert std == 3.0 * c && 3.0 * std == 9.0 * c;
    MeanBalances(xs);
    StdTotal(|xs|, Square(std), SumSquares(xs, Mean(xs)));
    SquareOfMultiples(c);
    TenthOfAmounts(xs, Mean(xs), c, Square(c));
  }

  /** Among fewer than ten positive amounts that are not all equal nothing is flagged. */
  lemma {:induction false} NothingAmongNine(orders: seq<Row>, std: real)
    requires IsStd(Positive(orders), std)
    requires |Positive(orders)| < 10 && !AllEqual(Positive(orders))
    ensures HighAmountOrders(orders, std) == []
  {
    AtMostATenth(orders, std);
  }

  /** The tenth is attained: nine orders of 1 and one of 11 have deviation 3 and flag the last. */
  lemma {:induction false} TenthIsAttained(orders: seq<Row>)
    requires orders == [Row("big", 11.0)] + Nine(9)
    ensures |Positive(orders)| == 10 && IsStd(Positive(orders), 3.0) && !AllEqual(Positive(orders))
    ensures HighAmountOrders(orders, 3.0) == [Row("big", 11.0)]
  {
    TenSums(orders);
    NineSums(9);
    assert orders[1..] == Nine(9);
    assert Mean(Positive(orders)) == 2.0;
  }

  lemma {:induction false} TenSums(orders: seq<Row>)
    requires orders == [Row("big", 11.0)] + Nine(9)
    ensures var xs := Positive(orders);
            |xs| == 10 && xs[0] != xs[1] && Sum(xs) == 20.0 && SumSquares(xs, 2.0) == 90.0
  {
    NineSums(9);
    var nine, xs := Positive(Nine(9)), Positive(orders);
    assert orders[1..] == Nine(9);
    assert xs == [11.0] + nine && xs[1..] == nine && xs[1] == nine[0];
    assert Square(9.0) == 81.0;
  }

  function Nine(n: nat): (r: seq<Row>)
    ensures |r| == n
  {
    if n == 0 then [] else [Row("small", 1.0)] + Nine(n - 1)
  }

  lemma {:induction false} NineSums(n: nat)
    ensures var xs := Positive(Nine(n));
            |xs| == n && (n > 0 ==> xs[0] == 1.0) && Sum(xs) == n as real && SumSquares(xs, 2.0) == n as real
    ensures AtLeast(Nine(n), 11.0) == []
  {
    if n > 0 {
      NineSums(n - 1);
      assert Nine(n)[1..] == Nine(n - 1);
      assert Positive(Nine(n))[1..] == Positive(Nine(n - 1));
      assert Square(-1.0) == 1.0;
    }
  }
}
