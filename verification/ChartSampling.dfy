/** Even sampling of the stored buckets of a chart. */
module ChartSampling {
  // round() on the exact quotient p / q: to the nearest integer, ties to the even one.
  function RoundHalfEven(p: nat, q: nat): (r: nat)
    requires q > 0
  {
    var whole, rest := p / q, p % q;
    if 2 * rest < q || (2 * rest == q && whole % 2 == 0) then whole else whole + 1
  }

  // r is within half of p / q, and even when two integers are as near.
  predicate Nearest(r: nat, p: nat, q: nat) {
    && -(q as int) <= 2 * (r * q - p) <= q
    && ((2 * (r * q - p) == q || 2 * (r * q - p) == -(q as int)) ==> r % 2 == 0)
  }

  // The rounded quotient is the one nearest integer.
  lemma RoundNearest(p: nat, q: nat, r: nat)
    requires q > 0
    ensures r == RoundHalfEven(p, q) <==> Nearest(r, p, q)
  {
    var whole, rest := p / q, p % q;
    assert p == whole * q + rest;
    Distribute(r, whole, q);
    var e := (r - whole) * q;
    if r - whole >= 2 {
      Products(r - whole, 2, q);
    } else if r - whole <= -1 {
      Products(-1, r - whole, q);
    }
    NearestCases(r, whole, rest, p, q, e);
  }

  lemma NearestCases(r: nat, whole: nat, rest: nat, p: nat, q: nat, e: int)
    requires q > 0 && rest == p % q && whole == p / q && r * q - p == e - rest
    requires r == whole ==> e == 0
    requires r == whole + 1 ==> e == q
    requires r >= whole + 2 ==> e >= 2 * q
    requires r < whole ==> e <= -(q as int)
    ensures r == RoundHalfEven(p, q) <==> Nearest(r, p, q)
  {
    assert 0 <= rest < q;
    var twice := 2 * (r * q - p);
    assert twice == 2 * e - 2 * rest;
  }

  lemma Distribute(a: int, b: int, q: int)
    ensures a * q - b * q == (a - b) * q
  {
  }

  lemma Products(a: int, b: int, q: nat)
    requires a >= b
    ensures a * q >= b * q
  {
  }

  // The i-th of m indices spread over 0..last.
  function Index(i: nat, last: nat, m: nat): nat
    requires m >= 2
  {
    RoundHalfEven(i * last, m - 1)
  }

  lemma DivideSum(p: nat, d: nat, q: nat)
    requires q > 0
    ensures var carry := if p % q + d % q >= q then 1 else 0;
            (p + d) / q == p / q + d / q + carry && (p + d) % q == p % q + d % q - carry * q
  {
    var carry := if p % q + d % q >= q then 1 else 0;
    var quotient, rest := p / q + d / q + carry, p % q + d % q - carry * q;
    assert p + d == quotient * q + rest by {
      assert p == p / q * q + p % q && d == d / q * q + d % q;
      Sums(p / q, d / q, carry, q);
    }
    Unique(p + d, q, quotient, rest);
  }

  lemma Sums(a: int, b: int, c: int, q: int)
    ensures (a + b + c) * q == a * q + b * q + c * q
  {
  }

  lemma Unique(n: nat, q: nat, quotient: int, rest: int)
    requires q > 0 && n == quotient * q + rest && 0 <= rest < q
    ensures n / q == quotient && n % q == rest
  {
    var other := n / q;
    assert n == other * q + n % q;
    Distribute(quotient, other, q);
    if quotient - other >= 1 {
      Products(quotient - other, 1, q);
    } else if quotient - other <= -1 {
      Products(-1, quotient - other, q);
    }
  }

  // Rounding moves by the step rounded down or up, unless two ties meet.
  lemma RoundStep(p: nat, d: nat, q: nat)
    requires q > 0 && (d % q == 0 ==> p % q == 0)
    ensures var gap := RoundHalfEven(p + d, q) - RoundHalfEven(p, q);
            gap == d / q || (d % q != 0 && gap == d / q + 1)
  {
    DivideSum(p, d, q);
  }

  lemma MultipleOfMultiple(i: nat, d: nat, q: nat)
    requires q > 0 && d % q == 0
    ensures (i * d) % q == 0
  {
    var k := d / q;
    assert d == k * q;
    assert i * d == (i * k) * q;
    Unique(i * d, q, i * k, 0);
  }

  // Consecutive indices differ by (last / (m - 1)) rounded down or up; the first is 0 and
  // the last is `last`.
  lemma EvenlySpread(i: nat, last: nat, m: nat)
    requires m >= 2 && i < m
    ensures Index(0, last, m) == 0 && Index(m - 1, last, m) == last
    ensures i + 1 < m ==>
              var gap := Index(i + 1, last, m) - Index(i, last, m);
              gap == last / (m - 1) || (last % (m - 1) != 0 && gap == last / (m - 1) + 1)
  {
    IndexEnds(last, m);
    if i + 1 < m { IndexStep(i, last, m - 1); }
  }

  lemma IndexEnds(last: nat, m: nat)
    requires m >= 2
    ensures Index(0, last, m) == 0 && Index(m - 1, last, m) == last
  {
    Unique((m - 1) * last, m - 1, last, 0);
  }

  lemma IndexStep(i: nat, last: nat, q: nat)
    requires q > 0
    ensures var gap := Index(i + 1, last, q + 1) - Index(i, last, q + 1);
            gap == last / q || (last % q != 0 && gap == last / q + 1)
  {
    hide RoundHalfEven;
    if last % q == 0 { MultipleOfMultiple(i, last, q); }
    OneMore(i, last);
    RoundStep(i * last, last, q);
  }

  lemma OneMore(i: nat, last: nat)
    ensures (i + 1) * last == i * last + last
  {
  }

  // With more buckets than points no two points share a bucket.
  lemma {:induction false} IndicesIncrease(i: nat, j: nat, last: nat, m: nat)
    requires m >= 2 && last >= m && i < j < m
    ensures Index(i, last, m) < Index(j, last, m) <= last
    decreases m - i
  {
    hide Index;
    EvenlySpread(i, last, m);
    StepAtLeastOne(last, m - 1);
    if i + 1 < j {
      IndicesIncrease(i + 1, j, last, m);
    } else if j < m - 1 {
      IndicesIncrease(j, m - 1, last, m);
    }
  }

  lemma StepAtLeastOne(last: nat, q: nat)
    requires q > 0 && last >= q
    ensures last / q >= 1
  {
    assert last == last / q * q + last % q;
  }

  // ---------------------------------------------------------------- the selection

  // The positive identifiers, each where it first stands.
  function Cleaned(ids: seq<int>): (r: seq<int>)
    ensures forall x :: x in r <==> x in ids && x > 0
    ensures forall i, j :: 0 <= i < j < |r| ==> r[i] != r[j]
  {
    if ids == [] then []
    else
      var r, x := Cleaned(ids[..|ids| - 1]), ids[|ids| - 1];
      assert ids == ids[..|ids| - 1] + [x];
      if x > 0 && x !in r then r + [x] else r
  }

  predicate Increasing(ids: seq<int>) {
    forall i, j :: 0 <= i < j < |ids| ==> ids[i] < ids[j]
  }

  lemma {:induction false} CleanedIncreasing(ids: seq<int>)
    requires Increasing(ids) && forall x <- ids :: x > 0
    ensures Cleaned(ids) == ids
  {
    if ids != [] {
      var init, x := ids[..|ids| - 1], ids[|ids| - 1];
      assert x in ids;
      assert forall y <- init :: y in ids;
      CleanedIncreasing(init);
      assert x !in init by {
        forall k | 0 <= k < |init| ensures init[k] != x { assert ids[k] < ids[|ids| - 1]; }
      }
    }
  }

  // The i-th of the buckets chosen when there are too many.
  function Chosen(ids: seq<int>, m: nat, i: nat): int
    requires 2 <= m < |ids| && i < m
  {
    ChosenExists(i, |ids| - 1, m);
    ids[Index(i, |ids| - 1, m)]
  }

  lemma ChosenExists(i: nat, last: nat, m: nat)
    requires 2 <= m <= last && i < m
    ensures Index(i, last, m) <= last
  {
    hide Index;
    EvenlySpread(i, last, m);
    if i < m - 1 { IndicesIncrease(i, m - 1, last, m); }
  }

  function Sampled(ids: seq<int>, m: nat): seq<int> {
    if |ids| <= m then ids
    else if m <= 1 then [ids[|ids| - 1]]
    else seq(m, i requires 0 <= i < m => Chosen(ids, m, i))
  }

  // At most maxPoints of the buckets, where they stand after the filter.
  method SampleRealBuckets(bucketIds: seq<int>, maxPoints: nat) returns (chosen: seq<int>)
    ensures chosen == Sampled(Cleaned(bucketIds), maxPoints)
  {
    hide Index;
    var ids := Cleaned(bucketIds);
    if |ids| <= maxPoints { return ids; }
    if maxPoints <= 1 { return [ids[|ids| - 1]]; }
    chosen := [];
    var lastIndex := |ids| - 1;
    for i := 0 to maxPoints
      invariant |chosen| == i
      invariant forall k :: 0 <= k < i ==> chosen[k] == Chosen(ids, maxPoints, k)
    {
      ChosenExists(i, lastIndex, maxPoints);
      if i > 0 {
        ChosenExists(i - 1, lastIndex, maxPoints);
        IndicesIncrease(i - 1, i, lastIndex, maxPoints);
      }
      var idx := Index(i, lastIndex, maxPoints);
      var value := ids[idx];
      if chosen == [] || chosen[|chosen| - 1] != value {
        chosen := chosen + [value];
      }
    }
  }

  // What the list of chosen buckets is for increasing buckets: in order, ending with the last
  // and, from two points on, beginning with the first; no more than asked for, except that one
  // is always given; and when some are left out, with the same number of buckets between any
  // two neighbours, give or take one.
  lemma SampleIsSpread(ids: seq<int>, m: nat) returns (at: seq<nat>)
    requires Increasing(ids) && ids != []
    ensures var r := Sampled(ids, m);
            && |at| == |r| == (if |ids| <= m then |ids| else if m == 0 then 1 else m)
            && (forall k :: 0 <= k < |r| ==> at[k] < |ids| && r[k] == ids[at[k]])
            && Increasing(r)
            && r[|r| - 1] == ids[|ids| - 1]
            && (m >= 2 ==> r[0] == ids[0])
            && (forall k :: 0 < k < |r| ==>
                  at[k] - at[k - 1] == (if |ids| <= m then 1 else (|ids| - 1) / (m - 1))
                  || (m < |ids| && (|ids| - 1) % (m - 1) != 0 && at[k] - at[k - 1] == (|ids| - 1) / (m - 1) + 1))
  {
    hide Index;
    var r := Sampled(ids, m);
    if |ids| <= m {
      at := seq(|ids|, i => i);
    } else if m <= 1 {
      at := [|ids| - 1];
    } else {
      var last := |ids| - 1;
      at := seq(m, i requires 0 <= i < m => Index(i, last, m));
      forall k | 0 <= k < m ensures at[k] < |ids| && r[k] == ids[at[k]] { ChosenExists(k, last, m); }
      forall i, j | 0 <= i < j < |r| ensures r[i] < r[j] { IndicesIncrease(i, j, last, m); }
      EvenlySpread(0, last, m);
      forall k | 0 < k < |r|
        ensures at[k] - at[k - 1] == last / (m - 1) || (last % (m - 1) != 0 && at[k] - at[k - 1] == last / (m - 1) + 1)
      {
        EvenlySpread(k - 1, last, m);
      }
    }
  }
}
