/** The percentage that Incident.update_progress stores: Python's round, which sends ties to the even neighbour. */
module Progress {

  function RoundHalfEven(n: nat, d: nat): nat
    requires d > 0
  {
    var q, r := n / d, n % d;
    if 2 * r < d then q
    else if 2 * r > d then q + 1
    else if q % 2 == 0 then q
    else q + 1
  }

  /** p is what rounding n/d to the nearest integer, ties to even, means. */
  ghost predicate IsRounded(p: nat, n: nat, d: nat) {
    var error := 2 * (p * d) - 2 * n;
    && error <= d
    && -error <= d
    && (error == d || error == -(d as int) ==> p % 2 == 0)
  }

  function Percentage(done: nat, total: nat): nat {
    if total == 0 then 0 else RoundHalfEven(100 * done, total)
  }

  lemma MultiplesApart(p: nat, q: nat, gap: nat, d: nat)
    requires p + gap <= q
    ensures p * d + gap * d <= q * d
  {
    var rest := q - p - gap;
    assert q * d == (p + gap + rest) * d == p * d + gap * d + rest * d;
  }

  /** Two candidates cannot both be nearest-with-ties-to-even. */
  lemma RoundingIsUnique(p: nat, q: nat, n: nat, d: nat)
    requires d > 0 && IsRounded(p, n, d) && IsRounded(q, n, d)
    ensures p == q
  {
    if p != q {
      var lo, hi := if p < q then p else q, if p < q then q else p;
      MultiplesApart(lo, hi, 1, d);
      if hi >= lo + 2 {
        MultiplesApart(lo, hi, 2, d);
      }
    }
  }

  lemma RoundingIsNearest(n: nat, d: nat)
    requires d > 0
    ensures IsRounded(RoundHalfEven(n, d), n, d)
  {
    var q, r := n / d, n % d;
    assert n == q * d + r;
    assert (q + 1) * d == q * d + d;
  }

  /** RoundHalfEven is the one function that rounds to nearest with ties to even. */
  lemma RoundHalfEvenExactly(p: nat, n: nat, d: nat)
    requires d > 0
    ensures p == RoundHalfEven(n, d) <==> IsRounded(p, n, d)
  {
    RoundingIsNearest(n, d);
    if IsRounded(p, n, d) {
      RoundingIsUnique(p, RoundHalfEven(n, d), n, d);
    }
  }

  lemma PercentageInRange(done: nat, total: nat)
    requires done <= total
    ensures 0 <= Percentage(done, total) <= 100
  {
    if total > 0 {
      var p := Percentage(done, total);
      RoundingIsNearest(100 * done, total);
      if p > 100 {
        MultiplesApart(100, p, 1, total);
      }
    }
  }

  /** One more finished task never lowers the percentage. */
  lemma PercentageMonotone(done: nat, more: nat, total: nat)
    requires done <= more
    ensures Percentage(done, total) <= Percentage(more, total)
  {
    if total > 0 {
      var p, q := Percentage(done, total), Percentage(more, total);
      RoundingIsNearest(100 * done, total);
      RoundingIsNearest(100 * more, total);
      if q < p {
        MultiplesApart(q, p, 1, total);
        if done < more {
          assert false;
        }
      }
    }
  }

  /** 100 is reserved for "every task done" exactly when there are fewer than 200 tasks. */
  lemma HundredMeansAllDone(total: nat)
    requires total > 0
    ensures (forall done: nat | done <= total :: Percentage(done, total) == 100 <==> done == total)
            <==> total < 200
  {
    forall done: nat | done <= total
      ensures Percentage(done, total) == 100 <==> 200 * (total - done) <= total
    {
      RoundHalfEvenExactly(100, 100 * done, total);
    }
    if total >= 200 {
      assert Percentage(total - 1, total) == 100;
    }
  }

  /** 0 is reserved for "no task done" exactly when there are fewer than 200 tasks. */
  lemma ZeroMeansNoneDone(total: nat)
    requires total > 0
    ensures (forall done: nat | done <= total :: Percentage(done, total) == 0 <==> done == 0)
            <==> total < 200
  {
    forall done: nat | done <= total
      ensures Percentage(done, total) == 0 <==> 200 * done <= total
    {
      RoundHalfEvenExactly(0, 100 * done, total);
    }
    if total >= 200 {
      assert Percentage(1, total) == 0;
    }
  }

  /** What a stored percentage says about the tasks it was computed from. */
  lemma PercentageMeans(p: nat, done: nat, total: nat)
    requires done <= total && p == Percentage(done, total)
    ensures if total == 0 then p == 0
            else && IsRounded(p, 100 * done, total)
                 && (total < 200 ==> (p == 100 <==> done == total) && (p == 0 <==> done == 0))
  {
    if total > 0 {
      RoundingIsNearest(100 * done, total);
      HundredMeansAllDone(total);
      ZeroMeansNoneDone(total);
    }
  }
}
