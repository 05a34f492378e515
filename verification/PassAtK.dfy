/** The pass@k estimator, as a theorem about counting subsets of trials. */
module PassAtK {
  /** An argument as it arrives: a boolean or any other non-integer is refused. */
  datatype Argument = Whole(n: int) | NotInteger

  datatype Estimate = Estimate(value: real) | TypeError | ValueError

  /** The number of ways to choose `k` of `n`. */
  function Choose(n: nat, k: nat): nat {
    if k == 0 then 1 else if n == 0 then 0 else Choose(n - 1, k - 1) + Choose(n - 1, k)
  }

  predicate ValidCounts(n: int, c: int, k: int) {
    n > 0 && 0 <= c <= n && 0 < k <= n
  }

  function PassAtK(n: Argument, c: Argument, k: Argument): (r: Estimate)
    ensures r.TypeError? <==> n.NotInteger? || c.NotInteger? || k.NotInteger?
    ensures r.Estimate? <==> n.Whole? && c.Whole? && k.Whole? && ValidCounts(n.n, c.n, k.n)
  {
    if n.NotInteger? || c.NotInteger? || k.NotInteger? then TypeError
    else if n.n <= 0 || c.n < 0 || c.n > n.n || k.n <= 0 || k.n > n.n then ValueError
    else Estimate(PassRate(n.n, c.n, k.n))
  }

  function PassRate(n: nat, c: nat, k: nat): real
    requires ValidCounts(n, c, k)
  {
    if n - c < k then 1.0
    else
      ChoosePositive(n, k);
      1.0 - Choose(n - c, k) as real / Choose(n, k) as real
  }

  // ----- Binomial coefficients -----

  lemma {:induction false} ChoosePositive(n: nat, k: nat)
    ensures Choose(n, k) > 0 <==> k <= n
  {
    if n > 0 && k > 0 {
      ChoosePositive(n - 1, k - 1);
      ChoosePositive(n - 1, k);
    }
  }

  lemma {:induction false} ChooseMonotone(m: nat, n: nat, k: nat)
    requires m <= n
    ensures Choose(m, k) <= Choose(n, k)
  {
    if m < n {
      ChooseMonotone(m, n - 1, k);
    }
  }

  lemma ChooseOne(n: nat)
    ensures Choose(n, 1) == n
  {
    if n > 0 {
      ChooseOne(n - 1);
    }
  }

  /** One more chosen: `(k + 1) * C(n, k + 1) == (n - k) * C(n, k)`. */
  lemma {:induction false} Absorption(n: nat, k: nat)
    requires k <= n
    ensures (k + 1) * Choose(n, k + 1) == (n - k) * Choose(n, k)
  {
    if n == k {
      ChoosePositive(n, k + 1);
    } else if k == 0 {
      ChooseOne(n);
    } else {
      Absorption(n - 1, k);
      Absorption(n - 1, k - 1);
      AbsorptionStep(n, k, Choose(n - 1, k - 1), Choose(n - 1, k), Choose(n - 1, k + 1));
    }
  }

  lemma AbsorptionStep(n: int, k: int, a: int, b: int, d: int)
    requires (k + 1) * d == (n - 1 - k) * b && k * b == (n - 1 - (k - 1)) * a
    ensures (k + 1) * (b + d) == (n - k) * (a + b)
  {
    assert (k + 1) * (b + d) == k * b + b + (k + 1) * d;
    assert (n - k) * (a + b) == (n - k) * a + (n - 1 - k) * b + b;
  }

  // ----- Fractions -----

  lemma QuotientIs(a: real, b: real, q: real)
    requires b > 0.0 && q * b == a
    ensures a / b == q
  {
  }

  lemma QuotientOrder(a: real, b: real, c: real, d: real)
    requires b > 0.0 && d > 0.0 && a * d <= c * b
    ensures a / b <= c / d
  {
    assert a / b * b == a && c / d * d == c;
    assert (a / b) * (b * d) == a * d && (c / d) * (b * d) == c * b;
    assert b * d > 0.0;
  }

  lemma Complement(a: real, b: real)
    requires b > 0.0
    ensures 1.0 - a / b == (b - a) / b
  {
    assert a / b * b == a;
    assert (1.0 - a / b) * b == b - a;
    QuotientIs(b - a, b, 1.0 - a / b);
  }

  // ----- Counting subsets -----

  /** The subsets of `s` with `k` elements. */
  ghost function Subsets(s: set<nat>, k: nat): set<set<nat>> {
    set t: set<nat> | t <= s && |t| == k
  }

  /** The sets of `family`, each with `x` added. */
  ghost function Adding(family: set<set<nat>>, x: nat): set<set<nat>> {
    set t | t in family :: t + {x}
  }

  lemma {:induction false} AddingKeepsCount(family: set<set<nat>>, x: nat)
    requires forall t | t in family :: x !in t
    ensures |Adding(family, x)| == |family|
    decreases |family|
  {
    if family == {} {
      assert Adding(family, x) == {};
    } else {
      var t :| t in family;
      var rest := family - {t};
      AddingKeepsCount(rest, x);
      assert t + {x} !in Adding(rest, x) by {
        forall u | u in rest ensures u + {x} != t + {x} {
          assert u == (u + {x}) - {x} && t == (t + {x}) - {x};
        }
      }
      assert Adding(family, x) == Adding(rest, x) + {t + {x}};
    }
  }

  /** Choosing from `s` either leaves `x` out or takes it. */
  lemma SplitSubsets(s: set<nat>, x: nat, k: nat)
    requires x in s && k > 0
    ensures Subsets(s, k) == Subsets(s - {x}, k) + Adding(Subsets(s - {x}, k - 1), x)
    ensures Subsets(s - {x}, k) !! Adding(Subsets(s - {x}, k - 1), x)
  {
    forall t | t in Subsets(s, k)
      ensures t in Subsets(s - {x}, k) + Adding(Subsets(s - {x}, k - 1), x)
    {
      if x in t {
        assert t - {x} in Subsets(s - {x}, k - 1) && t == (t - {x}) + {x};
      }
    }
  }

  lemma OneEmptySubset(s: set<nat>)
    ensures Subsets(s, 0) == {{}}
  {
    forall t | t in Subsets(s, 0) ensures t == {} {
    }
    assert {} in Subsets(s, 0);
  }

  lemma NothingToChoose(k: nat)
    requires k > 0
    ensures Subsets({}, k) == {}
  {
    assert forall t: set<nat> | t <= {} :: t == {};
  }

  lemma {:induction false} CountSubsets(s: set<nat>, k: nat)
    ensures |Subsets(s, k)| == Choose(|s|, k)
    decreases |s|
  {
    hide Subsets, Adding;
    if k == 0 {
      OneEmptySubset(s);
    } else if s == {} {
      NothingToChoose(k);
    } else {
      var x :| x in s;
      var without, rest := Subsets(s - {x}, k), Subsets(s - {x}, k - 1);
      SplitSubsets(s, x, k);
      CountSubsets(s - {x}, k);
      CountSubsets(s - {x}, k - 1);
      assert |Adding(rest, x)| == |rest| by { SubsetsWithout(s - {x}, x, k - 1); AddingKeepsCount(rest, x); }
      assert |without + Adding(rest, x)| == |without| + |Adding(rest, x)|;
    }
  }

  lemma SubsetsWithout(s: set<nat>, x: nat, k: nat)
    requires x !in s
    ensures forall t | t in Subsets(s, k) :: x !in t
  {
  }

  // ----- What the estimator estimates -----

  /** The selections of `k` trials with at least one success. */
  ghost function Passing(trials: set<nat>, successes: set<nat>, k: nat): set<set<nat>> {
    set t | t in Subsets(trials, k) && t * successes != {}
  }

  lemma CountPassing(trials: set<nat>, successes: set<nat>, k: nat)
    requires successes <= trials
    ensures |trials - successes| == |trials| - |successes|
    ensures |Passing(trials, successes, k)| == Choose(|trials|, k) - Choose(|trials - successes|, k)
  {
    var failing := Subsets(trials - successes, k);
    assert Subsets(trials, k) == Passing(trials, successes, k) + failing;
    assert Passing(trials, successes, k) !! failing;
    CountSubsets(trials, k);
    CountSubsets(trials - successes, k);
  }

  /** Main result: what the estimator returns is the fraction of all selections of `k` trials that contain a success. */
  lemma EstimateIsFractionPassing(trials: set<nat>, successes: set<nat>, k: nat)
    requires successes <= trials && ValidCounts(|trials|, |successes|, k)
    ensures |Subsets(trials, k)| > 0
    ensures PassAtK(Whole(|trials|), Whole(|successes|), Whole(k))
      == Estimate(|Passing(trials, successes, k)| as real / |Subsets(trials, k)| as real)
  {
    hide Choose, Subsets, Passing;
    var n, c := |trials|, |successes|;
    CountPassing(trials, successes, k);
    CountSubsets(trials, k);
    ChoosePositive(n, k);
    ChoosePositive(n - c, k);
    Complement(Choose(n - c, k) as real, Choose(n, k) as real);
  }

  /** What the estimator returns. */
  ghost function Estimated(n: nat, c: nat, k: nat): real
    requires ValidCounts(n, c, k)
  {
    PassAtK(Whole(n), Whole(c), Whole(k)).value
  }

  /** The chance of a selection without a success. */
  function MissRate(n: nat, c: nat, k: nat): real
    requires ValidCounts(n, c, k)
  {
    ChoosePositive(n, k);
    Choose(n - c, k) as real / Choose(n, k) as real
  }

  lemma PassOrMiss(n: nat, c: nat, k: nat)
    requires ValidCounts(n, c, k)
    ensures Estimated(n, c, k) == 1.0 - MissRate(n, c, k)
  {
    ChoosePositive(n, k);
    ChoosePositive(n - c, k);
    if n - c < k {
      QuotientIs(0.0, Choose(n, k) as real, 0.0);
    }
  }

  lemma EstimateIsProbability(n: nat, c: nat, k: nat)
    requires ValidCounts(n, c, k)
    ensures 0.0 <= Estimated(n, c, k) <= 1.0
    ensures Estimated(n, c, k) == 1.0 <==> n - c < k
  {
    PassOrMiss(n, c, k);
    ChoosePositive(n, k);
    ChoosePositive(n - c, k);
    ChooseMonotone(n - c, n, k);
    var missed, all := Choose(n - c, k) as real, Choose(n, k) as real;
    assert missed / all * all == missed;
    QuotientOrder(0.0, 1.0, missed, all);
    QuotientOrder(missed, all, 1.0, 1.0);
  }

  lemma OneTrialIsSuccessRate(n: nat, c: nat)
    requires ValidCounts(n, c, 1)
    ensures Estimated(n, c, 1) == c as real / n as real
  {
    hide Choose, PassRate, PassAtK;
    PassOrMiss(n, c, 1);
    ChooseOne(n);
    ChooseOne(n - c);
    Complement((n - c) as real, n as real);
  }

  lemma MoreSuccessesPassMore(n: nat, c: nat, c': nat, k: nat)
    requires ValidCounts(n, c, k) && ValidCounts(n, c', k) && c <= c'
    ensures Estimated(n, c, k) <= Estimated(n, c', k)
  {
    PassOrMiss(n, c, k);
    PassOrMiss(n, c', k);
    ChooseMonotone(n - c', n - c, k);
    ChoosePositive(n, k);
    var all := Choose(n, k) as real;
    assert Choose(n - c', k) as real * all <= Choose(n - c, k) as real * all;
    QuotientOrder(Choose(n - c', k) as real, all, Choose(n - c, k) as real, all);
  }

  /** Drawing one more trial cannot lower the chance of a success. */
  lemma OneMoreTrial(n: nat, c: nat, k: nat)
    requires ValidCounts(n, c, k) && ValidCounts(n, c, k + 1)
    ensures Estimated(n, c, k) <= Estimated(n, c, k + 1)
  {
    hide Choose, PassRate, PassAtK;
    PassOrMiss(n, c, k);
    PassOrMiss(n, c, k + 1);
    var m := n - c;
    ChoosePositive(n, k);
    ChoosePositive(n, k + 1);
    ChoosePositive(m, k);
    ChoosePositive(m, k + 1);
    CrossMultiplied(m, n, k);
    QuotientOrder(Choose(m, k + 1) as real, Choose(n, k + 1) as real, Choose(m, k) as real, Choose(n, k) as real);
  }

  lemma CrossMultiplied(m: nat, n: nat, k: nat)
    requires m <= n && k < n
    ensures Choose(m, k + 1) * Choose(n, k) <= Choose(m, k) * Choose(n, k + 1)
  {
    if m < k {
      ChoosePositive(m, k + 1);
    } else {
      Absorption(m, k);
      Absorption(n, k);
      CrossStep(k + 1, m - k, n - k, Choose(m, k), Choose(m, k + 1), Choose(n, k), Choose(n, k + 1));
    }
  }

  lemma CrossStep(j: int, p: int, q: int, a: int, a': int, b: int, b': int)
    requires j > 0 && 0 <= p <= q && a >= 0 && b >= 0
    requires j * a' == p * a && j * b' == q * b
    ensures a' * b <= a * b'
  {
    var product := a * b;
    assert j * (a' * b) == p * product by {
      assert j * (a' * b) == (j * a') * b;
      assert (p * a) * b == p * (a * b);
    }
    assert j * (a * b') == q * product by {
      assert j * (a * b') == a * (j * b');
      assert a * (q * b) == q * (a * b);
    }
    assert product >= 0;
    Scaled(p, q, product);
    Cancelled(j, a' * b, a * b');
  }

  lemma Scaled(p: int, q: int, x: int)
    requires p <= q && x >= 0
    ensures p * x <= q * x
  {
  }

  lemma Cancelled(j: int, x: int, y: int)
    requires j > 0 && j * x <= j * y
    ensures x <= y
  {
  }

  lemma {:induction false} MoreTrialsPassMore(n: nat, c: nat, k: nat, k': nat)
    requires ValidCounts(n, c, k) && ValidCounts(n, c, k') && k <= k'
    ensures Estimated(n, c, k) <= Estimated(n, c, k')
  {
    if k < k' {
      MoreTrialsPassMore(n, c, k, k' - 1);
      OneMoreTrial(n, c, k' - 1);
    }
  }
}
