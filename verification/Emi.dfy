/** The EMI formula of utils/formatting.py, and what it is for: a loan amortised
    at that instalment is paid off exactly at the end of its tenure. Amounts are
    in paise; rates are real numbers. */
module Emi {

  function Pow(x: real, n: nat): real {
    if n == 0 then 1.0 else x * Pow(x, n - 1)
  }

  function Abs(x: real): real {
    if x < 0.0 then -x else x
  }

  /** Python's `round` to whole paise: nearest, ties to the even neighbour. */
  function RoundPaise(x: real): (n: int)
    ensures Abs(n as real - x) <= 0.5
    ensures Abs(n as real - x) == 0.5 ==> n % 2 == 0
  {
    var low := x.Floor;
    var rest := x - low as real;
    if rest < 0.5 || (rest == 0.5 && low % 2 == 0) then low else low + 1
  }

  function MonthlyRate(annualRate: real): real {
    annualRate / 12.0 / 100.0
  }

  lemma MulMono(a: real, b: real, c: real)
    requires a <= b && c >= 0.0
    ensures a * c <= b * c
  {
  }

  lemma MulStrict(a: real, b: real, c: real)
    requires a < b && c > 0.0
    ensures a * c < b * c
  {
  }

  lemma {:induction false} PowAboveOne(r: real, n: nat)
    requires r > 0.0
    ensures Pow(1.0 + r, n) >= 1.0 + n as real * r
    ensures n as real * r >= 0.0
  {
    if n != 0 {
      PowAboveOne(r, n - 1);
      var q, m := Pow(1.0 + r, n - 1), (n - 1) as real;
      MulMono(1.0, q, r);
      assert Pow(1.0 + r, n) == (1.0 + r) * q == q + q * r;
      assert n as real * r == (m + 1.0) * r == m * r + r;
    }
  }

  /** The closed form before rounding. */
  function ExactEmi(principal: real, r: real, n: nat): real
    requires r > 0.0 && n >= 1
  {
    PowAboveOne(r, n);
    var growth := Pow(1.0 + r, n);
    assert n as real * r > 0.0;
    principal * r * growth / (growth - 1.0)
  }

  function CalculateEmi(principal: int, annualRate: real, tenure: int): int {
    if principal <= 0 || annualRate <= 0.0 || tenure <= 0 then 0
    else RoundPaise(ExactEmi(principal as real, MonthlyRate(annualRate), tenure))
  }

  /** What is owed after k months at monthly rate r when x is paid each month. */
  function Owed(principal: real, r: real, x: real, k: nat): real {
    if k == 0 then principal else Owed(principal, r, x, k - 1) * (1.0 + r) - x
  }

  /** The closed form of the debt o once the growth factor has reached q. */
  predicate ClosedForm(o: real, principal: real, r: real, x: real, q: real) {
    o * r == principal * r * q - x * (q - 1.0)
  }

  lemma {:induction false} OwedClosedForm(principal: real, r: real, x: real, k: nat)
    requires r > 0.0
    ensures ClosedForm(Owed(principal, r, x, k), principal, r, x, Pow(1.0 + r, k))
  {
    if k == 0 {
    } else {
      hide ClosedForm;
      OwedClosedForm(principal, r, x, k - 1);
      OneMonth(Owed(principal, r, x, k - 1), principal, r, x, Pow(1.0 + r, k - 1));
    }
  }

  lemma OneMonth(o: real, principal: real, r: real, x: real, q: real)
    requires ClosedForm(o, principal, r, x, q)
    ensures ClosedForm(o * (1.0 + r) - x, principal, r, x, (1.0 + r) * q)
  {
    var z, pr := o * r, principal * r;
    assert (o * (1.0 + r) - x) * r == z + z * r - x * r;
    assert z * r == (pr * q) * r - (x * (q - 1.0)) * r;
    assert (x * (q - 1.0)) * r == x * (q * r) - x * r;
    assert (pr * q) * r == pr * (q * r);
    assert (1.0 + r) * q == q + q * r;
    assert pr * (q + q * r) == pr * q + pr * (q * r);
    assert x * (q + q * r - 1.0) == x * (q - 1.0) + x * (q * r);
  }

  lemma Divide(o: real, r: real, d: real, w: real)
    requires r > 0.0 && o * r == d * w
    ensures o == d * (w / r)
  {
    var v := w / r;
    assert w == v * r;
    assert d * (v * r) == (d * v) * r;
    assert (o - d * v) * r == 0.0;
  }

  /** Paying any instalment other than the exact EMI misses zero by its error, compounded. */
  lemma OwedAtEnd(principal: real, r: real, x: real, n: nat)
    requires r > 0.0 && n >= 1
    ensures Pow(1.0 + r, n) > 1.0
    ensures Owed(principal, r, x, n) == (ExactEmi(principal, r, n) - x) * ((Pow(1.0 + r, n) - 1.0) / r)
  {
    OwedClosedForm(principal, r, x, n);
    EmiTimesGrowth(principal, r, n);
    var q, e := Pow(1.0 + r, n), ExactEmi(principal, r, n);
    assert (e - x) * (q - 1.0) == e * (q - 1.0) - x * (q - 1.0);
    Divide(Owed(principal, r, x, n), r, e - x, q - 1.0);
  }

  lemma EmiTimesGrowth(principal: real, r: real, n: nat)
    requires r > 0.0 && n >= 1
    ensures Pow(1.0 + r, n) > 1.0
    ensures ExactEmi(principal, r, n) * (Pow(1.0 + r, n) - 1.0) == principal * r * Pow(1.0 + r, n)
  {
    PowAboveOne(r, n);
    MulMono(1.0, n as real, r);
  }

  /** The unrounded EMI is the one instalment that amortises the loan to zero. */
  lemma EmiAmortises(principal: real, r: real, x: real, n: nat)
    requires r > 0.0 && n >= 1
    ensures Owed(principal, r, x, n) == 0.0 <==> x == ExactEmi(principal, r, n)
  {
    OwedAtEnd(principal, r, x, n);
    assert (Pow(1.0 + r, n) - 1.0) / r > 0.0;
  }

  /** Twelve months to the year, a hundred to the percent. */
  lemma MonthsAndPercent(annualRate: real)
    ensures MonthlyRate(annualRate) == annualRate / 1200.0
  {
  }

  /** The rounded EMI leaves at most half a paisa per month, compounded, when the debt
      grows by a twelve-hundredth of the annual rate in percent each month. */
  lemma RoundedEmiResidue(principal: int, annualRate: real, tenure: int)
    requires principal > 0 && annualRate > 0.0 && tenure > 0
    ensures var r := annualRate / 1200.0;
            && r > 0.0
            && Abs(Owed(principal as real, r, CalculateEmi(principal, annualRate, tenure) as real, tenure))
               <= 0.5 * ((Pow(1.0 + r, tenure) - 1.0) / r)
  {
    MonthsAndPercent(annualRate);
    var r, x := annualRate / 1200.0, CalculateEmi(principal, annualRate, tenure);
    var e := ExactEmi(principal as real, r, tenure);
    assert Abs(x as real - e) <= 0.5;
    RoundedResidue(principal as real, r, tenure, x as real);
  }

  lemma RoundedResidue(principal: real, r: real, n: nat, x: real)
    requires r > 0.0 && n >= 1 && Abs(x - ExactEmi(principal, r, n)) <= 0.5
    ensures Abs(Owed(principal, r, x, n)) <= 0.5 * ((Pow(1.0 + r, n) - 1.0) / r)
  {
    OwedAtEnd(principal, r, x, n);
    var d, w := ExactEmi(principal, r, n) - x, (Pow(1.0 + r, n) - 1.0) / r;
    ScaledBound(d, w);
    assert Owed(principal, r, x, n) == d * w;
  }

  lemma ScaledBound(d: real, w: real)
    requires w > 0.0 && Abs(d) <= 0.5
    ensures Abs(d * w) <= 0.5 * w
  {
    if d < 0.0 {
      assert (-d) * w <= 0.5 * w;
    } else {
      assert d * w <= 0.5 * w;
    }
  }

  lemma {:induction false} PowPositive(r: real, n: nat)
    requires r > 0.0
    ensures Pow(1.0 + r, n) > 0.0
  {
    if n != 0 {
      PowPositive(r, n - 1);
    }
  }

  /** (1+r)^n - 1 <= n r (1+r)^(n-1), multiplied through by 1+r. */
  lemma {:induction false} GrowthBound(r: real, n: nat)
    requires r > 0.0 && n >= 1
    ensures (Pow(1.0 + r, n) - 1.0) * (1.0 + r) <= n as real * r * Pow(1.0 + r, n)
  {
    if n == 1 {
      assert Pow(1.0 + r, 1) == (1.0 + r) * Pow(1.0 + r, 0) == 1.0 + r;
    } else {
      GrowthBound(r, n - 1);
      PowAboveOne(r, n - 1);
      var p, m := Pow(1.0 + r, n - 1), (n - 1) as real;
      assert m * r >= 0.0;
      assert p >= 1.0;
      var q := (1.0 + r) * p;
      assert q == Pow(1.0 + r, n);
      assert n as real == m + 1.0;
      calc {
        (q - 1.0) * (1.0 + r);
        ((p - 1.0) * (1.0 + r) + r) * (1.0 + r);
        <= { MulMono((p - 1.0) * (1.0 + r), m * r * p, 1.0 + r); }
        (m * r * p + r) * (1.0 + r);
        m * r * q + r * (1.0 + r);
        <= { MulMono(1.0, p, r * (1.0 + r)); }
        m * r * q + p * (r * (1.0 + r));
        m * r * q + r * q;
        (m + 1.0) * r * q;
      }
    }
  }

  /** Over the whole tenure the exact instalments bring in the principal and at
      least the first month's interest. */
  lemma TotalPaid(principal: real, r: real, n: nat)
    requires principal > 0.0 && r > 0.0 && n >= 1
    ensures n as real * ExactEmi(principal, r, n) >= principal + principal * r
  {
    GrowthBound(r, n);
    EmiTimesGrowth(principal, r, n);
    TotalPaidAlgebra(principal, r, n as real, Pow(1.0 + r, n), ExactEmi(principal, r, n));
  }

  lemma TotalPaidAlgebra(principal: real, r: real, m: real, q: real, e: real)
    requires principal > 0.0 && q > 1.0
    requires e * (q - 1.0) == principal * r * q
    requires (q - 1.0) * (1.0 + r) <= m * r * q
    ensures m * e >= principal + principal * r
  {
    var x, y := (q - 1.0) * (1.0 + r), m * r * q;
    MulMono(x, y, principal);
    assert (principal + principal * r) * (q - 1.0) == x * principal by {
      FactorOut(principal, r, q - 1.0);
    }
    assert (m * e) * (q - 1.0) == y * principal by {
      Regroup(m, e, q - 1.0, principal, r, q);
    }
    Cancel(principal + principal * r, m * e, q - 1.0);
  }

  lemma FactorOut(p: real, r: real, d: real)
    ensures (p + p * r) * d == (d * (1.0 + r)) * p
  {
    assert p + p * r == p * (1.0 + r);
  }

  lemma Regroup(m: real, e: real, d: real, p: real, r: real, q: real)
    requires e * d == p * r * q
    ensures (m * e) * d == (m * r * q) * p
  {
    assert (m * e) * d == m * (e * d);
    assert m * (p * r * q) == (m * r * q) * p;
  }

  lemma Cancel(a: real, b: real, c: real)
    requires c > 0.0 && a * c <= b * c
    ensures a <= b
  {
    if a > b {
      MulStrict(b, a, c);
    }
  }

  /** Whenever the first month's interest is worth at least half a paisa in each
      of n instalments, the rounded instalments still cover the principal. */
  lemma RoundedEmiCovers(principal: int, annualRate: real, tenure: int)
    requires principal > 0 && annualRate > 0.0 && tenure > 0
    requires principal as real * (annualRate / 1200.0) >= 0.5 * tenure as real
    ensures CalculateEmi(principal, annualRate, tenure) * tenure >= principal
    ensures CalculateEmi(principal, annualRate, tenure) > 0
  {
    MonthsAndPercent(annualRate);
    var r, n := annualRate / 1200.0, tenure as real;
    var e, x := ExactEmi(principal as real, r, tenure), CalculateEmi(principal, annualRate, tenure);
    assert Abs(x as real - e) <= 0.5;
    TotalPaid(principal as real, r, tenure);
    RoundedTotal(principal, principal as real * r, e, x, tenure);
  }

  lemma RoundedTotal(principal: int, interest: real, e: real, x: int, n: int)
    requires principal > 0 && n > 0 && x as real >= e - 0.5
    requires n as real * e >= principal as real + interest && interest >= 0.5 * n as real
    ensures x * n >= principal && x > 0
  {
    MulMono(e - 0.5, x as real, n as real);
    assert (x * n) as real >= principal as real;
    if x < 1 {
      NonPositiveProduct(x, n);
    }
  }

  lemma NonPositiveProduct(x: int, n: int)
    requires x <= 0 && n > 0
    ensures x * n <= 0
  {
  }

  /** Over the whole tenure the exact instalments cost at most the principal and every
      month's interest on all of it. */
  lemma CostsAtMost(principal: real, r: real, n: nat)
    requires principal > 0.0 && r > 0.0 && n >= 1
    ensures n as real * ExactEmi(principal, r, n) <= principal + principal * r * n as real
  {
    PowAboveOne(r, n);
    EmiTimesGrowth(principal, r, n);
    CostAlgebra(principal, r, n as real, Pow(1.0 + r, n), ExactEmi(principal, r, n));
  }

  lemma CostAlgebra(p: real, r: real, m: real, q: real, e: real)
    requires p > 0.0 && r > 0.0 && q > 1.0 && q >= 1.0 + m * r
    requires e * (q - 1.0) == p * r * q
    ensures m * e <= p + p * r * m
  {
    var d := q - 1.0;
    assert (m * e) * d == m * (e * d) == m * (p * r * q) == (p * r * m) * q;
    assert (p + p * r * m) * d == p * d + (p * r * m) * d;
    assert (p * r * m) * q == (p * r * m) * d + p * r * m;
    assert p * r * m == p * (m * r);
    MulMono(m * r, d, p);
    assert p * (m * r) == (m * r) * p && p * d == d * p;
    Cancel(m * e, p + p * r * m, d);
  }

  /** A product under a name, so that bounds on sums of products stay linear. */
  function Times(a: real, b: real): real {
    a * b
  }

  lemma Substitute(a: real, b: real, c: real)
    requires a <= b && b == c
    ensures a <= c
  {
  }

  lemma AtMostHalfMore(y: real, e: real, m: real)
    requires y <= e + 0.5 && m > 0.0
    ensures Times(y, m) <= Times(e, m) + Times(0.5, m)
  {
    MulMono(y, e + 0.5, m);
    HalfMore(e, m);
    Substitute(y * m, (e + 0.5) * m, e * m + 0.5 * m);
  }

  lemma HalfMore(e: real, m: real)
    ensures (e + 0.5) * m == e * m + 0.5 * m
  {
  }

  /** What n instalments come to, given the interest of one month on the whole principal. */
  predicate CostsBetween(paid: real, principal: real, interest: real, n: real) {
    && principal + interest - Times(0.5, n) <= paid
    && paid <= principal + Times(interest, n) + Times(0.5, n)
  }

  lemma RoundedCost(p: real, interest: real, e: real, y: real, m: real)
    requires m > 0.0 && e - 0.5 <= y <= e + 0.5
    requires p + interest <= Times(e, m) <= p + Times(interest, m)
    ensures CostsBetween(Times(y, m), p, interest, m)
  {
    hide Times;
    AtMostHalfMore(y, e, m);
    AtMostHalfMore(e, y, m);
  }

  lemma CalculatedIsNear(principal: int, annualRate: real, tenure: int)
    requires principal > 0 && annualRate > 0.0 && tenure > 0 && MonthlyRate(annualRate) > 0.0
    ensures var x, e := CalculateEmi(principal, annualRate, tenure) as real,
                        ExactEmi(principal as real, MonthlyRate(annualRate), tenure);
            e - 0.5 <= x <= e + 0.5
  {
    hide ExactEmi, MonthlyRate;
  }

  /** The two bounds on the exact cost, with their products named. */
  lemma ExactCost(p: real, r: real, n: nat)
    requires p > 0.0 && r > 0.0 && n >= 1
    ensures p + Times(p, r) <= Times(ExactEmi(p, r, n), n as real) <= p + Times(Times(p, r), n as real)
  {
    TotalPaid(p, r, n);
    CostsAtMost(p, r, n);
    hide ExactEmi;
    assert n as real * ExactEmi(p, r, n) == ExactEmi(p, r, n) * n as real;
  }

  lemma TotalCostAtRate(principal: int, annualRate: real, tenure: int, r: real)
    requires principal > 0 && annualRate > 0.0 && tenure > 0 && r == MonthlyRate(annualRate) && r > 0.0
    ensures CostsBetween(Times(CalculateEmi(principal, annualRate, tenure) as real, tenure as real),
                         principal as real, Times(principal as real, r), tenure as real)
  {
    hide CalculateEmi, ExactEmi, MonthlyRate, CostsBetween, Times;
    CalculatedIsNear(principal, annualRate, tenure);
    ExactCost(principal as real, r, tenure);
    RoundedCost(principal as real, Times(principal as real, r), ExactEmi(principal as real, r, tenure),
                CalculateEmi(principal, annualRate, tenure) as real, tenure as real);
  }

  lemma Unfold(paid: real, p: real, r: real, n: real)
    requires CostsBetween(paid, p, Times(p, r), n)
    ensures p + p * r - 0.5 * n <= paid
    ensures paid <= p + p * r * n + 0.5 * n
  {
  }

  /** What a borrower pays in all, from below and from above, the annual rate written out. */
  lemma TotalCost(principal: int, annualRate: real, tenure: int)
    requires principal > 0 && annualRate > 0.0 && tenure > 0
    ensures var paid := (CalculateEmi(principal, annualRate, tenure) * tenure) as real;
            var p, n := principal as real, tenure as real;
            && p + p * (annualRate / 1200.0) - 0.5 * n <= paid
            && paid <= p + p * (annualRate / 1200.0) * n + 0.5 * n
  {
    var r, x := annualRate / 1200.0, CalculateEmi(principal, annualRate, tenure);
    MonthsAndPercent(annualRate);
    hide CalculateEmi, MonthlyRate, CostsBetween;
    TotalCostAtRate(principal, annualRate, tenure, r);
    assert Times(x as real, tenure as real) == (x * tenure) as real;
    hide Times;
    Unfold((x * tenure) as real, principal as real, r, tenure as real);
  }
}
