/**
 The money-weighted return: Newton's iteration, then bisection on [-0.99, 10], for a given net-present-value
 function. Bisection is carried out in exact arithmetic.
 */
module InternalRate {
  import opened Common

  const TOLERANCE := 0.000000001
  const MAX_NEWTON := 100
  const SEED := 0.10
  const LOW := -0.99
  const HIGH := 10.0
  const MAX_HALVINGS := 200
  const MIN_WIDTH := 0.000000000001

  /** The values at the two ends do not have the same sign. */
  predicate SignChange(fLo: real, fHi: real) { !(fLo * fHi > 0.0) }

  /** The rate is a root up to the tolerance, or lies in a narrow bracket across which the value changes sign. */
  ghost predicate IsRoot(npv: real -> real, r: real) {
    || Abs(npv(r)) < 0.000000001
    || exists lo, hi :: Bracket(npv, lo, hi) && hi - lo < 0.000000000001 && lo < r < hi
  }

  predicate Bracket(npv: real -> real, lo: real, hi: real) {
    lo < hi && npv(lo) != 0.0 && SignChange(npv(lo), npv(hi))
  }

  function Halved(width: real, n: nat): real { if n == 0 then width else Halved(width, n - 1) / 2.0 }

  lemma {:induction false} HalvedIsQuotient(width: real, n: nat)
    ensures Pow2(n) > 0 && Halved(width, n) * Pow2(n) as real == width
  {
    if n > 0 {
      HalvedIsQuotient(width, n - 1);
      HalfTimesDouble(Halved(width, n - 1), Pow2(n - 1) as real, Halved(width, n), Pow2(n) as real);
    }
  }

  lemma HalfTimesDouble(x: real, p: real, h: real, d: real)
    requires h == x / 2.0 && d == 2.0 * p
    ensures h * d == x * p
  {
    assert x == 2.0 * h;
    assert x * p == (2.0 * h) * p == h * (2.0 * p);
  }

  /** 44 halvings of the bracket make it narrower than the stopping width, so the 45th round is the last. */
  lemma FortyFourHalvings()
    ensures Halved(HIGH - LOW, 44) < MIN_WIDTH
  {
    HalvedIsQuotient(HIGH - LOW, 44);
    assert Pow2(11) == 2048;
    assert Pow2(22) == 4194304 by { assert Pow2(16) == 65536; }
    assert Pow2(33) == 8589934592 by { assert Pow2(27) == 134217728; }
    assert Pow2(44) == 17592186044416 by { assert Pow2(38) == 274877906944; }
    var w := Halved(HIGH - LOW, 44);
    if w >= MIN_WIDTH {
      MulMono(17592186044416.0, MIN_WIDTH, w);
    }
  }

  /** The opposite end keeps its sign when the near end is replaced by a value of the same sign. */
  lemma SameSideKeepsSignChange(fLo: real, fMid: real, fHi: real)
    requires fLo != 0.0 && fMid != 0.0 && !(fLo * fMid < 0.0) && SignChange(fLo, fHi)
    ensures SignChange(fMid, fHi)
  {
    if fLo > 0.0 {
      if fMid < 0.0 { MulPositive(fLo, -fMid); }
      if fHi > 0.0 { MulPositive(fLo, fHi); }
      if fHi <= 0.0 { MulMono(fMid, fHi, 0.0); }
    } else {
      if fMid > 0.0 { MulPositive(-fLo, fMid); }
      if fHi < 0.0 { MulPositive(-fLo, -fHi); }
      if fHi >= 0.0 { MulMono(-fMid, -fHi, 0.0); }
    }
  }

  lemma NegativeProductIsSignChange(fLo: real, fMid: real)
    requires fLo * fMid < 0.0
    ensures SignChange(fLo, fMid)
  {}

  const MIDDLE := (LOW + HIGH) / 2.0

  /**
   What bisection needs beyond a bracket of different signs: the low end must not be an exact root, unless
   the first midpoint is one too or starts a good bracket.
   */
  predicate Bisectable(npv: real -> real) {
    && SignChange(npv(LOW), npv(HIGH))
    && (npv(LOW) != 0.0 || Abs(npv(MIDDLE)) < TOLERANCE || SignChange(npv(MIDDLE), npv(HIGH)))
  }

  predicate Opposite(a: real, b: real) { a * b < 0.0 }

  /** What at most n rounds of bisection answer from a bracket. */
  function BisectFrom(npv: real -> real, lo: real, hi: real, n: nat): Option<real>
    decreases n
  {
    var mid := (lo + hi) / 2.0;
    if n == 0 then None
    else if Abs(npv(mid)) < TOLERANCE || hi - lo < MIN_WIDTH then Some(mid)
    else if Opposite(npv(lo), npv(mid)) then BisectFrom(npv, lo, mid, n - 1)
    else BisectFrom(npv, mid, hi, n - 1)
  }

  function Bisection(npv: real -> real): Option<real> {
    if !SignChange(npv(LOW), npv(HIGH)) then None else BisectFrom(npv, LOW, HIGH, MAX_HALVINGS)
  }

  /** After `done` halvings bisection still answers, strictly inside the bracket it has. */
  lemma {:induction false} BisectFromAnswers(npv: real -> real, lo: real, hi: real, done: nat)
    requires done <= 44 && hi - lo == Halved(HIGH - LOW, done) && lo < hi
    ensures var r := BisectFrom(npv, lo, hi, MAX_HALVINGS - done);
      r.Some? && lo < r.value < hi
    decreases 44 - done
  {
    var mid := (lo + hi) / 2.0;
    if done == 44 {
      FortyFourHalvings();
    } else {
      BisectFromAnswers(npv, lo, mid, done + 1);
      BisectFromAnswers(npv, mid, hi, done + 1);
    }
  }

  /** From a bracket with a sign change and no root at its low end, what it answers is a root. */
  lemma {:induction false} BisectFromFindsRoot(npv: real -> real, lo: real, hi: real, done: nat)
    requires done <= 44 && hi - lo == Halved(HIGH - LOW, done) && Bracket(npv, lo, hi)
    ensures var r := BisectFrom(npv, lo, hi, MAX_HALVINGS - done);
      r.Some? && IsRoot(npv, r.value)
    decreases 44 - done
  {
    var mid := (lo + hi) / 2.0;
    if done == 44 {
      FortyFourHalvings();
    }
    if Abs(npv(mid)) >= TOLERANCE && hi - lo >= MIN_WIDTH {
      if npv(lo) * npv(mid) < 0.0 {
        NegativeProductIsSignChange(npv(lo), npv(mid));
        BisectFromFindsRoot(npv, lo, mid, done + 1);
      } else {
        SameSideKeepsSignChange(npv(lo), npv(mid), npv(hi));
        BisectFromFindsRoot(npv, mid, hi, done + 1);
      }
    }
  }

  /** Bisection answers for every bracket without a same-sign product; an exact low root sends it to the upper half. */
  lemma BisectionAnswers(npv: real -> real)
    requires SignChange(npv(LOW), npv(HIGH))
    ensures Bisection(npv).Some? && LOW < Bisection(npv).value < HIGH
    ensures npv(LOW) == 0.0 ==> MIDDLE <= Bisection(npv).value
  {
    BisectFromAnswers(npv, LOW, HIGH, 0);
    BisectFromAnswers(npv, MIDDLE, HIGH, 1);
  }

  lemma BisectionFindsRoot(npv: real -> real)
    requires Bisectable(npv)
    ensures Bisection(npv).Some? && IsRoot(npv, Bisection(npv).value)
  {
    if npv(LOW) != 0.0 {
      BisectFromFindsRoot(npv, LOW, HIGH, 0);
    } else if Abs(npv(MIDDLE)) >= TOLERANCE {
      BisectFromFindsRoot(npv, MIDDLE, HIGH, 1);
    }
  }

  lemma BisectionStarts(npv: real -> real)
    requires SignChange(npv(LOW), npv(HIGH))
    ensures BisectFrom(npv, LOW, HIGH, MAX_HALVINGS) == Bisection(npv) && Halved(HIGH - LOW, 0) == HIGH - LOW
  {}

  /** One round of bisection. */
  lemma BisectionStep(npv: real -> real, lo: real, hi: real, done: nat)
    requires done <= 44 && hi - lo == Halved(HIGH - LOW, done)
    ensures var mid := (lo + hi) / 2.0;
      var r := BisectFrom(npv, lo, hi, MAX_HALVINGS - done);
      if Abs(npv(mid)) < TOLERANCE || hi - lo < MIN_WIDTH then r == Some(mid)
      else
        && done < 44 && mid - lo == hi - mid == Halved(HIGH - LOW, done + 1)
        && r == if Opposite(npv(lo), npv(mid)) then BisectFrom(npv, lo, mid, MAX_HALVINGS - (done + 1))
                else BisectFrom(npv, mid, hi, MAX_HALVINGS - (done + 1))
  {
    hide Opposite;
    if done == 44 {
      FortyFourHalvings();
    }
  }

  /**
   Bisection. The bracket halves every round, so an answer is returned within 45 of the 200 rounds: the exit
   after the loop is never taken.
   */
  method Bisect(npv: real -> real) returns (r: Option<real>, rounds: nat)
    ensures r == Bisection(npv)
    ensures r == None <==> !SignChange(npv(-0.99), npv(10.0))
    ensures Bisectable(npv) ==> r.Some? && IsRoot(npv, r.value)
    ensures rounds <= 45 && (r.Some? <==> rounds > 0)
    ensures r.Some? ==> -0.99 < r.value < 10.0
  {
    hide IsRoot, BisectFrom, Opposite, Halved, SignChange, Abs;
    var lo, hi := LOW, HIGH;
    var fLo := npv(lo);
    var fHi := npv(hi);
    if !SignChange(fLo, fHi) {
      return None, 0;
    }
    BisectionAnswers(npv);
    if Bisectable(npv) {
      BisectionFindsRoot(npv);
    }
    BisectionStarts(npv);
    rounds := 0;
    while rounds < MAX_HALVINGS
      invariant LOW <= lo < hi <= HIGH && hi - lo == Halved(HIGH - LOW, rounds) && rounds <= 44
      invariant fLo == npv(lo)
      invariant BisectFrom(npv, lo, hi, MAX_HALVINGS - rounds) == Bisection(npv)
      decreases MAX_HALVINGS - rounds
    {
      var mid := (lo + hi) / 2.0;
      var fMid := npv(mid);
      BisectionStep(npv, lo, hi, rounds);
      if Abs(fMid) < TOLERANCE || hi - lo < MIN_WIDTH {
        return Some(mid), rounds + 1;
      }
      if Opposite(fLo, fMid) {
        hi := mid;
      } else {
        lo := mid;
        fLo := fMid;
      }
      rounds := rounds + 1;
    }
    r := None;
  }

  // ---- exactly when the answer is a root ----

  /** The value falls as the rate rises, as it does for an outlay followed by receipts (ReceiptsFall). */
  ghost predicate Falling(npv: real -> real) {
    forall a, b | -1.0 < a < b :: npv(a) > npv(b)
  }

  lemma ReciprocalFalls(a: real, b: real)
    requires 0.0 < a < b
    ensures 1.0 / a > 1.0 / b
  {
    DivMul(1.0, a);
    DivMul(1.0, b);
    var x, y := 1.0 / a, 1.0 / b;
    if x <= y {
      MulMono(a, x, y);
      if y > 0.0 { MulStrict(y, a, b); } else { MulMono(b, y, 0.0); }
    }
  }

  /** What the code needs of `x ** (days / 365)`: at day zero it is one, later it grows with a positive x. */
  ghost predicate GrowsLikePower(pow: (real, nat) -> real) {
    && (forall x | x > 0.0 :: pow(x, 0) == 1.0)
    && (forall x, d | x > 0.0 :: pow(x, d) > 0.0)
    && (forall x, y, d | 0.0 < x < y && d > 0 :: pow(x, d) < pow(y, d))
  }

  /** A flow and its days since the reference date. */
  datatype Dated = Dated(days: nat, amount: real)

  /** The net present value: Σ amount / (1 + r) ** (days / 365). */
  ghost function Discounted(flows: seq<Dated>, pow: (real, nat) -> real, r: real): real
    requires GrowsLikePower(pow) && r > -1.0
  {
    if flows == [] then 0.0
    else
      var f := flows[|flows| - 1];
      Discounted(flows[..|flows| - 1], pow, r) + f.amount / pow(1.0 + r, f.days)
  }

  /** Whatever is paid or received on the reference date, later there are only receipts. */
  predicate ReceiptsLater(flows: seq<Dated>) {
    forall f | f in flows :: f.days > 0 ==> f.amount >= 0.0
  }

  predicate SomeReceipt(flows: seq<Dated>) { exists f :: f in flows && f.days > 0 && f.amount > 0.0 }

  lemma QuotientFalls(amount: real, p: real, q: real)
    requires amount >= 0.0 && 0.0 < p < q
    ensures amount / p >= amount / q && (amount > 0.0 ==> amount / p > amount / q)
  {
    ReciprocalFalls(p, q);
    MulMono(amount, 1.0 / q, 1.0 / p);
    if amount > 0.0 { MulStrict(amount, 1.0 / q, 1.0 / p); }
    TimesReciprocal(amount, p);
    TimesReciprocal(amount, q);
  }

  lemma TimesReciprocal(amount: real, p: real)
    requires p > 0.0
    ensures amount / p == amount * (1.0 / p)
  {}

  lemma FlowFalls(f: Dated, pow: (real, nat) -> real, a: real, b: real)
    requires GrowsLikePower(pow) && -1.0 < a < b && (f.days > 0 ==> f.amount >= 0.0)
    ensures f.amount / pow(1.0 + a, f.days) >= f.amount / pow(1.0 + b, f.days)
    ensures f.days > 0 && f.amount > 0.0 ==> f.amount / pow(1.0 + a, f.days) > f.amount / pow(1.0 + b, f.days)
  {
    if f.days > 0 {
      QuotientFalls(f.amount, pow(1.0 + a, f.days), pow(1.0 + b, f.days));
    }
  }

  lemma {:induction false} DiscountedFalls(flows: seq<Dated>, pow: (real, nat) -> real, a: real, b: real)
    requires GrowsLikePower(pow) && ReceiptsLater(flows) && -1.0 < a < b
    ensures Discounted(flows, pow, a) >= Discounted(flows, pow, b)
    ensures SomeReceipt(flows) ==> Discounted(flows, pow, a) > Discounted(flows, pow, b)
  {
    if flows != [] {
      var init, last := flows[..|flows| - 1], flows[|flows| - 1];
      assert flows == init + [last];
      assert last in flows;
      assert forall f | f in init :: f in flows;
      DiscountedFalls(init, pow, a, b);
      FlowFalls(last, pow, a, b);
      hide GrowsLikePower;
    }
  }

  /** Amounts on the reference date followed by receipts: the value falls as the rate rises. */
  lemma {:induction false} ReceiptsFall(flows: seq<Dated>, pow: (real, nat) -> real, npv: real -> real)
    requires GrowsLikePower(pow) && ReceiptsLater(flows) && SomeReceipt(flows)
    requires forall r | r > -1.0 :: npv(r) == Discounted(flows, pow, r)
    ensures Falling(npv)
  {
    hide GrowsLikePower, Discounted;
    forall a, b | -1.0 < a < b ensures npv(a) > npv(b) {
      DiscountedFalls(flows, pow, a, b);
    }
  }

  function Times(x: real, p: real): real { x * p }

  function Power(x: real, n: nat): real { if n == 0 then 1.0 else Times(x, Power(x, n - 1)) }

  lemma ProductGrows(x: real, y: real, p: real, q: real)
    requires 0.0 < x < y && 0.0 < p <= q
    ensures 0.0 < Times(x, p) < Times(y, q)
  {
    MulPositive(x, p);
    MulMono(x, p, q);
    MulStrict(q, x, y);
  }

  lemma {:induction false} PowerGrows(x: real, y: real, n: nat)
    requires 0.0 < x < y
    ensures 0.0 < Power(x, n) <= Power(y, n) && (n > 0 ==> Power(x, n) < Power(y, n))
  {
    hide Times;
    if n > 0 {
      PowerGrows(x, y, n - 1);
      ProductGrows(x, y, Power(x, n - 1), Power(y, n - 1));
    }
  }

  /** At whole years the power is repeated multiplication, which grows as required. */
  lemma WholeYearsGrow()
    ensures GrowsLikePower(Power)
  {
    forall x, d: nat | x > 0.0 ensures Power(x, d) > 0.0 {
      PowerGrows(x, x + 1.0, d);
    }
    forall x, y, d: nat | 0.0 < x < y && d > 0 ensures Power(x, d) < Power(y, d) {
      PowerGrows(x, y, d);
    }
  }

  /** For a falling value, what bisection answers is a root if and only if its starting bracket can be handled. */
  lemma BisectionRootIff(npv: real -> real)
    requires Falling(npv) && SignChange(npv(LOW), npv(HIGH))
    ensures Bisection(npv).Some?
    ensures IsRoot(npv, Bisection(npv).value) <==> Bisectable(npv)
    ensures Bisectable(npv) <==> npv(LOW) != 0.0 || Abs(npv(MIDDLE)) < TOLERANCE
  {
    BisectionAnswers(npv);
    assert npv(LOW) > npv(MIDDLE) > npv(HIGH);
    if npv(LOW) == 0.0 {
      MulPositive(-npv(MIDDLE), -npv(HIGH));
    }
    if Bisectable(npv) {
      BisectionFindsRoot(npv);
    } else {
      NoRootAbove(npv, Bisection(npv).value);
    }
  }

  /** Above an exact root at the low end a falling value has no second one. */
  lemma NoRootAbove(npv: real -> real, r: real)
    requires Falling(npv) && npv(LOW) == 0.0 && Abs(npv(MIDDLE)) >= TOLERANCE && MIDDLE <= r < HIGH
    ensures !IsRoot(npv, r)
  {
    assert npv(LOW) > npv(MIDDLE);
    assert MIDDLE < r ==> npv(MIDDLE) > npv(r);
    forall lo, hi | lo < hi && npv(lo) != 0.0 && hi - lo < MIN_WIDTH && lo < r < hi ensures !Bracket(npv, lo, hi) {
      assert npv(LOW) > npv(lo) > npv(hi);
      MulPositive(-npv(lo), -npv(hi));
    }
  }

  /** What at most n steps of Newton's iteration answer from a rate. */
  function NewtonFrom(npv: real -> real, dnpv: real -> real, x: real, n: nat): Option<real>
    decreases n
  {
    if n == 0 then None
    else if Abs(npv(x)) < TOLERANCE then Some(x)
    else if dnpv(x) == 0.0 then None
    else
      var next := x - npv(x) / dnpv(x);
      if next <= -0.999 then None else NewtonFrom(npv, dnpv, next, n - 1)
  }

  /** Newton's iteration from the seed; it succeeds only on a value within the tolerance. */
  method Newton(npv: real -> real, dnpv: real -> real) returns (r: Option<real>)
    ensures r == NewtonFrom(npv, dnpv, 0.10, 100)
    ensures r.Some? ==> Abs(npv(r.value)) < 0.000000001 && r.value > -0.999
  {
    var x := SEED;
    var i := 0;
    hide NewtonFrom;
    while i < MAX_NEWTON
      invariant 0 <= i <= MAX_NEWTON && x > -0.999
      invariant NewtonFrom(npv, dnpv, x, MAX_NEWTON - i) == NewtonFrom(npv, dnpv, SEED, MAX_NEWTON)
    {
      var f := npv(x);
      NewtonRound(npv, dnpv, x, MAX_NEWTON - i);
      if Abs(f) < TOLERANCE {
        return Some(x);
      }
      var df := dnpv(x);
      if df == 0.0 {
        return None;
      }
      var next := x - f / df;
      if next <= -0.999 {
        return None;
      }
      x := next;
      i := i + 1;
    }
    NewtonGivesUp(npv, dnpv, x);
    r := None;
  }

  lemma NewtonRound(npv: real -> real, dnpv: real -> real, x: real, n: nat)
    requires n > 0
    ensures Abs(npv(x)) < TOLERANCE ==> NewtonFrom(npv, dnpv, x, n) == Some(x)
    ensures Abs(npv(x)) >= TOLERANCE && dnpv(x) == 0.0 ==> NewtonFrom(npv, dnpv, x, n) == None
    ensures Abs(npv(x)) >= TOLERANCE && dnpv(x) != 0.0 ==>
      var next := x - npv(x) / dnpv(x);
      NewtonFrom(npv, dnpv, x, n) == if next <= -0.999 then None else NewtonFrom(npv, dnpv, next, n - 1)
  {}

  lemma {:induction false} NewtonGivesUp(npv: real -> real, dnpv: real -> real, x: real)
    ensures NewtonFrom(npv, dnpv, x, 0) == None
  {}

  predicate MixedSigns(amounts: seq<real>) {
    && (exists k :: 0 <= k < |amounts| && amounts[k] > 0.0)
    && (exists k :: 0 <= k < |amounts| && amounts[k] < 0.0)
  }

  /** Newton first, bisection when Newton fails. */
  function Mwr(amounts: seq<real>, npv: real -> real, dnpv: real -> real): Option<real> {
    var newton := NewtonFrom(npv, dnpv, SEED, MAX_NEWTON);
    if !MixedSigns(amounts) then None else if newton.Some? then newton else Bisection(npv)
  }

  /**
   The money-weighted return of dated amounts whose net present value is `npv`. Flows of one sign have none;
   otherwise it fails only when Newton does and the bracket shows one sign, and what it returns is a root
   whenever the bracket is one that bisection can handle.
   */
  method ComputeMwr(amounts: seq<real>, npv: real -> real, dnpv: real -> real) returns (r: Option<real>)
    ensures r == Mwr(amounts, npv, dnpv)
    ensures r.Some? && Bisectable(npv) ==> IsRoot(npv, r.value)
    ensures r == None ==> !MixedSigns(amounts) || !SignChange(npv(LOW), npv(HIGH))
  {
    var pos, neg := false, false;
    for i := 0 to |amounts|
      invariant pos <==> exists k :: 0 <= k < i && amounts[k] > 0.0
      invariant neg <==> exists k :: 0 <= k < i && amounts[k] < 0.0
    {
      pos := pos || amounts[i] > 0.0;
      neg := neg || amounts[i] < 0.0;
    }
    if !(pos && neg) {
      return None;
    }
    r := Newton(npv, dnpv);
    if r == None {
      var rounds;
      r, rounds := Bisect(npv);
    }
  }

  /**
   For a falling value, the rate returned is a root if and only if Newton succeeds, the low end is no exact
   root, or the middle is one.
   */
  lemma MwrRootIff(amounts: seq<real>, npv: real -> real, dnpv: real -> real)
    requires Falling(npv) && MixedSigns(amounts) && SignChange(npv(LOW), npv(HIGH))
    ensures Mwr(amounts, npv, dnpv).Some?
    ensures IsRoot(npv, Mwr(amounts, npv, dnpv).value)
      <==> (NewtonFrom(npv, dnpv, SEED, MAX_NEWTON).Some? || npv(LOW) != 0.0 || Abs(npv(MIDDLE)) < TOLERANCE)
  {
    NewtonIsRoot(npv, dnpv, SEED, MAX_NEWTON);
    BisectionRootIff(npv);
    hide NewtonFrom, Bisection, Bisectable, Falling;
  }

  lemma {:induction false} NewtonIsRoot(npv: real -> real, dnpv: real -> real, x: real, n: nat)
    ensures NewtonFrom(npv, dnpv, x, n).Some? ==> Abs(npv(NewtonFrom(npv, dnpv, x, n).value)) < TOLERANCE
    decreases n
  {
    if n > 0 && dnpv(x) != 0.0 {
      NewtonIsRoot(npv, dnpv, x - npv(x) / dnpv(x), n - 1);
    }
  }

  // ---- a loss of 99 % in a year ----

  /** Pay 100 and hold something worth 1 a year later: the value of these flows, and its slope, for rates above -1. */
  ghost predicate NinetyNineLost(npv: real -> real, dnpv: real -> real) {
    forall r | r > -1.0 :: npv(r) == -100.0 + 1.0 / (1.0 + r) && dnpv(r) == -1.0 / ((1.0 + r) * (1.0 + r))
  }

  lemma LossIsFalling(npv: real -> real, dnpv: real -> real)
    requires NinetyNineLost(npv, dnpv)
    ensures Falling(npv)
  {
    forall a, b | -1.0 < a < b ensures npv(a) > npv(b) {
      ReciprocalFalls(1.0 + a, 1.0 + b);
    }
  }

  /** Newton's first step from the seed leaves the domain, to about -119.8. */
  lemma LossDefeatsNewton(npv: real -> real, dnpv: real -> real)
    requires NinetyNineLost(npv, dnpv)
    ensures NewtonFrom(npv, dnpv, SEED, MAX_NEWTON) == None
  {
    assert npv(SEED) == -100.0 + 1.0 / 1.1;
    assert dnpv(SEED) == -1.0 / 1.21;
    assert npv(SEED) / dnpv(SEED) == 119.9;
  }

  /**
   The rate of these flows is exactly -0.99, the low end of the bracket. Newton fails on them, bisection goes to
   the upper half, and the rate returned is at least 4.505 and no root.
   */
  lemma MwrLosesExactLowRoot(npv: real -> real, dnpv: real -> real)
    requires NinetyNineLost(npv, dnpv)
    ensures npv(LOW) == 0.0 && !Bisectable(npv)
    ensures var r := Mwr([-100.0, 1.0], npv, dnpv);
      r.Some? && MIDDLE <= r.value < HIGH && !IsRoot(npv, r.value)
  {
    var amounts := [-100.0, 1.0];
    assert amounts[0] < 0.0 && amounts[1] > 0.0;
    LossIsFalling(npv, dnpv);
    LossDefeatsNewton(npv, dnpv);
    assert npv(LOW) == 0.0;
    assert npv(MIDDLE) < -1.0;
    hide NewtonFrom, Falling;
    BisectionAnswers(npv);
    BisectionRootIff(npv);
    MwrRootIff(amounts, npv, dnpv);
  }
}
