/** How far the bucket of unrealized interest may run ahead of what the borrowers owe. */
module LedgerBucket {
  import opened FixedPoint
  import opened Sums
  import opened Ledger
  import opened LedgerDilution
  import opened LedgerInterest

  /** The exact interest a borrower owes at a borrow index, without rounding. */
  function Debt(b: Borrower, index: nat): real {
    if b.net > 0 && b.index > 0 then b.net as real * (index - b.index) as real / b.index as real else 0.0
  }

  function DebtAt(index: nat): (Address, Borrower) -> real {
    (u: Address, b: Borrower) => Debt(b, index)
  }

  const NetOf: (Address, Borrower) -> real := (u: Address, b: Borrower) => b.net as real

  const BorrowedOf: (Address, Borrower) -> real := (u: Address, b: Borrower) => if b.net > 0 then b.net as real else 0.0

  ghost function Debts(s: Vault): real {
    Total(s.borrowers, DebtAt(s.borrowIndex))
  }

  /** The assets in the AMM are what users borrowed, net, and the long amounts still open. */
  ghost predicate Booked(s: Vault, long: int) {
    Total(s.borrowers, NetOf) + long as real == s.inAMM as real
  }

  /** The bucket exceeds the exact debts, and `slack`, by less than one unit for each of `n` accruals. */
  ghost predicate Covered(s: Vault, n: nat, slack: real) {
    if n == 0 then s.unrealized as real <= Debts(s) + slack
    else s.unrealized as real < Debts(s) + n as real + slack
  }

  lemma DebtNonNegative(s: Vault)
    requires Indexed(s)
    ensures Debts(s) >= 0.0
    ensures forall u :: u in s.borrowers ==> Debt(s.borrowers[u], s.borrowIndex) >= 0.0
  {
    forall u | u in s.borrowers
      ensures Debt(s.borrowers[u], s.borrowIndex) >= 0.0 && DebtAt(s.borrowIndex)(u, s.borrowers[u]) >= 0.0
    {
      var b := s.borrowers[u];
      if b.net > 0 {
        QuotientAtLeast(b.net as real * (s.borrowIndex - b.index) as real, b.index as real, 0.0);
      }
    }
    TotalNonNegative(s.borrowers, DebtAt(s.borrowIndex));
  }

  lemma QuotientAtLeast(x: real, d: real, q: real)
    requires d > 0.0
    ensures q * d <= x <==> q <= x / d
  {
    var y := x / d;
    assert y * d == x;
    if q <= y {
      MulMono(d, q, y);
    }
    if q * d <= x {
      CancelReal(q, y, d);
    }
  }

  lemma CancelReal(x: real, y: real, k: real)
    requires k > 0.0 && x * k <= y * k
    ensures x <= y
  {
    var d := x - y;
    assert d * k <= 0.0;
  }

  // ---------- accrual ----------

  lemma DebtGrows(b: Borrower, before: nat, after: nat, growth: nat, rate: real)
    requires WAD <= b.index <= before && before * (WAD + growth) <= after * WAD
    requires rate == growth as real / WAD as real
    ensures Debt(b, before) + Scale(rate, if b.net > 0 then b.net as real else 0.0) <= Debt(b, after)
  {
    if b.net > 0 {
      var net, i := b.net as real, b.index as real;
      var earlier := net * (before - b.index) as real;
      assert (after - before) * WAD >= before * growth >= b.index * growth;
      var w := WAD as real;
      assert (after - before) as real * w >= i * growth as real;
      RateBound(i, growth as real, w, (after - before) as real, rate);
      assert net * (after - b.index) as real == earlier + net * (after - before) as real;
      MulMono(net, rate * i, (after - before) as real);
      AddQuotients(earlier, net * (after - before) as real, i, rate * net);
    }
  }

  lemma RateBound(i: real, growth: real, w: real, rise: real, rate: real)
    requires w > 0.0 && rise * w >= i * growth && rate == growth / w
    ensures rise >= rate * i
  {
    assert rate * w == growth;
    assert i * growth == (rate * i) * w;
    CancelReal(rate * i, rise, w);
  }

  lemma MulMono(k: real, x: real, y: real)
    requires k >= 0.0 && x <= y
    ensures k * x <= k * y
  {
  }

  lemma AddQuotients(x: real, y: real, d: real, q: real)
    requires d > 0.0 && y >= q * d
    ensures x / d + q <= (x + y) / d
  {
    var a := x / d;
    assert a * d == x;
    assert (a + q) * d == a * d + q * d;
    QuotientAtLeast(x + y, d, a + q);
  }

  function Positive(x: int): real {
    if x > 0 then x as real else 0.0
  }

  /** The growth rate of one accrual. */
  function RateOf(s: Vault, t: Tick): real {
    Growth(s, t) as real / WAD as real
  }

  function OneIf(elapsed: bool): nat {
    if elapsed then 1 else 0
  }

  /** Global interest is charged on the assets in the AMM; the borrowers' debts grow at least as much, but for the
      rounding up of the bucket and the interest on long amounts, which nobody owes. */
  lemma CompoundCovered(s: Vault, t: Tick, n: nat, long: int, slack: real)
    requires Indexed(s) && Booked(s, long) && Covered(s, n, slack)
    ensures var c := Compound(s, t);
            Indexed(c) && Booked(c, long)
              && Covered(c, n + OneIf(Elapsed(s, t) > 0), slack + Scale(RateOf(s, t), Positive(long)))
  {
    var c, g, rate := Compound(s, t), Growth(s, t), RateOf(s, t);
    CompoundIndex(s, t);
    DebtsGrow(s.borrowers, s.borrowIndex, c.borrowIndex, g, rate);
    BorrowedAtLeastNet(s.borrowers);
    RateNonNegative(g, rate);
    hide Compound, Indexed;
    ScaleMonotone(rate, s.inAMM as real, Total(s.borrowers, BorrowedOf) + Positive(long));
    ScaleMonotone(rate, 0.0, Positive(long));
    ScaleMonotone(rate, 0.0, s.inAMM as real);
    Distribute(rate, Total(s.borrowers, BorrowedOf), Positive(long), Total(s.borrowers, BorrowedOf) + Positive(long));
    if Elapsed(s, t) > 0 {
      BucketGrows(s.inAMM, g, s.unrealized, c.unrealized, rate);
    }
  }

  lemma RateNonNegative(growth: nat, rate: real)
    requires rate == growth as real / WAD as real
    ensures rate >= 0.0 && Scale(rate, 0.0) == 0.0
  {
  }

  lemma DebtsGrow(m: map<Address, Borrower>, before: nat, after: nat, growth: nat, rate: real)
    requires before * (WAD + growth) <= after * WAD
    requires rate == growth as real / WAD as real
    requires forall u :: u in m ==> WAD <= m[u].index <= before
    ensures Total(m, DebtAt(before)) + Scale(rate, Total(m, BorrowedOf)) <= Total(m, DebtAt(after))
  {
    var low := Plus(DebtAt(before), Scaled(rate, BorrowedOf));
    forall u | u in m
      ensures low(u, m[u]) <= DebtAt(after)(u, m[u])
    {
      DebtGrows(m[u], before, after, growth, rate);
    }
    TotalMonotone(m, low, DebtAt(after));
    TotalPlus(m, DebtAt(before), Scaled(rate, BorrowedOf));
    TotalScaled(m, rate, BorrowedOf);
  }

  lemma BorrowedAtLeastNet(m: map<Address, Borrower>)
    ensures Total(m, NetOf) <= Total(m, BorrowedOf)
  {
    TotalMonotone(m, NetOf, BorrowedOf);
  }

  lemma BucketGrows(inAMM: nat, growth: nat, before: nat, after: nat, rate: real)
    requires after * WAD < before * WAD + inAMM * growth + WAD
    requires rate == growth as real / WAD as real
    ensures after as real < before as real + Scale(rate, inAMM as real) + 1.0
  {
    var w := WAD as real;
    assert rate * w == growth as real;
    assert inAMM as real * growth as real == rate * inAMM as real * w;
    assert (after * WAD) as real < (before * WAD + inAMM * growth + WAD) as real;
    var bound := before as real + rate * inAMM as real + 1.0;
    assert bound * w == before as real * w + rate * inAMM as real * w + w;
    CancelRealLess(after as real, bound, w);
  }

  lemma CancelRealLess(x: real, y: real, k: real)
    requires k > 0.0 && x * k < y * k
    ensures x < y
  {
    var d := x - y;
    assert d * k < 0.0;
  }

  lemma ScaleMonotone(rate: real, x: real, y: real)
    requires rate >= 0.0 && x <= y
    ensures Scale(rate, x) <= Scale(rate, y)
  {
  }

  // ---------- payment ----------

  lemma RoundedQuotient(x: nat, y: nat, z: nat)
    requires z > 0
    ensures x as real * y as real / z as real <= MulDivUp(x, y, z) as real
  {
    var up := MulDivUp(x, y, z);
    hide MulDivUp;
    ProductAsReal(x, y);
    ProductAsReal(up, z);
    QuotientAtMost(x as real * y as real, z as real, up as real);
  }

  lemma RoundedDebt(b: Borrower, index: nat)
    requires b.net > 0 ==> 0 < b.index <= index
    ensures UserInterest(b, index).Ok? && Debt(b, index) <= UserInterest(b, index).value as real
  {
    if b.net > 0 && index != b.index {
      RoundedQuotient(b.net, index - b.index, b.index);
    } else {
      NoDebtAtIndex(b);
    }
  }

  lemma ProductAsReal(x: int, y: int)
    ensures (x * y) as real == x as real * y as real
  {
  }

  lemma PaymentCoversDebt(c: Vault, owner: Address, skip: bool)
    requires Indexed(c) && PaymentOf(c, owner, skip).Ok? && PaymentOf(c, owner, skip).value.cleared
    ensures Debt(BorrowerOf(c, owner), c.borrowIndex) <= PaymentOf(c, owner, skip).value.worth as real
  {
    hide UserInterest, DivUp, Debt;
    RoundedDebt(BorrowerOf(c, owner), c.borrowIndex);
  }

  lemma QuotientAtMost(x: real, d: real, q: real)
    requires d > 0.0 && x <= q * d
    ensures x / d <= q
  {
    var y := x / d;
    assert y * d == x;
    CancelReal(y, q, d);
  }

  /** Writing one borrower moves the sums by that borrower's part. */
  lemma SetBorrower(s: Vault, v: Vault, u: Address, e: Borrower)
    requires v.borrowers == s.borrowers[u := e] && v.borrowIndex == s.borrowIndex
    ensures Debts(v) == Debts(s) - Debt(BorrowerOf(s, u), s.borrowIndex) + Debt(e, s.borrowIndex)
    ensures Total(v.borrowers, NetOf) == Total(s.borrowers, NetOf) - BorrowerOf(s, u).net as real + e.net as real
  {
    TotalUpdate(s.borrowers, NetOf, u, e);
    TotalUpdate(s.borrowers, DebtAt(s.borrowIndex), u, e);
  }

  /** Paying in full removes at least the debt from the bucket; paying in part, or not at all, leaves
      the debt as it is; and what remains is never below zero. */
  lemma PaymentCovered(c: Vault, owner: Address, skip: bool, n: nat, long: int, slack: real)
    requires Indexed(c) && Booked(c, long) && Covered(c, n, slack) && slack >= 0.0 && PayInterest(c, owner, skip).Ok?
    ensures var v := PayInterest(c, owner, skip).value;
            Indexed(v) && Booked(v, long) && Covered(v, n, slack)
  {
    var v, p := PayInterest(c, owner, skip).value, PaymentOf(c, owner, skip).value;
    var b, e := BorrowerOf(c, owner), Checkpoint(c, owner, p.cleared);
    PayInterestFrame(c, owner, skip);
    PayInterestIndex(c, owner, skip);
    hide PayInterest, PaymentOf, Debts, Indexed;
    SetBorrower(c, v, owner, e);
    DebtNonNegative(v);
    if p.cleared {
      PaymentCoversDebt(c, owner, skip);
      NoDebtAtIndex(e);
    }
  }

  lemma NoDebtAtIndex(b: Borrower)
    ensures Debt(b, b.index) == 0.0
  {
  }

  lemma AccrueCovered(s: Vault, t: Tick, owner: Address, skip: bool, n: nat, long: int, slack: real)
    requires Indexed(s) && Booked(s, long) && Covered(s, n, slack) && slack >= 0.0 && Accrue(s, t, owner, skip).Ok?
    ensures var v, more := Accrue(s, t, owner, skip).value, slack + Scale(RateOf(s, t), Positive(long));
            Indexed(v) && Booked(v, long) && Covered(v, n + OneIf(Elapsed(s, t) > 0), more) && more >= slack
  {
    hide Compound, Indexed, Booked, Covered;
    CompoundCovered(s, t, n, long, slack);
    RateNonNegative(Growth(s, t), RateOf(s, t));
    ScaleMonotone(RateOf(s, t), 0.0, Positive(long));
    PaymentCovered(Compound(s, t), owner, skip, n + OneIf(Elapsed(s, t) > 0), long,
                   slack + Scale(RateOf(s, t), Positive(long)));
  }

  // ---------- settlement ----------

  lemma DebtMonotone(i: nat, n0: int, n1: int, index: nat)
    requires 0 < i <= index && n0 <= n1
    ensures Debt(Borrower(i, n0), index) <= Debt(Borrower(i, n1), index)
    ensures i == index ==> Debt(Borrower(i, n1), index) == 0.0
  {
    if n1 > 0 {
      var rise, d := (index - i) as real, i as real;
      MulMono(rise, if n0 > 0 then n0 as real else 0.0, n1 as real);
      QuotientAtLeast(n1 as real * rise, d, Debt(Borrower(i, n0), index));
      QuotientAtMost(if n0 > 0 then n0 as real * rise else 0.0, d, Debt(Borrower(i, n0), index));
    }
  }

  /** The debt that goes when a loan shrinks on an old checkpoint; the bucket keeps the interest. */
  function Forgotten(a: Vault, x: Settlement): (r: real)
    ensures r >= 0.0
  {
    var b := BorrowerOf(a, x.owner);
    var before, after := Debt(b, a.borrowIndex), Debt(Borrower(b.index, b.net + NetBorrows(x)), a.borrowIndex);
    if before > after then before - after else 0.0
  }

  /** Booking moves the bucket away from the debts by what is forgotten, and by no more. */
  lemma SettlementCovered(a: Vault, v: Vault, x: Settlement, n: nat, long: int, slack: real)
    requires Booked(a, long) && Covered(a, n, slack) && Books(a, v, x)
    ensures Booked(v, long + SignedLong(x)) && Covered(v, n, slack + Forgotten(a, x))
  {
    var b := BorrowerOf(a, x.owner);
    SetBorrower(a, v, x.owner, Borrower(b.index, b.net + NetBorrows(x)));
    hide Debt, Debts;
  }

  /** A larger loan can only add to a debt; a smaller one takes nothing off a debt that has just been cleared. */
  lemma NothingForgotten(a: Vault, x: Settlement)
    requires Indexed(a) && x.owner in a.borrowers
    requires NetBorrows(x) >= 0 || a.borrowers[x.owner].index == a.borrowIndex
    ensures Forgotten(a, x) == 0.0
  {
    var b := BorrowerOf(a, x.owner);
    var e := Borrower(b.index, b.net + NetBorrows(x));
    if b.net <= e.net {
      DebtMonotone(b.index, b.net, e.net, a.borrowIndex);
    } else {
      DebtMonotone(b.index, b.net, b.net, a.borrowIndex);
      DebtMonotone(b.index, e.net, e.net, a.borrowIndex);
    }
  }

  lemma QuotientSum(x: real, y: real, d: real)
    requires d > 0.0
    ensures (x + y) / d == x / d + y / d
  {
    var a, b := x / d, y / d;
    assert a * d == x && b * d == y;
    assert (a + b) * d == a * d + b * d;
    assert (x + y) / d * d == x + y;
    CancelReal(a + b, (x + y) / d, d);
    CancelReal((x + y) / d, a + b, d);
  }

  /** Whatever part of a loan is taken off on an old checkpoint takes exactly its interest off the debts, and the bucket
      keeps it. */
  lemma UnpaidClosingForgetsDebt(a: Vault, v: Vault, x: Settlement)
    requires Indexed(a) && Books(a, v, x) && NetBorrows(x) <= 0
    requires x.owner in a.borrowers && 0 - NetBorrows(x) <= a.borrowers[x.owner].net
    ensures v.unrealized == a.unrealized
    ensures Forgotten(a, x) == Debt(Borrower(a.borrowers[x.owner].index, 0 - NetBorrows(x)), a.borrowIndex)
    ensures Debts(v) == Debts(a) - Forgotten(a, x)
  {
    var b := BorrowerOf(a, x.owner);
    DebtMonotone(b.index, 0, 0 - NetBorrows(x), a.borrowIndex);
    assert Debt(Borrower(b.index, 0), a.borrowIndex) == 0.0;
    hide Debts, Debt;
    SetBorrower(a, v, x.owner, Borrower(b.index, b.net + NetBorrows(x)));
    DebtSplits(b.index, b.net, 0 - NetBorrows(x), a.borrowIndex);
  }

  lemma DebtSplits(i: nat, net: nat, part: nat, index: nat)
    requires 0 < i <= index && part <= net
    ensures Debt(Borrower(i, net), index) == Debt(Borrower(i, net - part), index) + Debt(Borrower(i, part), index)
  {
    var rise, d := (index - i) as real, i as real;
    assert net as real * rise == (net - part) as real * rise + part as real * rise;
    QuotientSum((net - part) as real * rise, part as real * rise, d);
    assert 0.0 / d == 0.0;
  }

  // ---------- runs ----------

  predicate IsSettlement(c: Call) {
    c.SettleMintCall? || c.SettleBurnCall?
  }

  /** Whoever lowers a loan clears the interest due on it first. */
  predicate OwnerPays(s: Vault, t: Tick, c: Call) {
    IsSettlement(c) && NetBorrows(SettlementOf(c)) < 0 ==>
      var p := PaymentOf(Compound(s, t), c.owner, false);
      p.Ok? ==> p.value.cleared
  }

  lemma ClearedCheckpoint(s: Vault, t: Tick, owner: Address)
    requires Accrue(s, t, owner, false).Ok? && PaymentOf(Compound(s, t), owner, false).value.cleared
    ensures var a := Accrue(s, t, owner, false).value;
            BorrowerOf(a, owner).index == a.borrowIndex
  {
    PayInterestFrame(Compound(s, t), owner, false);
    hide PayInterest, PaymentOf, Compound;
  }

  /** 1 when the call accrues interest over a positive time. */
  function Ticks(s: Vault, t: Tick, c: Call): nat {
    if AccrualIn(c).AccrualOf? && Elapsed(s, t) > 0 then 1 else 0
  }

  /** The long amount a call opens, or closes. */
  function LongMoved(c: Call): int {
    if IsSettlement(c) then SignedLong(SettlementOf(c)) else 0
  }

  /** What an accrual adds to the bucket for long amounts that are open. */
  function UnowedGrowth(s: Vault, t: Tick, c: Call, long: int): (r: real)
    ensures r >= 0.0
  {
    if AccrualIn(c).AccrualOf? then
      assert RateOf(s, t) >= 0.0 by {
        RateNonNegative(Growth(s, t), RateOf(s, t));
      }
      Scale(RateOf(s, t), Positive(long))
    else 0.0
  }

  /** What a call makes the debts forget. */
  function ForgottenIn(s: Vault, t: Tick, c: Call): (r: real)
    ensures r >= 0.0
  {
    if IsSettlement(c) && Accrued(s, t, c).Ok? then Forgotten(Accrued(s, t, c).value, SettlementOf(c)) else 0.0
  }

  lemma StepCovered(s: Vault, t: Tick, c: Call, n: nat, long: int, slack: real)
    requires Indexed(s) && Booked(s, long) && Covered(s, n, slack) && slack >= 0.0
    requires Step(s, t, c).Ok?
    ensures var v := Step(s, t, c).value;
            && Indexed(v) && Booked(v, long + LongMoved(c))
            && Covered(v, n + Ticks(s, t, c), slack + UnowedGrowth(s, t, c, long) + ForgottenIn(s, t, c))
  {
    hide Accrue, Step, Compound, PaymentOf, Elapsed, Booked, Covered, Books, RateOf, Positive, Scale, Forgotten;
    StepIndex(s, t, c);
    if IsSettlement(c) {
      SettlementFrame(s, t, c);
      AccrueCovered(s, t, c.owner, false, n, long, slack);
      SettlementCovered(Accrued(s, t, c).value, Step(s, t, c).value, SettlementOf(c), n + Ticks(s, t, c), long,
                        slack + UnowedGrowth(s, t, c, long));
    } else {
      OtherCallsFrame(s, t, c);
      match AccrualIn(c)
      case NoAccrual => SameInterestCovered(s, Step(s, t, c).value, n, long, slack);
      case AccrualOf(owner, skip) =>
        AccrueCovered(s, t, owner, skip, n, long, slack);
        SameInterestCovered(Accrued(s, t, c).value, Step(s, t, c).value, n + Ticks(s, t, c), long,
                            slack + UnowedGrowth(s, t, c, long));
    }
  }

  lemma PaidForgetsNothing(s: Vault, t: Tick, c: Call)
    requires Indexed(s) && Step(s, t, c).Ok? && OwnerPays(s, t, c)
    ensures ForgottenIn(s, t, c) == 0.0
  {
    hide Accrue, Step, Compound, PaymentOf, Forgotten;
    if IsSettlement(c) {
      SettlementFrame(s, t, c);
      AccrueIndex(s, t, c.owner, false);
      if NetBorrows(SettlementOf(c)) < 0 {
        AccruePays(s, t, c.owner);
        ClearedCheckpoint(s, t, c.owner);
      }
      NothingForgotten(Accrued(s, t, c).value, SettlementOf(c));
    }
  }

  lemma SameInterestCovered(a: Vault, v: Vault, n: nat, long: int, slack: real)
    requires Booked(a, long) && Covered(a, n, slack) && SameInterest(a, v)
    ensures Booked(v, long) && Covered(v, n, slack)
  {
  }

  lemma AccruePays(s: Vault, t: Tick, owner: Address)
    requires Accrue(s, t, owner, false).Ok?
    ensures PaymentOf(Compound(s, t), owner, false).Ok?
  {
  }

  /** The accruals of a run that covered a positive time. */
  ghost function ElapsedAccruals(s: Vault, calls: seq<(Tick, Call)>): nat {
    if calls == [] then 0
    else
      var before := calls[..|calls| - 1];
      ElapsedAccruals(s, before)
        + (if Run(s, before).Ok? then Ticks(Run(s, before).value, calls[|calls| - 1].0, calls[|calls| - 1].1) else 0)
  }

  /** The long amounts opened in a run and not closed again. */
  function OpenLong(calls: seq<(Tick, Call)>): int {
    if calls == [] then 0 else OpenLong(calls[..|calls| - 1]) + LongMoved(calls[|calls| - 1].1)
  }

  /** The interest a run put into the bucket for open long amounts: at every accrual, its growth rate times the
      long amount open. */
  ghost function UnowedInterest(s: Vault, calls: seq<(Tick, Call)>): (r: real)
    ensures r >= 0.0
  {
    if calls == [] then 0.0
    else
      var before := calls[..|calls| - 1];
      UnowedInterest(s, before)
        + (if Run(s, before).Ok? then
             UnowedGrowth(Run(s, before).value, calls[|calls| - 1].0, calls[|calls| - 1].1, OpenLong(before))
           else 0.0)
  }

  /** Every call of a run that lowers a loan finds the owner able to pay the interest due. */
  ghost predicate LoansArePaid(s: Vault, calls: seq<(Tick, Call)>) {
    forall i :: 0 <= i < |calls| && Run(s, calls[..i]).Ok? ==>
      OwnerPays(Run(s, calls[..i]).value, calls[i].0, calls[i].1)
  }

  lemma LoansPaidBefore(s: Vault, calls: seq<(Tick, Call)>, n: nat)
    requires LoansArePaid(s, calls) && n <= |calls|
    ensures LoansArePaid(s, calls[..n])
  {
    hide Run, OwnerPays;
    forall i | 0 <= i < n && Run(s, calls[..n][..i]).Ok?
      ensures OwnerPays(Run(s, calls[..n][..i]).value, calls[..n][i].0, calls[..n][i].1)
    {
      assert calls[..n][..i] == calls[..i];
    }
  }

  /** The debt a run made the ledger forget, by loans that shrank with the interest on them unpaid. */
  ghost function ForgottenDebt(s: Vault, calls: seq<(Tick, Call)>): (r: real)
    ensures r >= 0.0
  {
    if calls == [] then 0.0
    else
      var before := calls[..|calls| - 1];
      ForgottenDebt(s, before)
        + (if Run(s, before).Ok? then ForgottenIn(Run(s, before).value, calls[|calls| - 1].0, calls[|calls| - 1].1)
           else 0.0)
  }

  lemma LastAdds(s: Vault, calls: seq<(Tick, Call)>)
    requires calls != [] && Run(s, calls).Ok?
    ensures var n := |calls| - 1;
            var b, t, c, before := Run(s, calls[..n]), calls[n].0, calls[n].1, calls[..n];
            && b.Ok? && Run(s, calls) == Step(b.value, t, c)
            && ElapsedAccruals(s, calls) == ElapsedAccruals(s, before) + Ticks(b.value, t, c)
            && OpenLong(calls) == OpenLong(before) + LongMoved(c)
            && UnowedInterest(s, calls) == UnowedInterest(s, before) + UnowedGrowth(b.value, t, c, OpenLong(before))
            && ForgottenDebt(s, calls) == ForgottenDebt(s, before) + ForgottenIn(b.value, t, c)
  {
    hide Step, Ticks, LongMoved, UnowedGrowth, ForgottenIn;
  }

  lemma NothingYet(epoch: nat)
    ensures var s0 := Initial(epoch); Indexed(s0) && Booked(s0, 0) && Covered(s0, 0, 0.0)
  {
    var s0 := Initial(epoch);
    assert Total(s0.borrowers, NetOf) == 0.0 && Total(s0.borrowers, DebtAt(WAD)) == 0.0;
  }

  /** In every run, the bucket of unrealized interest is at most the exact debt of all borrowers, the debt forgotten by
      loans that shrank unpaid, the interest on open long amounts, and less than one unit for each elapsed accrual. */
  lemma {:induction false} BucketBound(epoch: nat, calls: seq<(Tick, Call)>)
    requires Run(Initial(epoch), calls).Ok?
    ensures var s := Run(Initial(epoch), calls).value;
            && Indexed(s) && Booked(s, OpenLong(calls))
            && Covered(s, ElapsedAccruals(Initial(epoch), calls),
                       UnowedInterest(Initial(epoch), calls) + ForgottenDebt(Initial(epoch), calls))
  {
    var s0 := Initial(epoch);
    hide Initial, Step, Indexed, Booked, Covered, UnowedGrowth, ForgottenIn, Ticks, LongMoved;
    if calls == [] {
      NothingYet(epoch);
    } else {
      LastAdds(s0, calls);
      hide Run, UnowedInterest, ForgottenDebt, ElapsedAccruals, OpenLong;
      var before, t, c := calls[..|calls| - 1], calls[|calls| - 1].0, calls[|calls| - 1].1;
      BucketBound(epoch, before);
      StepCovered(Run(s0, before).value, t, c, ElapsedAccruals(s0, before), OpenLong(before),
                  UnowedInterest(s0, before) + ForgottenDebt(s0, before));
    }
  }

  /** Where whoever lowers a loan can pay the interest on it, nothing is forgotten. */
  lemma {:induction false} PaidLoansForgetNothing(epoch: nat, calls: seq<(Tick, Call)>)
    requires Run(Initial(epoch), calls).Ok? && LoansArePaid(Initial(epoch), calls)
    ensures ForgottenDebt(Initial(epoch), calls) == 0.0
  {
    var s0 := Initial(epoch);
    if calls != [] {
      var n := |calls| - 1;
      var before := calls[..n];
      LoansPaidBefore(s0, calls, n);
      assert OwnerPays(Run(s0, before).value, calls[n].0, calls[n].1);
      hide Step, LoansArePaid, OwnerPays, Indexed, ForgottenIn;
      PaidLoansForgetNothing(epoch, before);
      IndexInvariant(epoch, before);
      PaidForgetsNothing(Run(s0, before).value, calls[n].0, calls[n].1);
    }
  }
}
