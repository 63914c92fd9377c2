/** The bucket of unrealized interest against what users owe, each debt rounded up on its own. */
module LedgerOwed {
  import opened Results
  import opened FixedPoint
  import opened Sums
  import opened Ledger
  import opened LedgerInterest
  import opened LedgerBucket

  /** What the users together would be asked for. */
  function OwedAt(index: nat): (Address, Borrower) -> real {
    (u: Address, b: Borrower) => match UserInterest(b, index) case Ok(owed) => owed as real case Revert(_) => 0.0
  }

  ghost function Owed(s: Vault): real {
    Total(s.borrowers, OwedAt(s.borrowIndex))
  }

  /** The documented invariant: the bucket never exceeds the sum of what users owe. */
  ghost predicate WithinOwed(s: Vault) {
    s.unrealized as real <= Owed(s)
  }

  lemma {:induction false} OwedIsWhole(m: map<Address, Borrower>, index: nat) returns (k: int)
    ensures Total(m, OwedAt(index)) == k as real
    decreases |m|
  {
    if m.Keys == {} {
      k := 0;
    } else {
      var u :| u in m;
      assert (m - {u}).Keys == m.Keys - {u};
      var rest := OwedIsWhole(m - {u}, index);
      TotalSplit(m, OwedAt(index), u);
      var r := UserInterest(m[u], index);
      hide UserInterest;
      k := rest + if r.Ok? then r.value else 0;
    }
  }

  /** Beyond what users owe, the bucket holds at most `slack` and less than `n` units. */
  ghost predicate CoveredByOwed(s: Vault, n: nat, slack: real) {
    if n == 0 then s.unrealized as real <= Owed(s) + slack else (s.unrealized as real) < Owed(s) + n as real + slack
  }

  lemma CoveredIsCoveredByOwed(s: Vault, n: nat, slack: real)
    requires Indexed(s) && Covered(s, n, slack)
    ensures CoveredByOwed(s, n, slack)
  {
    OwedCoversDebts(s);
    hide Owed, Debts;
  }

  lemma OwedCoversDebts(s: Vault)
    requires Indexed(s)
    ensures Debts(s) <= Owed(s)
  {
    hide Debt, MulDivUp;
    forall u | u in s.borrowers
      ensures DebtAt(s.borrowIndex)(u, s.borrowers[u]) <= OwedAt(s.borrowIndex)(u, s.borrowers[u])
    {
      RoundedDebt(s.borrowers[u], s.borrowIndex);
    }
    TotalMonotone(s.borrowers, DebtAt(s.borrowIndex), OwedAt(s.borrowIndex));
  }

  /** What holds of every run: beyond what users owe, the bucket holds at most the debt forgotten by loans that shrank
      unpaid, the interest on open long amounts, and less than one unit for each elapsed accrual. */
  lemma DocumentedBoundWithSlack(epoch: nat, calls: seq<(Tick, Call)>)
    requires Run(Initial(epoch), calls).Ok?
    ensures CoveredByOwed(Run(Initial(epoch), calls).value, ElapsedAccruals(Initial(epoch), calls),
                          UnowedInterest(Initial(epoch), calls) + ForgottenDebt(Initial(epoch), calls))
  {
    hide *;
    BucketBound(epoch, calls);
    CoveredIsCoveredByOwed(Run(Initial(epoch), calls).value, ElapsedAccruals(Initial(epoch), calls),
                           UnowedInterest(Initial(epoch), calls) + ForgottenDebt(Initial(epoch), calls));
  }

  // ---------- without long amounts and unpaid loans ----------

  /** No long amount is open at any call. */
  ghost predicate NoLongOpen(calls: seq<(Tick, Call)>) {
    forall i :: 0 <= i < |calls| ==> OpenLong(calls[..i]) <= 0
  }

  lemma {:induction false} NothingUnowed(s: Vault, calls: seq<(Tick, Call)>)
    requires NoLongOpen(calls)
    ensures UnowedInterest(s, calls) == 0.0
  {
    if calls != [] {
      var n := |calls| - 1;
      forall i | 0 <= i < n
        ensures OpenLong(calls[..n][..i]) <= 0
      {
        assert calls[..n][..i] == calls[..i];
      }
      NothingUnowed(s, calls[..n]);
      assert OpenLong(calls[..n]) <= 0;
      if Run(s, calls[..n]).Ok? {
        NothingWithoutLong(Run(s, calls[..n]).value, calls[n].0, calls[n].1, OpenLong(calls[..n]));
      }
      hide Run, OpenLong, UnowedGrowth;
    }
  }

  lemma NothingWithoutLong(s: Vault, t: Tick, c: Call, long: int)
    requires long <= 0
    ensures UnowedGrowth(s, t, c, long) == 0.0
  {
    RateNonNegative(Growth(s, t), RateOf(s, t));
    hide Growth, RateOf, AccrualIn;
  }

  /** A run with no long amount open, in which whoever lowers a loan can pay the interest on it. */
  ghost predicate Plain(epoch: nat, calls: seq<(Tick, Call)>) {
    Run(Initial(epoch), calls).Ok? && LoansArePaid(Initial(epoch), calls) && NoLongOpen(calls)
  }

  /** In such a run the bucket exceeds what users owe by at most one unit for each elapsed accrual but the first. */
  lemma BucketWithinOwed(epoch: nat, calls: seq<(Tick, Call)>)
    requires Plain(epoch, calls)
    ensures var s, n := Run(Initial(epoch), calls).value, ElapsedAccruals(Initial(epoch), calls);
            s.unrealized as real <= Owed(s) + Minus(n, 1) as real
  {
    hide Run, ElapsedAccruals, UnowedInterest, ForgottenDebt, LoansArePaid, OwedAt, NoLongOpen;
    var s := Run(Initial(epoch), calls).value;
    DocumentedBoundWithSlack(epoch, calls);
    NothingUnowed(Initial(epoch), calls);
    PaidLoansForgetNothing(epoch, calls);
    var owed := OwedIsWhole(s.borrowers, s.borrowIndex);
    WholeGap(s.unrealized, owed, ElapsedAccruals(Initial(epoch), calls));
  }

  /** Whole numbers less than `n` apart are at most `n - 1` apart. */
  lemma WholeGap(bucket: nat, owed: int, n: nat)
    requires if n == 0 then bucket as real <= owed as real else (bucket as real) < owed as real + n as real
    ensures bucket as real <= owed as real + Minus(n, 1) as real
  {
    if n > 0 {
      assert bucket < owed + n by {
        assert (owed + n) as real == owed as real + n as real;
      }
      assert Minus(n, 1) == n - 1;
      assert (owed + n - 1) as real == owed as real + (n - 1) as real;
    }
  }

  // ---------- where nobody borrows ----------

  ghost predicate NobodyBorrows(s: Vault) {
    forall u :: u in s.borrowers ==> s.borrowers[u].net <= 0
  }

  lemma NothingOwedByNobody(s: Vault)
    requires NobodyBorrows(s)
    ensures Owed(s) == 0.0
  {
    var nothing := (u: Address, b: Borrower) => 0.0;
    TotalAgrees(s.borrowers, OwedAt(s.borrowIndex), nothing);
    TotalOfNothing(s.borrowers, nothing);
  }

  lemma {:induction false} TotalOfNothing(m: map<Address, Borrower>, weight: (Address, Borrower) -> real)
    requires forall u, b :: weight(u, b) == 0.0
    ensures Total(m, weight) == 0.0
    decreases |m|
  {
    if m.Keys != {} {
      var u :| u in m;
      assert (m - {u}).Keys == m.Keys - {u};
      TotalSplit(m, weight, u);
      TotalOfNothing(m - {u}, weight);
    }
  }

  /** The assets that open long amounts put into the AMM bear interest that nobody owes. Where nobody borrows and the
      bucket is empty, an accrual puts the whole interest on the AMM into the bucket, so that the documented invariant
      fails at once, unless there is nothing in the AMM or no growth. */
  lemma LongAmountsEarnUnowedInterest(s: Vault, t: Tick, owner: Address)
    requires NobodyBorrows(s) && s.unrealized == 0 && TotalAssets(s) > 0
    ensures Accrue(s, t, owner, false).Ok?
    ensures var v := Accrue(s, t, owner, false).value;
            && NobodyBorrows(v) && Owed(v) == 0.0
            && v.unrealized * WAD >= s.inAMM * Growth(s, t)
            && (WithinOwed(v) <==> s.inAMM == 0 || Growth(s, t) == 0)
  {
    var c, g := Compound(s, t), Growth(s, t);
    Charged(s.inAMM, g);
    hide TaylorCompounded;
    assert c.unrealized == if Elapsed(s, t) == 0 then 0 else MulDivUp(s.inAMM, g, WAD);
    assert c.borrowers == s.borrowers;
    hide Compound, MulDivUp, Growth, Owed;
    assert BorrowerOf(c, owner).net <= 0;
    NothingOwedByNobody(Accrue(s, t, owner, false).value);
  }

  lemma Charged(inAMM: nat, growth: nat)
    ensures MulDivUp(inAMM, growth, WAD) == 0 <==> inAMM == 0 || growth == 0
    ensures MulDivUp(inAMM, growth, WAD) * WAD >= inAMM * growth
    ensures growth == 0 ==> inAMM * growth == 0
  {
    var q := MulDivUp(inAMM, growth, WAD);
    if inAMM > 0 && growth > 0 {
      MulLe(1, inAMM, growth);
    } else if q > 0 {
      MulLe(1, q, WAD);
    }
  }
}
