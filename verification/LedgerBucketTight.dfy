/** The bound on the bucket of unrealized interest cannot be improved, at any rate, and the documented one holds exactly
    up to one elapsed accrual. */
module LedgerBucketTight {
  import opened FixedPoint
  import opened Sums
  import opened Ledger
  import opened LedgerInterest
  import opened LedgerBucket
  import opened LedgerOwed
  import opened LedgerScenarios

  /** Rates in units of 1e-18 a second, up to one percent a second: far above what the engine returns. */
  const MAX_RATE: nat := 10_000_000_000_000_000

  // ---------- a run at one rate ----------

  /** User 1 deposits a thousand assets, and a bystander accrues for `e` epochs. */
  function IdleRun(e: nat, rate: nat): seq<(Tick, Call)> {
    if e == 0 then [(Tick(0, rate), DepositCall(1, 1000, 1))]
    else IdleRun(e - 1, rate) + [(Tick(e, rate), AccrueCall(2))]
  }

  /** Then user 1 borrows one asset, and the bystander accrues for `k` more epochs. */
  function LoanRun(e: nat, k: nat, rate: nat): seq<(Tick, Call)> {
    if k == 0 then IdleRun(e, rate) + [(Tick(e, rate), SettleMintCall(1, 0, 1, 1, Deployed))]
    else LoanRun(e, k - 1, rate) + [(Tick(e + k, rate), AccrueCall(2))]
  }

  ghost predicate Idle(s: Vault, e: nat) {
    && s.epoch == e && s.deposited == 1001 && s.inAMM == 0 && s.credited == 0 && s.unrealized == 0
    && s.supply == 1_001_000_000 && BalanceOf(s, 1) == 1_000_000_000 && WAD <= s.borrowIndex
    && forall u :: u in s.borrowers ==> (u == 1 || u == 2) && s.borrowers[u].net == 0
  }

  /** `k` accruals after the loan, the bucket holds a unit for each, and the index has risen by less than a tenth. */
  ghost predicate Lending(s: Vault, e: nat, k: nat, rate: nat) {
    && s.epoch == e + k && s.deposited == 1000 && s.inAMM == 1 && s.credited == 0 && s.unrealized == k
    && s.supply == 1_001_000_000 && BalanceOf(s, 1) == 999_100_000
    && 1 in s.borrowers && s.borrowers[1].net == 1
    && Crept(s.borrowers[1].index, s.borrowIndex, k, rate)
    && forall u :: u in s.borrowers && u != 1 ==> u == 2 && s.borrowers[u].net == 0
  }

  /** The index after `k` epochs at a rate. */
  predicate Crept(start: nat, index: nat, k: nat, rate: nat) {
    WAD <= start && start + k <= index && (index - start) * WAD <= start * (7 * (k * rate))
  }

  lemma GrowthBounds(rate: nat)
    requires 0 < rate <= MAX_RATE
    ensures 4 * rate <= TaylorCompounded(rate, 4) <= 5 * rate
  {
    var first := rate * 4;
    var second := MulDiv(first, first, 2 * WAD);
    var third := MulDiv(second, first, 3 * WAD);
    MulLe(first, 4 * MAX_RATE, first);
    MulLe(first, 4 * MAX_RATE, second);
    hide MulDiv;
    assert second * (2 * WAD) <= first * (4 * MAX_RATE);
    assert third * (3 * WAD) <= second * (4 * MAX_RATE);
  }

  lemma IndexCreeps(start: nat, index: nat, growth: nat, next: nat, k: nat, rate: nat)
    requires Crept(start, index, k, rate) && 0 < rate && k * rate <= MAX_RATE && 4 * rate <= growth <= 5 * rate
    requires next == MulDivUp(index, WAD + growth, WAD)
    ensures Crept(start, next, k + 1, rate)
  {
    MulLe(7 * (k * rate), 7 * MAX_RATE, start);
    assert (index - start) * 100 <= 7 * start;
    assert index * (WAD + growth) == index * WAD + index * growth;
    MulLe(growth, 5 * rate, index);
    MulLe(100 * index, 107 * start, rate);
    MulLe(1, rate, start);
    MulLe(1, growth, index);
    hide MulDivUp;
    assert (k + 1) * rate == k * rate + rate;
    CreepSum(start, index, growth, next, 7 * (k * rate), rate);
  }

  lemma CreepSum(start: nat, index: nat, growth: nat, next: nat, drift: nat, rate: nat)
    requires WAD <= start && (index - start) * WAD <= start * drift
    requires next * WAD < index * WAD + index * growth + WAD && index * WAD + index * growth <= next * WAD
    requires index * growth <= index * (5 * rate) && 100 * index * rate <= 107 * start * rate
    requires start <= start * rate && index * growth >= index > 0
    ensures next >= index + 1
    ensures (next - start) * WAD <= start * (drift + 7 * rate)
  {
    var w := start * rate;
    assert 100 * (index * rate) <= 107 * w;
    assert index * (5 * rate) == 5 * (index * rate);
    assert start * (drift + 7 * rate) == start * drift + 7 * w;
  }

  // ---------- what the run leads to ----------

  lemma NextEpoch(s: Vault, t: Tick)
    requires t.epoch == s.epoch + 1
    ensures Elapsed(s, t) == 4
  {
  }

  lemma IdleStep(s: Vault, e: nat, rate: nat)
    requires Idle(s, e)
    ensures Accrue(s, Tick(e + 1, rate), 2, false).Ok?
    ensures Idle(Accrue(s, Tick(e + 1, rate), 2, false).value, e + 1)
  {
    var t := Tick(e + 1, rate);
    NextEpoch(s, t);
    var growth := TaylorCompounded(rate, 4);
    Grows(s.borrowIndex, growth, MulDivUp(s.borrowIndex, WAD + growth, WAD));
    NothingUp(growth);
    hide TaylorCompounded, MulDivUp, Elapsed;
    AccrueNothing(s, t, 2, false);
    hide Accrue;
  }

  lemma NothingUp(growth: nat)
    ensures MulDivUp(0, growth, WAD) == 0
  {
    var q := MulDivUp(0, growth, WAD);
    if q > 0 {
      MulLe(1, q, WAD);
    }
  }

  lemma {:induction false} IdleRunEnds(e: nat, rate: nat)
    ensures Run(Initial(0), IdleRun(e, rate)).Ok?
    ensures Idle(Run(Initial(0), IdleRun(e, rate)).value, e)
    ensures ElapsedAccruals(Initial(0), IdleRun(e, rate)) == e
  {
    hide Initial, Run, ElapsedAccruals, Idle, Accrue, Elapsed;
    if e == 0 {
      IdleStarts(rate);
    } else {
      IdleRunEnds(e - 1, rate);
      var s := Run(Initial(0), IdleRun(e - 1, rate)).value;
      AppendCall(Initial(0), IdleRun(e - 1, rate), Tick(e, rate), AccrueCall(2));
      IdleStep(s, e - 1, rate);
      IdleEpoch(s, e - 1);
      NextEpoch(s, Tick(e, rate));
    }
  }

  lemma IdleStarts(rate: nat)
    ensures Run(Initial(0), IdleRun(0, rate)).Ok? && Idle(Run(Initial(0), IdleRun(0, rate)).value, 0)
    ensures ElapsedAccruals(Initial(0), IdleRun(0, rate)) == 0
  {
    hide Run, ElapsedAccruals, Idle, Deposit, Elapsed;
    FirstCall(Initial(0), Tick(0, rate), DepositCall(1, 1000, 1));
    FirstDeposit(1000, rate);
    DepositedIsIdle();
    NoneElapsed(Initial(0), Tick(0, rate));
  }

  lemma DepositedIsIdle()
    ensures Idle(Deposited(1000), 0)
  {
  }

  lemma IdleEpoch(s: Vault, e: nat)
    ensures Idle(s, e) ==> s.epoch == e
  {
  }

  lemma NoneElapsed(s: Vault, t: Tick)
    requires t.epoch == s.epoch
    ensures Elapsed(s, t) == 0
  {
  }

  const OneLoan := Settlement(1, true, 0, 1, 1, 0)

  lemma OneLoanFee()
    ensures OpeningFee(OneLoan, Deployed) == 1 && MulDivUp(1, 1_001_000_000, 1001) == 1_000_000
    ensures Moved(1_000_000, Deployed) == 900_000
  {
  }

  lemma LoanStep(s: Vault, e: nat, rate: nat)
    requires Idle(s, e)
    ensures SettleMint(s, Tick(e, rate), 1, 0, 1, 1, Deployed).Ok?
    ensures Lending(SettleMint(s, Tick(e, rate), 1, 0, 1, 1, Deployed).value.0, e, 0, rate)
  {
    var t := Tick(e, rate);
    SameEpoch(s, t);
    AccrueNothing(s, t, 1, false);
    var a := s.(borrowers := s.borrowers[1 := Borrower(s.borrowIndex, 0)]);
    OneLoanFee();
    hide Accrue, UpdateBalancesAndSettle, SettleMint, MulDivUp, OpeningFee, Compound;
    OpenAfter(s, t, OneLoan, a, 0);
    MintAfter(s, t, OneLoan, Deployed, UpdateBalancesAndSettle(s, t, OneLoan).value);
  }

  lemma LendingStep(s: Vault, e: nat, k: nat, rate: nat)
    requires Lending(s, e, k, rate) && 0 < rate && k * rate <= MAX_RATE && rate <= MAX_RATE
    ensures Accrue(s, Tick(e + k + 1, rate), 2, false).Ok?
    ensures Lending(Accrue(s, Tick(e + k + 1, rate), 2, false).value, e, k + 1, rate)
  {
    var t := Tick(e + k + 1, rate);
    NextEpoch(s, t);
    var growth := TaylorCompounded(rate, 4);
    GrowthBounds(rate);
    IndexCreeps(s.borrowers[1].index, s.borrowIndex, growth, MulDivUp(s.borrowIndex, WAD + growth, WAD), k, rate);
    OneUp(growth);
    hide TaylorCompounded, MulDivUp, Elapsed, Crept;
    AccrueNothing(s, t, 2, false);
    hide Accrue;
  }

  lemma OneUp(growth: nat)
    requires 0 < growth <= WAD
    ensures MulDivUp(1, growth, WAD) == 1
  {
  }

  lemma {:induction false} LoanRunEnds(e: nat, k: nat, rate: nat)
    requires 0 < rate <= MAX_RATE && k * rate <= MAX_RATE
    ensures Run(Initial(0), LoanRun(e, k, rate)).Ok?
    ensures Lending(Run(Initial(0), LoanRun(e, k, rate)).value, e, k, rate)
    ensures ElapsedAccruals(Initial(0), LoanRun(e, k, rate)) == e + k
  {
    hide Run, ElapsedAccruals, Accrue, SettleMint, Elapsed, Lending, Idle;
    if k == 0 {
      IdleRunEnds(e, rate);
      var s := Run(Initial(0), IdleRun(e, rate)).value;
      AppendCall(Initial(0), IdleRun(e, rate), Tick(e, rate), SettleMintCall(1, 0, 1, 1, Deployed));
      LoanStep(s, e, rate);
      IdleEpoch(s, e);
      NoneElapsed(s, Tick(e, rate));
    } else {
      MulLe(k - 1, k, rate);
      LoanRunEnds(e, k - 1, rate);
      var s := Run(Initial(0), LoanRun(e, k - 1, rate)).value;
      AppendCall(Initial(0), LoanRun(e, k - 1, rate), Tick(e + k, rate), AccrueCall(2));
      LendingStep(s, e, k - 1, rate);
      LendingEpoch(s, e, k - 1, rate);
      NextEpoch(s, Tick(e + k, rate));
    }
  }

  lemma LendingEpoch(s: Vault, e: nat, k: nat, rate: nat)
    ensures Lending(s, e, k, rate) ==> s.epoch == e + k
  {
  }

  // ---------- what is owed at its end ----------

  lemma OneBorrower(s: Vault, e: nat, k: nat, rate: nat, weight: (Address, Borrower) -> real)
    requires Lending(s, e, k, rate)
    requires forall u: Address, b: Borrower :: b.net == 0 ==> weight(u, b) == 0.0
    ensures Total(s.borrowers, weight) == weight(1, s.borrowers[1])
  {
    var rest := s.borrowers - {1};
    TotalSplit(s.borrowers, weight, 1);
    if 2 in rest {
      TotalSplit(rest, weight, 2);
      assert rest - {2} == map[];
      assert Total(rest - {2}, weight) == 0.0;
    } else {
      assert rest == map[];
    }
  }

  lemma SmallRise(start: nat, index: nat, k: nat, rate: nat)
    requires Crept(start, index, k, rate) && k * rate <= MAX_RATE
    ensures 0 < start <= index && (index - start) * 10 <= start && (k > 0 ==> index > start)
  {
    MulLe(7 * (k * rate), 7 * MAX_RATE, start);
  }

  lemma DebtBelowOne(s: Vault, e: nat, k: nat, rate: nat)
    requires Lending(s, e, k, rate) && k * rate <= MAX_RATE
    ensures Debts(s) < 1.0
  {
    OneBorrower(s, e, k, rate, DebtAt(s.borrowIndex));
    var start, rise := s.borrowers[1].index, s.borrowIndex - s.borrowers[1].index;
    SmallRise(start, s.borrowIndex, k, rate);
    assert 1 * rise == rise;
    QuotientAtMost(rise as real, start as real, 0.5);
  }

  lemma OneUnitOwed(s: Vault, e: nat, k: nat, rate: nat)
    requires Lending(s, e, k, rate) && k * rate <= MAX_RATE
    ensures Owed(s) == if k == 0 then 0.0 else 1.0
  {
    OneBorrower(s, e, k, rate, OwedAt(s.borrowIndex));
    var start := s.borrowers[1].index;
    SmallRise(start, s.borrowIndex, k, rate);
    if k > 0 {
      OneUpOf(s.borrowIndex - start, start);
    } else {
      ZeroRise(start, s.borrowIndex, rate);
    }
  }

  lemma OneUpOf(rise: nat, start: nat)
    requires 0 < rise <= start
    ensures MulDivUp(1, rise, start) == 1
  {
    var q := MulDivUp(1, rise, start);
    if q >= 2 {
      MulLe(2, q, start);
    } else if q <= 0 {
      MulLe(q, 0, start);
    }
  }

  lemma ZeroRise(start: nat, index: nat, rate: nat)
    requires Crept(start, index, 0, rate)
    ensures start == index
  {
    assert start * (7 * (0 * rate)) == 0;
  }

  // ---------- main results ----------

  /** The slack of one unit per elapsed accrual is needed: at every positive rate, for every number of accruals before
      the debt reaches a tenth of a unit, a run uses it up to less than one unit. */
  lemma BucketBoundIsTight(k: nat, rate: nat)
    requires 0 < rate <= MAX_RATE && k * rate <= MAX_RATE
    ensures Run(Initial(0), LoanRun(0, k, rate)).Ok? && ElapsedAccruals(Initial(0), LoanRun(0, k, rate)) == k
    ensures Plain(0, LoanRun(0, k, rate))
    ensures var s := Run(Initial(0), LoanRun(0, k, rate)).value;
            s.unrealized == k && s.unrealized as real > Debts(s) + (k - 1) as real
  {
    LoanRunEnds(0, k, rate);
    PlainLoans(0, k, rate);
    PlainCallsArePlain(LoanRun(0, k, rate));
    DebtBelowOne(Run(Initial(0), LoanRun(0, k, rate)).value, 0, k, rate);
    hide Run, ElapsedAccruals, LoanRun, Debts, Plain;
  }

  /** On such a run the documented gap grows with the accruals: the bucket holds a unit for each, and the one borrower
      still owes one. */
  lemma DocumentedBoundFails(e: nat, k: nat, rate: nat)
    requires 0 < rate <= MAX_RATE && k * rate <= MAX_RATE
    ensures Run(Initial(0), LoanRun(e, k, rate)).Ok?
    ensures var s := Run(Initial(0), LoanRun(e, k, rate)).value;
            s.unrealized == k && (WithinOwed(s) <==> k <= 1)
  {
    LoanRunEnds(e, k, rate);
    OneUnitOwed(Run(Initial(0), LoanRun(e, k, rate)).value, e, k, rate);
    hide Run, LoanRun, Owed;
  }

  /** Calls that neither lower a loan nor move a long amount. */
  predicate PlainCalls(calls: seq<(Tick, Call)>) {
    forall i :: 0 <= i < |calls| ==> IsSettlement(calls[i].1) ==> calls[i].1.SettleMintCall? && calls[i].1.long == 0
  }

  /** Every call finds the same rate. */
  predicate AtRate(calls: seq<(Tick, Call)>, rate: nat) {
    forall i :: 0 <= i < |calls| ==> calls[i].0.rate == rate
  }

  lemma {:induction false} PlainIdle(e: nat, rate: nat)
    ensures PlainCalls(IdleRun(e, rate)) && AtRate(IdleRun(e, rate), rate)
  {
    if e > 0 {
      PlainIdle(e - 1, rate);
    }
  }

  lemma {:induction false} PlainLoans(e: nat, k: nat, rate: nat)
    ensures PlainCalls(LoanRun(e, k, rate)) && AtRate(LoanRun(e, k, rate), rate)
  {
    if k > 0 {
      PlainLoans(e, k - 1, rate);
    } else {
      PlainIdle(e, rate);
    }
  }

  lemma {:induction false} PlainCallsOpenNothing(calls: seq<(Tick, Call)>)
    requires PlainCalls(calls)
    ensures OpenLong(calls) == 0
  {
    if calls != [] {
      PlainCallsOpenNothing(calls[..|calls| - 1]);
    }
  }

  lemma PlainCallsArePlain(calls: seq<(Tick, Call)>)
    requires PlainCalls(calls) && Run(Initial(0), calls).Ok?
    ensures Plain(0, calls)
  {
    hide Run, PaymentOf;
    forall i | 0 <= i < |calls|
      ensures OpenLong(calls[..i]) <= 0
    {
      PlainCallsOpenNothing(calls[..i]);
    }
  }

  /** The documented invariant, exactly: of all runs in which no long amount is open and whoever lowers a loan can pay
      the interest on it, those with `n` elapsed accruals all meet it if and only if there is at most one; and the same
      of those at any one positive rate. */
  lemma DocumentedBoundExactly(n: nat, rate: nat)
    requires 0 < rate && 2 * rate <= MAX_RATE
    ensures (forall epoch, calls :: Plain(epoch, calls) && ElapsedAccruals(Initial(epoch), calls) == n ==>
                                      WithinOwed(Run(Initial(epoch), calls).value))
            <==> n <= 1
    ensures (forall epoch, calls ::
               Plain(epoch, calls) && AtRate(calls, rate) && ElapsedAccruals(Initial(epoch), calls) == n ==>
                 WithinOwed(Run(Initial(epoch), calls).value))
            <==> n <= 1
  {
    hide Run, ElapsedAccruals, LoansArePaid, NoLongOpen, OwedAt, Owed, AtRate;
    if n <= 1 {
      forall epoch, calls | Plain(epoch, calls) && ElapsedAccruals(Initial(epoch), calls) == n
        ensures WithinOwed(Run(Initial(epoch), calls).value)
      {
        BucketWithinOwed(epoch, calls);
      }
    } else {
      FailsFromTwo(n, rate);
      assert Plain(0, LoanRun(n - 2, 2, rate));
    }
  }

  lemma FailsFromTwo(n: nat, rate: nat)
    requires n >= 2 && 0 < rate && 2 * rate <= MAX_RATE
    ensures var calls := LoanRun(n - 2, 2, rate);
            && Plain(0, calls) && AtRate(calls, rate) && ElapsedAccruals(Initial(0), calls) == n
            && !WithinOwed(Run(Initial(0), calls).value)
  {
    hide Run, ElapsedAccruals, WithinOwed, Plain, AtRate;
    LoanRunEnds(n - 2, 2, rate);
    DocumentedBoundFails(n - 2, 2, rate);
    PlainLoans(n - 2, 2, rate);
    PlainCallsArePlain(LoanRun(n - 2, 2, rate));
  }
}
