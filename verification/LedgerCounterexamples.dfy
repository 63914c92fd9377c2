/** Runs from a fresh vault in which documented sentences about the ledger fail, with the fees as they are deployed. */
module LedgerCounterexamples {
  import opened Results
  import opened FixedPoint
  import opened Ledger
  import opened LedgerPrice
  import opened LedgerInterest
  import opened LedgerBucket
  import opened LedgerOwed
  import opened LedgerScenarios
  import opened LedgerBucketTight
  import opened LedgerFall

  // ---------- interest on an open long amount ----------

  /** User 1 deposits, opens a long amount of the same size, and some epochs pass. */
  function LongRun(amount: nat, epochs: nat, rate: nat): seq<(Tick, Call)> {
    OpenLongRun(amount, rate) + [(Tick(epochs, rate), AccrueCall(2))]
  }

  function OpenLongRun(amount: nat, rate: nat): seq<(Tick, Call)> {
    [(Tick(0, rate), DepositCall(1, amount, 1))] + [(Tick(0, rate), SettleMintCall(1, amount, amount, 0, Deployed))]
  }

  lemma LongFee(amount: nat)
    requires amount > 0
    ensures MulDivUp(amount + amount, 3, DECIMALS) <= amount
  {
    var q := MulDivUp(amount + amount, 3, DECIMALS);
    hide MulDivUp;
  }

  /** At a million shares for each asset nothing is rounded. */
  lemma WholeShares(n: nat, assets: nat)
    requires assets > 0
    ensures MulDivUp(n, assets * VIRTUAL_SHARES, assets) == n * VIRTUAL_SHARES
  {
    var q := MulDivUp(n, assets * VIRTUAL_SHARES, assets);
    hide MulDivUp;
    assert n * (assets * VIRTUAL_SHARES) == n * VIRTUAL_SHARES * assets;
    Cancel(n * VIRTUAL_SHARES, q, assets);
    CancelLess(q, n * VIRTUAL_SHARES + 1, assets);
  }

  lemma OpenedLong(amount: nat, rate: nat)
    requires 0 < amount <= MAX_DEPOSIT
    ensures var r := SettleMint(Deposited(amount), Tick(0, rate), 1, amount, amount, 0, Deployed);
            && r.Ok? && r.value.0.inAMM == amount && r.value.0.unrealized == 0 && r.value.0.epoch == 0
            && NobodyBorrows(r.value.0)
  {
    var s, t, x := Deposited(amount), Tick(0, rate), Settlement(1, true, amount, amount, 0, 0);
    SameEpoch(s, t);
    AccrueNothing(s, t, 1, false);
    assert s.borrowers[1 := Borrower(WAD, 0)] == s.borrowers;
    WholeShares(amount, amount + 1);
    LongFee(amount);
    WholeShares(OpeningFee(x, Deployed), amount + 1);
    MulLe(OpeningFee(x, Deployed), amount, VIRTUAL_SHARES);
    hide Accrue, UpdateBalancesAndSettle, SettleMint, MulDivUp, OpeningFee, Compound;
    OpenAfter(s, t, x, s, amount * VIRTUAL_SHARES);
    MintAfter(s, t, x, Deployed, UpdateBalancesAndSettle(s, t, x).value);
  }

  lemma OpenLongRunEnds(amount: nat, rate: nat)
    requires 0 < amount <= MAX_DEPOSIT
    ensures var r := Run(Initial(0), OpenLongRun(amount, rate));
            r == First(SettleMint(Deposited(amount), Tick(0, rate), 1, amount, amount, 0, Deployed))
    ensures ElapsedAccruals(Initial(0), OpenLongRun(amount, rate)) == 0
  {
    hide Deposit, SettleMint, Elapsed, Run, ElapsedAccruals;
    var t := Tick(0, rate);
    FirstCall(Initial(0), t, DepositCall(1, amount, 1));
    FirstDeposit(amount, rate);
    AppendCall(Initial(0), [(t, DepositCall(1, amount, 1))], t, SettleMintCall(1, amount, amount, 0, Deployed));
    NoneElapsed(Initial(0), t);
    NoneElapsed(Deposited(amount), t);
  }

  lemma LongIsOpen(amount: nat, rate: nat)
    ensures OpenLong(OpenLongRun(amount, rate)) == amount
  {
    var deposit := [(Tick(0, rate), DepositCall(1, amount, 1))];
    var calls := OpenLongRun(amount, rate);
    assert deposit[..0] == [] && OpenLong([]) == 0;
    assert OpenLong(deposit) == 0;
    assert calls[..1] == deposit;
  }

  /** A growth of at least rate times seconds. */
  lemma SimpleGrowth(s: Vault, t: Tick)
    requires s.epoch <= t.epoch && 4 * (t.epoch - s.epoch) < 0x1_0000_0000
    ensures Growth(s, t) >= t.rate * (4 * (t.epoch - s.epoch))
    ensures Elapsed(s, t) == 4 * (t.epoch - s.epoch)
  {
    var seconds := 4 * (t.epoch - s.epoch);
    assert Elapsed(s, t) == seconds;
    hide Elapsed, MulDiv;
  }

  /** While a long amount is open the gap is not one of rounding: nobody ever borrows in this run, and yet one accrual
      leaves interest on the whole long amount in the bucket, in proportion to the amount, the time and the rate. */
  lemma OpenLongEarnsUnowedInterest(amount: nat, epochs: nat, rate: nat)
    requires 0 < amount <= MAX_DEPOSIT && 4 * epochs < 0x1_0000_0000
    ensures OpenLong(OpenLongRun(amount, rate)) == amount && Run(Initial(0), LongRun(amount, epochs, rate)).Ok?
    ensures ElapsedAccruals(Initial(0), LongRun(amount, epochs, rate)) == if epochs > 0 then 1 else 0
    ensures var s := Run(Initial(0), LongRun(amount, epochs, rate)).value;
            && Owed(s) == 0.0 && s.unrealized * WAD >= amount * (rate * (4 * epochs))
            && (epochs > 0 && rate > 0 ==> !WithinOwed(s))
  {
    LongIsOpen(amount, rate);
    OpenLongRunEnds(amount, rate);
    OpenedLong(amount, rate);
    var t, lent := Tick(epochs, rate),
      SettleMint(Deposited(amount), Tick(0, rate), 1, amount, amount, 0, Deployed).value.0;
    hide Run, ElapsedAccruals, Accrue, SettleMint, Elapsed, Owed, WithinOwed, OpenLongRun, NobodyBorrows;
    AppendCall(Initial(0), OpenLongRun(amount, rate), t, AccrueCall(2));
    LongAccrues(lent, amount, epochs, rate);
  }

  lemma LongAccrues(s: Vault, amount: nat, epochs: nat, rate: nat)
    requires s.inAMM == amount > 0 && s.unrealized == 0 && s.epoch == 0 && NobodyBorrows(s)
             && 4 * epochs < 0x1_0000_0000
    ensures Elapsed(s, Tick(epochs, rate)) == 4 * epochs && Accrue(s, Tick(epochs, rate), 2, false).Ok?
    ensures var v := Accrue(s, Tick(epochs, rate), 2, false).value;
            && Owed(v) == 0.0 && v.unrealized * WAD >= amount * (rate * (4 * epochs))
            && (epochs > 0 && rate > 0 ==> !WithinOwed(v))
  {
    var t := Tick(epochs, rate);
    hide Accrue, Elapsed, Growth, Owed, WithinOwed;
    LongAmountsEarnUnowedInterest(s, t, 2);
    SimpleGrowth(s, t);
    Enough(amount, rate * (4 * epochs), Growth(s, t));
    if epochs > 0 && rate > 0 {
      MulLe(1, 4 * epochs, rate);
    }
  }

  lemma Enough(amount: nat, least: nat, growth: nat)
    requires least <= growth
    ensures amount * least <= amount * growth
  {
    MulLe(least, growth, amount);
  }

  // ---------- a loan that shrinks unpaid ----------

  /** User 3 deposits one asset, borrows one, and gives it back an epoch later, with too few shares left to pay the
      interest. */
  function UnpaidRun(rate: nat): seq<(Tick, Call)> {
    [(Tick(0, rate), DepositCall(1, 1000, 1))] + [(Tick(0, rate), DepositCall(3, 1, 3))]
    + [(Tick(0, rate), SettleMintCall(3, 0, 1, 1, Deployed))]
    + [(Tick(1, rate), SettleBurnCall(3, 0, 1, -1, 0, Deployed))]
  }

  ghost predicate SmallDeposit(s: Vault) {
    && s.deposited == 1002 && s.inAMM == 0 && s.credited == 0 && s.supply == 1_002_000_000 && s.unrealized == 0
    && s.borrowIndex == WAD && s.epoch == 0 && BalanceOf(s, 3) == 1_000_000
    && s.borrowers == map[1 := Borrower(WAD, 0), 3 := Borrower(WAD, 0)]
  }

  ghost predicate SmallLoan(s: Vault) {
    && s.deposited == 1001 && s.inAMM == 1 && s.credited == 0 && s.supply == 1_002_000_000 && s.unrealized == 0
    && s.borrowIndex == WAD && s.epoch == 0 && BalanceOf(s, 3) == 100_000
    && s.borrowers == map[1 := Borrower(WAD, 0), 3 := Borrower(WAD, 1)]
  }

  lemma SecondDeposit(rate: nat)
    ensures var r := Deposit(Deposited(1000), Tick(0, rate), 3, 1, 3); r.Ok? && SmallDeposit(r.value.0)
  {
    var s, t := Deposited(1000), Tick(0, rate);
    SameEpoch(s, t);
    AccrueNothing(s, t, 3, true);
    var a := s.(borrowers := s.borrowers[3 := Borrower(WAD, 0)]);
    assert MulDiv(1, 1_001_000_000, 1001) == 1_000_000;
    hide Accrue, Deposit, Compound;
    DepositAfter(s, t, 3, 1, a, 1_000_000);
  }

  const SmallOpening := Settlement(3, true, 0, 1, 1, 0)

  lemma SmallFee()
    ensures OpeningFee(SmallOpening, Deployed) == 1 && MulDivUp(1, 1_002_000_000, 1002) == 1_000_000
    ensures Moved(1_000_000, Deployed) == 900_000
  {
  }

  lemma SmallLoanTaken(s: Vault, rate: nat)
    requires SmallDeposit(s)
    ensures var r := SettleMint(s, Tick(0, rate), 3, 0, 1, 1, Deployed); r.Ok? && SmallLoan(r.value.0)
  {
    var t := Tick(0, rate);
    SameEpoch(s, t);
    AccrueNothing(s, t, 3, false);
    assert s.borrowers[3 := Borrower(WAD, 0)] == s.borrowers;
    SmallFee();
    hide Accrue, UpdateBalancesAndSettle, SettleMint, MulDivUp, OpeningFee, Compound;
    OpenAfter(s, t, SmallOpening, s, 0);
    MintAfter(s, t, SmallOpening, Deployed, UpdateBalancesAndSettle(s, t, SmallOpening).value);
  }

  /** One epoch on, the shares user 3 has left are burned and pay for nothing. */
  lemma TooFewShares(s: Vault, rate: nat)
    requires SmallLoan(s) && 0 < rate <= MAX_RATE
    ensures Accrue(s, Tick(1, rate), 3, false).Ok?
    ensures var a := Accrue(s, Tick(1, rate), 3, false).value;
            && a.unrealized == 1 && a.deposited == 1001 && a.inAMM == 1 && a.credited == 0
            && a.borrowers == s.borrowers
  {
    var t := Tick(1, rate);
    NextEpoch(s, t);
    var growth := TaylorCompounded(rate, 4);
    GrowthBounds(rate);
    OneUp(growth);
    assert MulDivUp(WAD, WAD + growth, WAD) == WAD + growth;
    assert MulDivUp(1, 1_002_000_000, 1003) == 999_003 && MulDiv(100_000, 1003, 1_002_000_000) == 0;
    hide TaylorCompounded, MulDivUp, MulDiv, Elapsed;
    assert s.borrowers[3 := Borrower(WAD, 1)] == s.borrowers;
  }

  lemma SmallLoanClosed(s: Vault, rate: nat)
    requires SmallLoan(s) && 0 < rate <= MAX_RATE
    ensures var r := SettleBurn(s, Tick(1, rate), 3, 0, 1, -1, 0, Deployed);
            r.Ok? && r.value.0.unrealized == 1 && NobodyBorrows(r.value.0)
  {
    TooFewShares(s, rate);
    hide Accrue;
  }

  /** A loan given back with its interest unpaid breaks the documented invariant after a single elapsed accrual. */
  lemma UnpaidClosingLeavesInterest(rate: nat)
    requires 0 < rate <= MAX_RATE
    ensures Run(Initial(0), UnpaidRun(rate)).Ok? && ElapsedAccruals(Initial(0), UnpaidRun(rate)) == 1
    ensures var s := Run(Initial(0), UnpaidRun(rate)).value; s.unrealized == 1 && Owed(s) == 0.0
  {
    hide Run, ElapsedAccruals, Deposit, SettleMint, SettleBurn, Elapsed, Owed;
    var s0, t, u := Initial(0), Tick(0, rate), Tick(1, rate);
    var c1, c2 := [(t, DepositCall(1, 1000, 1))], [(t, DepositCall(3, 1, 3))];
    var c3 := [(t, SettleMintCall(3, 0, 1, 1, Deployed))];
    FirstDeposit(1000, rate);
    FirstCall(s0, t, c1[0].1);
    SecondDeposit(rate);
    AppendCall(s0, c1, t, c2[0].1);
    var s2 := Run(s0, c1 + c2).value;
    SmallLoanTaken(s2, rate);
    AppendCall(s0, c1 + c2, t, c3[0].1);
    var s3 := Run(s0, c1 + c2 + c3).value;
    SmallLoanClosed(s3, rate);
    AppendCall(s0, c1 + c2 + c3, u, SettleBurnCall(3, 0, 1, -1, 0, Deployed));
    NoneElapsed(s0, t);
    NoneElapsed(Deposited(1000), t);
    NoneElapsed(s2, t);
    NextEpoch(s3, u);
    NothingOwedByNobody(Run(s0, UnpaidRun(rate)).value);
  }

  // ---------- a price that falls ----------

  /** A loan has earned a unit of interest, and user 1 has paid it. */
  function PaidRun(rate: nat): seq<(Tick, Call)> {
    LoanRun(0, 1, rate) + [(Tick(1, rate), AccrueCall(1))]
  }

  ghost predicate Paid(s: Vault) {
    && s.deposited == 1000 && s.inAMM == 1 && s.credited == 0 && s.supply == 1_000_000_998 && s.unrealized == 0
    && s.epoch == 1 && BalanceOf(s, 1) >= 999_002
    && 1 in s.borrowers && s.borrowers[1] == Borrower(s.borrowIndex, 1)
  }

  lemma PaysOne(s: Vault, rate: nat)
    requires Lending(s, 0, 1, rate) && 0 < rate <= MAX_RATE
    ensures var r := Accrue(s, Tick(1, rate), 1, false); r.Ok? && Paid(r.value)
  {
    SameEpoch(s, Tick(1, rate));
    SmallRise(s.borrowers[1].index, s.borrowIndex, 1, rate);
    OneUpOf(s.borrowIndex - s.borrowers[1].index, s.borrowers[1].index);
    assert MulDivUp(1, 1_001_000_000, 1002) == 999_002;
    hide Compound, MulDivUp, Crept;
  }

  lemma PaidRunEnds(rate: nat)
    requires 0 < rate <= MAX_RATE
    ensures Run(Initial(0), PaidRun(rate)).Ok? && Paid(Run(Initial(0), PaidRun(rate)).value)
  {
    hide Run, Accrue, ElapsedAccruals, LoanRun, Lending;
    LoanRunEnds(0, 1, rate);
    AppendCall(Initial(0), LoanRun(0, 1, rate), Tick(1, rate), AccrueCall(1));
    PaysOne(Run(Initial(0), LoanRun(0, 1, rate)).value, rate);
  }

  /** User 1 buys one asset of liquidity out of the AMM. */
  const Purchase := Settlement(1, true, 1, 0, -1, 0)

  lemma PurchasePrices(a: Vault)
    requires Paid(a)
    ensures CreditAfter(a, Purchase) == Ok((999_002, 0)) && CreditOf(a, Purchase) == Ok(999_002)
    ensures OpeningFee(Purchase, Deployed) == 1 && MulDivUp(1, 1_000_000_998, 1001) == 999_002
    ensures TotalAssets(a) == 1001 && TotalSupply(a) == 1_000_000_998 && !RoundingIsPaid(a, Purchase)
  {
    assert MulDivUp(1, 1_000_000_998, 1001) == 999_002;
    assert RoundingUp(1_000_000_998, 1001) == 4 && RoundingUp(0, 1001) == 0;
  }

  lemma PurchaseLowersPrice(s: Vault, rate: nat)
    requires Paid(s)
    ensures var r := SettleMint(s, Tick(1, rate), 1, 1, 0, -1, Deployed); r.Ok? && !PriceKept(s, r.value.0)
  {
    var t := Tick(1, rate);
    SameEpoch(s, t);
    assert s.borrowers[1 := s.borrowers[1]] == s.borrowers;
    assert Accrue(s, t, 1, false) == Ok(s);
    PurchasePrices(s);
    hide Accrue, UpdateBalancesAndSettle, SettleMint, CreditOf, CreditAfter, RoundingIsPaid, PriceKept;
    hide OpeningFee, MulDivUp;
    OpenAfter(s, t, Purchase, s, 999_002);
    MintAfter(s, t, Purchase, Deployed, UpdateBalancesAndSettle(s, t, Purchase).value);
    OpeningKeepsPriceExactly(s, t, 1, 1, 0, -1, Deployed);
  }

  /** The price does fall, at the deployed fees, when a builder is paid: an opening that buys one asset of liquidity is
      credited 999002 shares for 999001 and a fraction, its commission is moved and not burned, and everybody else pays
      for the rest. */
  lemma PriceCanFall(rate: nat)
    requires 0 < rate <= MAX_RATE
    ensures var before := PaidRun(rate);
            var after := before + [(Tick(1, rate), SettleMintCall(1, 1, 0, -1, Deployed))];
            && Run(Initial(0), before).Ok? && Run(Initial(0), after).Ok?
            && !PriceKept(Run(Initial(0), before).value, Run(Initial(0), after).value)
  {
    hide Run, SettleMint, PaidRun, Paid, PriceKept, ElapsedAccruals;
    PaidRunEnds(rate);
    PurchaseLowersPrice(Run(Initial(0), PaidRun(rate)).value, rate);
    AppendCall(Initial(0), PaidRun(rate), Tick(1, rate), SettleMintCall(1, 1, 0, -1, Deployed));
  }
}
