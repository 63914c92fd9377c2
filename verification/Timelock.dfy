/** The guardian's unlock timelock: its calls as steps, and what holds over every run of them. */
module Timelock {
  import opened Results

  const UNLOCK_DELAY: nat := 3600

  type Address = nat

  type Pool = nat

  /** `resolves`: the risk engine resolves the builder code to a deployed wallet whose admin is the caller. */
  datatype Action =
    | Lock(pool: Pool)
    | LockAsBuilder(pool: Pool, builderCode: nat, resolves: bool)
    | Request(pool: Pool)
    | Execute(pool: Pool)
    | Cancel(pool: Pool)
    | SetBuilderRevoked(account: Address, revoked: bool)

  datatype Call = Call(time: nat, sender: Address, action: Action)

  /** `locked` are the pools whose oracle carries a forced lock; only the guardian's engines change it. */
  datatype Guardian = Guardian(admin: Address, unlockEta: map<Pool, nat>, builderRevoked: map<Address, bool>,
                               locked: set<Pool>)

  function EtaOf(g: Guardian, pool: Pool): nat {
    if pool in g.unlockEta then g.unlockEta[pool] else 0
  }

  predicate IsRevoked(g: Guardian, account: Address) {
    account in g.builderRevoked && g.builderRevoked[account]
  }

  function Initial(admin: Address): Guardian {
    Guardian(admin, map[], map[], {})
  }

  function Step(g: Guardian, c: Call): Result<Guardian> {
    match c.action
    case Lock(pool) =>
      var _ :- Need(c.sender == g.admin, NotGuardianAdmin);
      var cleared := if EtaOf(g, pool) != 0 then g.unlockEta[pool := 0] else g.unlockEta;
      Ok(g.(unlockEta := cleared, locked := g.locked + {pool}))
    case LockAsBuilder(pool, code, resolves) =>
      var _ :- Need(c.sender != 0 && code != 0 && !IsRevoked(g, c.sender) && resolves, NotAuthorizedBuilder);
      Ok(g.(locked := g.locked + {pool}))
    case Request(pool) =>
      var _ :- Need(c.sender == g.admin, NotGuardianAdmin);
      var _ :- Need(EtaOf(g, pool) == 0, UnlockAlreadyPending);
      var _ :- Need(pool in g.locked, PoolNotLocked);
      Ok(g.(unlockEta := g.unlockEta[pool := c.time + UNLOCK_DELAY]))
    case Execute(pool) =>
      var _ :- Need(c.sender == g.admin, NotGuardianAdmin);
      var _ :- Need(EtaOf(g, pool) != 0, NoPendingUnlock);
      var _ :- Need(c.time >= EtaOf(g, pool), UnlockNotReady);
      Ok(g.(unlockEta := g.unlockEta[pool := 0], locked := g.locked - {pool}))
    case Cancel(pool) =>
      var _ :- Need(c.sender == g.admin, NotGuardianAdmin);
      var _ :- Need(EtaOf(g, pool) != 0, NoPendingUnlock);
      Ok(g.(unlockEta := g.unlockEta[pool := 0]))
    case SetBuilderRevoked(account, revoked) =>
      var _ :- Need(c.sender == g.admin, NotGuardianAdmin);
      var _ :- Need(account != 0, ZeroAddress);
      Ok(g.(builderRevoked := g.builderRevoked[account := revoked]))
  }

  /** A run of successful calls. */
  function Run(g: Guardian, calls: seq<Call>): Result<Guardian> {
    if calls == [] then Ok(g)
    else
      var before :- Run(g, calls[..|calls| - 1]);
      Step(before, calls[|calls| - 1])
  }

  lemma {:induction false} RunPrefix(g: Guardian, calls: seq<Call>, n: nat)
    requires Run(g, calls).Ok? && n <= |calls|
    ensures Run(g, calls[..n]).Ok?
    ensures n > 0 ==>
      Run(g, calls[..n - 1]).Ok?
      && Run(g, calls[..n]) == Step(Run(g, calls[..n - 1]).value, calls[n - 1])
  {
    if n < |calls| {
      RunPrefix(g, calls[..|calls| - 1], n);
      assert calls[..|calls| - 1][..n] == calls[..n];
      assert n > 0 ==> calls[..|calls| - 1][..n - 1] == calls[..n - 1];
    } else {
      assert calls[..n] == calls;
    }
  }

  // ---------- when an unlock is pending ----------

  /** Calls that end a pending unlock of `pool`. */
  predicate Ends(c: Call, pool: Pool) {
    c.action == Lock(pool) || c.action == Cancel(pool) || c.action == Execute(pool)
  }

  /** The request that is pending after a run, if one is. */
  function Pending(calls: seq<Call>, pool: Pool): (r: Option<nat>)
    ensures r.Some? ==> r.value < |calls|
  {
    if calls == [] then None
    else
      var last := calls[|calls| - 1];
      if last.action == Request(pool) then Some(|calls| - 1)
      else if Ends(last, pool) then None
      else Pending(calls[..|calls| - 1], pool)
  }

  /** It is a request, and no later call requests, executes, cancels or, as admin, locks. */
  lemma {:induction false} PendingIsOpen(calls: seq<Call>, pool: Pool)
    ensures match Pending(calls, pool)
            case Some(j) =>
              && calls[j].action == Request(pool)
              && forall k :: j < k < |calls| ==> !Ends(calls[k], pool) && calls[k].action != Request(pool)
            case None => true
  {
    if calls != [] {
      PendingIsOpen(calls[..|calls| - 1], pool);
    }
  }

  /** The stored time tells exactly which request is pending, and a pool with a pending unlock is locked. */
  lemma {:induction false} EtaIsPending(admin: Address, calls: seq<Call>, g: Guardian, pool: Pool)
    requires Run(Initial(admin), calls) == Ok(g)
    ensures g.admin == admin
    ensures EtaOf(g, pool) == (match Pending(calls, pool) case Some(j) => calls[j].time + 3600 case None => 0)
    ensures EtaOf(g, pool) != 0 ==> pool in g.locked
  {
    if calls != [] {
      EtaIsPending(admin, calls[..|calls| - 1], Run(Initial(admin), calls[..|calls| - 1]).value, pool);
    }
  }

  // ---------- over every run ----------

  /** Every executed unlock was requested at least the delay before, by the admin, with no admin lock,
      cancellation, execution or second request in between. */
  lemma ExecutionsWereRequested(admin: Address, calls: seq<Call>, i: nat, pool: Pool) returns (j: nat)
    requires Run(Initial(admin), calls).Ok? && i < |calls| && calls[i].action == Execute(pool)
    ensures j < i && calls[j] == Call(calls[j].time, admin, Request(pool)) && calls[i].sender == admin
    ensures calls[j].time + 3600 <= calls[i].time
    ensures forall k :: j < k < i ==> !Ends(calls[k], pool) && calls[k].action != Request(pool)
  {
    RunPrefix(Initial(admin), calls, i + 1);
    assert calls[..i + 1][..i] == calls[..i];
    var before := Run(Initial(admin), calls[..i]).value;
    EtaIsPending(admin, calls[..i], before, pool);
    PendingIsOpen(calls[..i], pool);
    j := Pending(calls[..i], pool).value;
    RunPrefix(Initial(admin), calls, j + 1);
    EtaIsPending(admin, calls[..j], Run(Initial(admin), calls[..j]).value, pool);
    forall k | j < k < i
      ensures !Ends(calls[k], pool) && calls[k].action != Request(pool)
    {
      assert calls[..i][k] == calls[k];
    }
  }

  ghost predicate InOrder(calls: seq<Call>) {
    forall i, j :: 0 <= i <= j < |calls| ==> calls[i].time <= calls[j].time
  }

  lemma LeavesLock(g: Guardian, c: Call, pool: Pool)
    requires Step(g, c).Ok? && pool in g.locked && pool !in Step(g, c).value.locked
    ensures c.action == Execute(pool)
  {
  }

  /** A pool only comes out of the lock by an executed unlock. */
  lemma {:induction false} UnlockedByExecution(admin: Address, calls: seq<Call>, i: nat, n: nat, pool: Pool)
    returns (m: nat)
    requires Run(Initial(admin), calls).Ok? && i < n <= |calls|
    requires Run(Initial(admin), calls[..i]).Ok? && pool in Run(Initial(admin), calls[..i]).value.locked
    requires Run(Initial(admin), calls[..n]).Ok? && pool !in Run(Initial(admin), calls[..n]).value.locked
    ensures i <= m < n && calls[m].action == Execute(pool)
  {
    RunPrefix(Initial(admin), calls, n);
    hide Run, Step, Initial;
    if pool in Run(Initial(admin), calls[..n - 1]).value.locked {
      LeavesLock(Run(Initial(admin), calls[..n - 1]).value, calls[n - 1], pool);
      m := n - 1;
    } else {
      m := UnlockedByExecution(admin, calls, i, n - 1, pool);
    }
  }

  /** After the admin locks a pool, it stays locked for at least the delay, whatever else is called. */
  lemma LockHoldsForTheDelay(admin: Address, calls: seq<Call>, i: nat, n: nat, pool: Pool)
    requires Run(Initial(admin), calls).Ok? && InOrder(calls) && i < n <= |calls| && calls[i].action == Lock(pool)
    requires calls[n - 1].time < calls[i].time + 3600
    ensures Run(Initial(admin), calls[..n]).Ok? && pool in Run(Initial(admin), calls[..n]).value.locked
  {
    RunPrefix(Initial(admin), calls, n);
    RunPrefix(Initial(admin), calls, i + 1);
    assert Ends(calls[i], pool);
    if i + 1 < n && pool !in Run(Initial(admin), calls[..n]).value.locked {
      var m := UnlockedByExecution(admin, calls, i + 1, n, pool);
      var j := ExecutionsWereRequested(admin, calls, m, pool);
    }
  }

  /** A builder's lock cannot delay an unlock: the schedule is untouched, and an execution that was possible
      before it is possible after it. */
  lemma BuildersCannotDelay(g: Guardian, lock: Call, execute: Call)
    requires lock.action.LockAsBuilder? && execute.action.Execute? && Step(g, lock).Ok?
    ensures Step(g, lock).value.unlockEta == g.unlockEta
    ensures Step(g, execute).Ok? <==> Step(Step(g, lock).value, execute).Ok?
  {
  }

  // ---------- when a call succeeds ----------

  /** Whether the last call that locked or unlocked a pool locked it. */
  function IsLockedBy(calls: seq<Call>, pool: Pool): bool {
    if calls == [] then false
    else
      match calls[|calls| - 1].action
      case Lock(p) => p == pool || IsLockedBy(calls[..|calls| - 1], pool)
      case LockAsBuilder(p, _, _) => p == pool || IsLockedBy(calls[..|calls| - 1], pool)
      case Execute(p) => p != pool && IsLockedBy(calls[..|calls| - 1], pool)
      case _ => IsLockedBy(calls[..|calls| - 1], pool)
  }

  /** Whether the last call about a builder admin revoked it. */
  function IsRevokedBy(calls: seq<Call>, account: Address): bool {
    if calls == [] then false
    else
      match calls[|calls| - 1].action
      case SetBuilderRevoked(who, revoked) =>
        if who == account then revoked else IsRevokedBy(calls[..|calls| - 1], account)
      case _ => IsRevokedBy(calls[..|calls| - 1], account)
  }

  lemma {:induction false} StateIsHistory(admin: Address, calls: seq<Call>, g: Guardian)
    requires Run(Initial(admin), calls) == Ok(g)
    ensures g.admin == admin
    ensures forall pool :: pool in g.locked <==> IsLockedBy(calls, pool)
    ensures forall account :: IsRevoked(g, account) <==> IsRevokedBy(calls, account)
  {
    if calls != [] {
      StateIsHistory(admin, calls[..|calls| - 1], Run(Initial(admin), calls[..|calls| - 1]).value);
    }
  }

  /** What a call needs after a run: only the admin locks, requests, executes, cancels and revokes; a request needs a
      locked pool and no other request pending; an execution an hour since the pending request; a builder's lock an
      account that is not revoked, and a code that resolves to it. */
  predicate MayCall(admin: Address, calls: seq<Call>, c: Call) {
    match c.action
    case Lock(_) => c.sender == admin
    case LockAsBuilder(_, code, resolves) => c.sender != 0 && code != 0 && resolves && !IsRevokedBy(calls, c.sender)
    case Request(pool) => c.sender == admin && Pending(calls, pool).None? && IsLockedBy(calls, pool)
    case Execute(pool) =>
      var pending := Pending(calls, pool);
      c.sender == admin && pending.Some? && calls[pending.value].time + 3600 <= c.time
    case Cancel(pool) => c.sender == admin && Pending(calls, pool).Some?
    case SetBuilderRevoked(account, _) => c.sender == admin && account != 0
  }

  lemma SucceedsExactly(admin: Address, calls: seq<Call>, g: Guardian, c: Call)
    requires Run(Initial(admin), calls) == Ok(g)
    ensures Step(g, c).Ok? <==> MayCall(admin, calls, c)
  {
    StateIsHistory(admin, calls, g);
    if c.action.Request? || c.action.Execute? || c.action.Cancel? {
      EtaIsPending(admin, calls, g, c.action.pool);
    }
    hide Run, Pending, IsLockedBy, IsRevokedBy;
  }
}
