/** The guardian as the contract keeps it, and the engine it locks pools through. */
module PanopticGuardian {
  import opened Results
  import opened Timelock

  class RiskEngine {
    var locked: set<Pool>

    constructor ()
      ensures locked == {}
    {
      locked := {};
    }

    method LockPool(pool: Pool)
      modifies this
      ensures locked == old(locked) + {pool}
    {
      locked := locked + {pool};
    }

    method UnlockPool(pool: Pool)
      modifies this
      ensures locked == old(locked) - {pool}
    {
      locked := locked - {pool};
    }
  }

  class PanopticGuardian {
    const admin: Address
    const engine: RiskEngine
    var builderAdminRevoked: map<Address, bool>
    var unlockEta: map<Pool, nat>

    ghost var history: seq<Call>

    function View(): Guardian
      reads this, engine
    {
      Guardian(admin, unlockEta, builderAdminRevoked, engine.locked)
    }

    /** The state is the outcome of the calls that succeeded. */
    ghost predicate Valid()
      reads this, engine
    {
      Run(Timelock.Initial(admin), history) == Ok(View())
    }

    constructor (admin: Address)
      requires admin != 0
      ensures Valid() && this.admin == admin && fresh(engine) && history == []
    {
      this.admin := admin;
      builderAdminRevoked, unlockEta, history := map[], map[], [];
      engine := new RiskEngine();
    }

    /** From `before`, reached by `calls`, call `c` did what its step says, or changed nothing. */
    ghost predicate Did(before: Guardian, calls: seq<Call>, c: Call, r: Result<()>)
      reads this, engine
    {
      match Step(before, c)
      case Ok(g) => r.Ok? && View() == g && history == calls + [c]
      case Revert(e) => r == Revert(e) && View() == before && history == calls
    }

    lemma Recorded(c: Call, before: Guardian, calls: seq<Call>)
      requires Run(Timelock.Initial(admin), calls) == Ok(before) && history == calls + [c]
               && Step(before, c) == Ok(View())
      ensures Valid()
    {
      assert (calls + [c])[..|calls|] == calls;
    }

    method ClearPendingUnlock(pool: Pool)
      modifies `unlockEta
      ensures unlockEta == if EtaOf(old(View()), pool) != 0 then old(unlockEta)[pool := 0] else old(unlockEta)
    {
      if pool in unlockEta && unlockEta[pool] != 0 {
        unlockEta := unlockEta[pool := 0];
      }
    }

    method LockPool(pool: Pool, now: nat, sender: Address) returns (r: Result<()>)
      requires Valid()
      modifies this, engine
      ensures Valid() && Did(old(View()), old(history), Call(now, sender, Lock(pool)), r)
    {
      var _ :- Need(sender == admin, NotGuardianAdmin);
      ghost var before, calls := View(), history;
      ClearPendingUnlock(pool);
      engine.LockPool(pool);
      history := history + [Call(now, sender, Lock(pool))];
      Recorded(Call(now, sender, Lock(pool)), before, calls);
      return Ok(());
    }

    /** Deliberately leaves a pending unlock alone. */
    method LockPoolAsBuilder(pool: Pool, builderCode: nat, resolves: bool, now: nat, sender: Address)
      returns (r: Result<()>)
      requires Valid()
      modifies this, engine
      ensures Valid()
      ensures Did(old(View()), old(history), Call(now, sender, LockAsBuilder(pool, builderCode, resolves)), r)
    {
      var revoked := sender in builderAdminRevoked && builderAdminRevoked[sender];
      var _ :- Need(sender != 0 && builderCode != 0 && !revoked && resolves, NotAuthorizedBuilder);
      ghost var before, calls := View(), history;
      engine.LockPool(pool);
      history := history + [Call(now, sender, LockAsBuilder(pool, builderCode, resolves))];
      Recorded(Call(now, sender, LockAsBuilder(pool, builderCode, resolves)), before, calls);
      return Ok(());
    }

    method RequestUnlock(pool: Pool, now: nat, sender: Address) returns (r: Result<()>)
      requires Valid()
      modifies this, engine
      ensures Valid() && Did(old(View()), old(history), Call(now, sender, Request(pool)), r)
    {
      var _ :- Need(sender == admin, NotGuardianAdmin);
      var _ :- Need(pool !in unlockEta || unlockEta[pool] == 0, UnlockAlreadyPending);
      var _ :- Need(pool in engine.locked, PoolNotLocked);
      ghost var before, calls := View(), history;
      var eta := now + UNLOCK_DELAY;
      unlockEta := unlockEta[pool := eta];
      history := history + [Call(now, sender, Request(pool))];
      Recorded(Call(now, sender, Request(pool)), before, calls);
      return Ok(());
    }

    method ExecuteUnlock(pool: Pool, now: nat, sender: Address) returns (r: Result<()>)
      requires Valid()
      modifies this, engine
      ensures Valid() && Did(old(View()), old(history), Call(now, sender, Execute(pool)), r)
    {
      var _ :- Need(sender == admin, NotGuardianAdmin);
      var eta := if pool in unlockEta then unlockEta[pool] else 0;
      var _ :- Need(eta != 0, NoPendingUnlock);
      var _ :- Need(now >= eta, UnlockNotReady);
      ghost var before, calls := View(), history;
      unlockEta := unlockEta[pool := 0];
      engine.UnlockPool(pool);
      history := history + [Call(now, sender, Execute(pool))];
      Recorded(Call(now, sender, Execute(pool)), before, calls);
      return Ok(());
    }

    method CancelUnlock(pool: Pool, now: nat, sender: Address) returns (r: Result<()>)
      requires Valid()
      modifies this, engine
      ensures Valid() && Did(old(View()), old(history), Call(now, sender, Cancel(pool)), r)
    {
      var _ :- Need(sender == admin, NotGuardianAdmin);
      var _ :- Need(pool in unlockEta && unlockEta[pool] != 0, NoPendingUnlock);
      ghost var before, calls := View(), history;
      unlockEta := unlockEta[pool := 0];
      history := history + [Call(now, sender, Cancel(pool))];
      Recorded(Call(now, sender, Cancel(pool)), before, calls);
      return Ok(());
    }

    method SetBuilderAdminRevoked(account: Address, revoked: bool, now: nat, sender: Address) returns (r: Result<()>)
      requires Valid()
      modifies this, engine
      ensures Valid() && Did(old(View()), old(history), Call(now, sender, SetBuilderRevoked(account, revoked)), r)
    {
      var _ :- Need(sender == admin, NotGuardianAdmin);
      var _ :- Need(account != 0, ZeroAddress);
      ghost var before, calls := View(), history;
      builderAdminRevoked := builderAdminRevoked[account := revoked];
      history := history + [Call(now, sender, SetBuilderRevoked(account, revoked))];
      Recorded(Call(now, sender, SetBuilderRevoked(account, revoked)), before, calls);
      return Ok(());
    }

    /** Whether an execution would succeed now, as far as the schedule goes. */
    method IsPoolUnlockReady(pool: Pool, now: nat) returns (ready: bool)
      ensures ready <==> Step(View(), Call(now, admin, Execute(pool))).Ok?
    {
      var eta := if pool in unlockEta then unlockEta[pool] else 0;
      return eta != 0 && now >= eta;
    }

    /** A pool with a pending unlock is locked, and its time is that of the open request. */
    lemma PendingPoolsAreLocked(pool: Pool)
      requires Valid()
      ensures EtaOf(View(), pool)
              == (match Pending(history, pool) case Some(j) => history[j].time + 3600 case None => 0)
      ensures EtaOf(View(), pool) != 0 ==> pool in engine.locked
    {
      EtaIsPending(admin, history, View(), pool);
    }
  }
}
