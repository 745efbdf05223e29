/** The wei that a journal shows, over the database under it: no operation of a contract adds to it, so
    with all wei in range no transfer can overflow its receiver. */
module Wealth {
  import opened Wrappers
  import opened Journal
  import opened JournalOps
  import opened JournalRuns
  import opened JournalEffects
  import opened Frames
  import L = Ledger

  ghost function Purse(db: Db, j: Journal): L.Ledger {
    map a | a in db.accounts.Keys + j.state.Keys :: ViewOf(db, j, a).info.balance as nat
  }

  ghost function TotalWei(db: Db, j: Journal): nat {
    L.Supply(Purse(db, j))
  }

  function Wei(db: Db, j: Journal, a: Address): nat {
    ViewOf(db, j, a).info.balance
  }

  lemma PurseBalance(db: Db, j: Journal, a: Address)
    ensures L.BalanceOf(Purse(db, j), a) == Wei(db, j, a)
  {
  }

  ghost predicate SameWei(db: Db, j: Journal, j': Journal) {
    forall a :: Wei(db, j', a) == Wei(db, j, a)
  }

  lemma WealthSame(db: Db, j: Journal, j': Journal)
    requires SameWei(db, j, j')
    ensures TotalWei(db, j') == TotalWei(db, j)
  {
    forall a
      ensures L.BalanceOf(Purse(db, j), a) == L.BalanceOf(Purse(db, j'), a)
    {
      PurseBalance(db, j, a);
      PurseBalance(db, j', a);
      assert Wei(db, j', a) == Wei(db, j, a);
    }
    L.SupplyExt(Purse(db, j), Purse(db, j'));
  }

  lemma WealthSameWorld(db: Db, j: Journal, j': Journal)
    requires SameWorld(db, j, j')
    ensures TotalWei(db, j') == TotalWei(db, j)
  {
    forall a
      ensures Wei(db, j', a) == Wei(db, j, a)
    {
      assert ViewOf(db, j, a) == ViewOf(db, j', a);
    }
    WealthSame(db, j, j');
  }

  /** `v` has gone from one account to another, which may be the same. */
  ghost predicate Moved(db: Db, j: Journal, j': Journal, from: Address, to: Address, v: nat) {
    forall a :: Wei(db, j', a) == Wei(db, j, a) - (if a == from then v else 0) + (if a == to then v else 0)
  }

  lemma WealthMoved(db: Db, j: Journal, j': Journal, from: Address, to: Address, v: nat)
    requires Moved(db, j, j', from, to, v)
    ensures TotalWei(db, j') == TotalWei(db, j)
  {
    if from == to {
      forall a
        ensures Wei(db, j', a) == Wei(db, j, a)
      {
      }
      WealthSame(db, j, j');
    } else {
      var p := Purse(db, j);
      PurseBalance(db, j, from);
      PurseBalance(db, j, to);
      assert Wei(db, j', from) == Wei(db, j, from) - v;
      assert Wei(db, j', to) == Wei(db, j, to) + v;
      var p1 := L.SetBalance(p, from, Wei(db, j', from));
      L.SupplySet(p, from, Wei(db, j', from));
      var p2 := L.SetBalance(p1, to, Wei(db, j', to));
      L.SupplySet(p1, to, Wei(db, j', to));
      forall a
        ensures L.BalanceOf(p2, a) == L.BalanceOf(Purse(db, j'), a)
      {
        PurseBalance(db, j, a);
        PurseBalance(db, j', a);
        assert Wei(db, j', a) == Wei(db, j, a) - (if a == from then v else 0) + (if a == to then v else 0);
      }
      L.SupplyExt(p2, Purse(db, j'));
    }
  }

  /** An account has lost its wei. */
  lemma WealthBurned(db: Db, j: Journal, j': Journal, b: Address)
    requires forall a :: Wei(db, j', a) == if a == b then 0 else Wei(db, j, a)
    ensures TotalWei(db, j') <= TotalWei(db, j)
  {
    var p := Purse(db, j);
    PurseBalance(db, j, b);
    L.SupplySet(p, b, 0);
    forall a
      ensures L.BalanceOf(L.SetBalance(p, b, 0), a) == L.BalanceOf(Purse(db, j'), a)
    {
      PurseBalance(db, j, a);
      PurseBalance(db, j', a);
      assert Wei(db, j', a) == if a == b then 0 else Wei(db, j, a);
    }
    L.SupplyExt(L.SetBalance(p, b, 0), Purse(db, j'));
  }

  lemma WeiOfTwo(db: Db, j: Journal, a: Address, b: Address)
    requires a != b
    ensures Wei(db, j, a) + Wei(db, j, b) <= TotalWei(db, j)
  {
    PurseBalance(db, j, a);
    PurseBalance(db, j, b);
    L.SupplyOfTwo(Purse(db, j), a, b);
  }

  /** There is less wei than `cap`, and so little that all of it fits a balance. */
  ghost predicate InRange(cap: nat, db: Db, j: Journal) {
    TotalWei(db, j) < cap <= U256_MODULUS
  }

  /** Then no transfer overflows. */
  lemma NoOverflow(cap: nat, db: Db, j: Journal, from: Address, to: Address, v: U256)
    requires InRange(cap, db, j) && Loaded(j, from) && Loaded(j, to)
    ensures !Overflows(j, from, to, v)
  {
    if from != to {
      WeiOfTwo(db, j, from, to);
    }
  }

  // ---------- Operations ----------

  lemma LoadWealth(db: Db, j: Journal, b: Address)
    requires Inv(db, j) && LoadOk(j, b)
    ensures TotalWei(db, LoadAccount(db, j, b).0) == TotalWei(db, j)
  {
    var j' := LoadAccount(db, j, b).0;
    forall a
      ensures Wei(db, j', a) == Wei(db, j, a)
    {
      LoadEffect(db, j, b, a, 0);
    }
    WealthSame(db, j, j');
  }

  lemma StorageWealth(db: Db, j: Journal, op: HostOp)
    requires Enabled(db, j, op) && SoundOp(db, j, op) && (op.OpSload? || op.OpSstore?)
    ensures TotalWei(db, Perform(db, j, op)) == TotalWei(db, j)
  {
    var j' := Perform(db, j, op);
    forall a
      ensures Wei(db, j', a) == Wei(db, j, a)
    {
      if op.OpSload? {
        SloadEffect(db, j, op.a, op.k, a, 0);
      } else {
        SstoreEffect(db, j, op.a, op.k, op.v, a, 0);
      }
    }
    WealthSame(db, j, j');
  }

  lemma SelfdestructWealth(cap: nat, db: Db, j: Journal, b: Address, target: Address)
    requires Inv(db, j) && InRange(cap, db, j) && Loaded(j, b) && LoadOk(j, target)
    ensures TotalWei(db, Selfdestruct(db, j, b, target)) <= TotalWei(db, j)
  {
    var j' := Selfdestruct(db, j, b, target);
    forall a
      ensures ViewOf(db, j', a).info == AfterSelfdestruct(db, j, b, target, a)
    {
      SelfdestructEffect(db, j, b, target, a);
    }
    SelfdestructWei(cap, db, j, j', b, target);
  }

  lemma SelfdestructWei(cap: nat, db: Db, j: Journal, j': Journal, b: Address, target: Address)
    requires InRange(cap, db, j) && forall a :: ViewOf(db, j', a).info == AfterSelfdestruct(db, j, b, target, a)
    ensures TotalWei(db, j') <= TotalWei(db, j)
  {
    if b != target {
      WeiOfTwo(db, j, b, target);
      forall a
        ensures Wei(db, j', a)
                == Wei(db, j, a) - (if a == b then Wei(db, j, b) else 0) + (if a == target then Wei(db, j, b) else 0)
      {
        assert ViewOf(db, j', a).info == AfterSelfdestruct(db, j, b, target, a);
      }
      WealthMoved(db, j, j', b, target, Wei(db, j, b));
    } else if Destroys(db, j, b) {
      forall a
        ensures Wei(db, j', a) == if a == b then 0 else Wei(db, j, a)
      {
        assert ViewOf(db, j', a).info == AfterSelfdestruct(db, j, b, target, a);
      }
      WealthBurned(db, j, j', b);
    } else {
      forall a
        ensures Wei(db, j', a) == Wei(db, j, a)
      {
        assert ViewOf(db, j', a).info == AfterSelfdestruct(db, j, b, target, a);
      }
      WealthSame(db, j, j');
    }
  }

  /** No host operation makes wei. */
  lemma PerformWealth(cap: nat, db: Db, j: Journal, op: HostOp)
    requires Inv(db, j) && InRange(cap, db, j) && SoundOp(db, j, op)
    ensures TotalWei(db, Perform(db, j, op)) <= TotalWei(db, j)
  {
    if Enabled(db, j, op) {
      match op
      case OpLoad(b) =>
        LoadableOk(db, j, b);
        LoadWealth(db, j, b);
      case OpSelfdestruct(b, target) =>
        LoadableOk(db, j, target);
        SelfdestructWealth(cap, db, j, b, target);
      case OpTstore(b, k, v) =>
        TstoreEffect(j, b, k, v, b, k);
        WealthFrame(db, j, Perform(db, j, op));
      case OpLog(_) => WealthFrame(db, j, Perform(db, j, op));
      case _ => StorageWealth(db, j, op);
    }
  }

  lemma WealthFrame(db: Db, j: Journal, j': Journal)
    requires j'.state == j.state && j'.cfg == j.cfg
    ensures TotalWei(db, j') == TotalWei(db, j)
  {
    forall a
      ensures Wei(db, j', a) == Wei(db, j, a)
    {
    }
    WealthSame(db, j, j');
  }

  lemma TransferWealth(db: Db, j: Journal, from: Address, to: Address, v: U256)
    requires Loaded(j, from) && Loaded(j, to) && TransferLoaded(j, from, to, v).1.None?
    ensures TotalWei(db, TransferLoaded(j, from, to, v).0) == TotalWei(db, j)
  {
    var j' := TransferLoaded(j, from, to, v).0;
    TransferFails(j, from, to, v);
    forall a
      ensures Wei(db, j', a) == Wei(db, j, a) - (if a == from then v else 0) + (if a == to then v else 0)
    {
      TransferEffect(j, from, to, v, a);
    }
    WealthMoved(db, j, j', from, to, v);
  }

  lemma BumpWealth(db: Db, j: Journal, b: Address)
    requires Loaded(j, b)
    ensures TotalWei(db, BumpNonce(j, b).0) == TotalWei(db, j)
  {
    var j' := BumpNonce(j, b).0;
    forall a
      ensures Wei(db, j', a) == Wei(db, j, a)
    {
      TouchKeepsInfo(j, b, a);
    }
    WealthSame(db, j, j');
  }

  lemma InstallWealth(db: Db, j: Journal, b: Address, code: Hash)
    ensures TotalWei(db, Install(j, b, code)) == TotalWei(db, j)
  {
    var j' := Install(j, b, code);
    forall a
      ensures Wei(db, j', a) == Wei(db, j, a)
    {
      if b in j.state {
        TouchKeepsInfo(j, b, a);
      }
    }
    WealthSame(db, j, j');
  }

  lemma CreateWealth(db: Db, j: Journal, caller: Address, target: Address, v: U256)
    requires Loaded(j, caller) && Loaded(j, target) && v <= j.state[caller].info.balance
    requires CreateAccountCheckpoint(j, caller, target, v).2.None?
    ensures TotalWei(db, CreateAccountCheckpoint(j, caller, target, v).0) == TotalWei(db, j)
  {
    var j' := CreateAccountCheckpoint(j, caller, target, v).0;
    forall a
      ensures Wei(db, j', a) == Wei(db, j, a) - (if a == caller then v else 0) + (if a == target then v else 0)
    {
      CreateEffect(j, caller, target, v, a);
    }
    WealthMoved(db, j, j', caller, target, v);
  }
}
