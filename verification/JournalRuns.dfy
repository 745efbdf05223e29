/** Checkpoints over whole stretches of execution: what reverting to a checkpoint gives back after
    any sequence of journal operations, and exactly where the source falls short of that. */
module JournalRuns {
  import opened Wrappers
  import opened Journal
  import opened JournalOps

  // ---------- Any number of host operations ----------

  /** The journal operations an executing contract can cause. */
  datatype HostOp =
    | OpLoad(a: Address)
    | OpSload(a: Address, k: Key)
    | OpSstore(a: Address, k: Key, v: U256)
    | OpTstore(a: Address, k: Key, v: U256)
    | OpLog(log: nat)
    | OpSelfdestruct(a: Address, target: Address)

  /** Storage and selfdestruct act on the executing account, which is loaded and, as `Markable` says of the
      first transaction, warm. */
  predicate Enabled(db: Db, j: Journal, op: HostOp) {
    match op
    case OpSload(a, _) => Loaded(j, a)
    case OpSstore(a, _, _) => Loaded(j, a)
    case OpSelfdestruct(a, _) => Markable(db, j, a)
    case _ => true
  }

  /** The load takes no marks away, which it never does in the first transaction of a journal. */
  predicate Loadable(j: Journal, a: Address) {
    j.cfg.txId == 0 || LoadOk(j, a)
  }

  /** The operation loads no account whose marks the load would take away, and first sees no slot of a
      created account for which the database holds a value. */
  predicate SoundOp(db: Db, j: Journal, op: HostOp) {
    match op
    case OpLoad(a) => Loadable(j, a)
    case OpSload(a, k) => Loaded(j, a) ==> SlotOk(db, j, a, k)
    case OpSstore(a, k, _) => Loaded(j, a) ==> SlotOk(db, j, a, k)
    case OpSelfdestruct(_, target) => Loadable(j, target)
    case _ => true
  }

  lemma LoadableOk(db: Db, j: Journal, a: Address)
    requires Inv(db, j) && Loadable(j, a)
    ensures LoadOk(j, a)
  {
    if j.cfg.txId == 0 {
      FirstLoadsOk(db, j, a);
    }
  }

  /** The source panics on an operation that is not enabled; here it is skipped. */
  function Perform(db: Db, j: Journal, op: HostOp): Journal {
    if !Enabled(db, j, op) then j
    else
      match op
      case OpLoad(a) => LoadAccount(db, j, a).0
      case OpSload(a, k) => Sload(db, j, a, k).0
      case OpSstore(a, k, v) => Sstore(db, j, a, k, v)
      case OpTstore(a, k, v) => Tstore(j, a, k, v)
      case OpLog(log) => Log(j, log)
      case OpSelfdestruct(a, target) => Selfdestruct(db, j, a, target)
  }

  function PerformAll(db: Db, j: Journal, ops: seq<HostOp>): Journal
    decreases |ops|
  {
    if ops == [] then j else PerformAll(db, Perform(db, j, ops[0]), ops[1..])
  }

  predicate SoundOps(db: Db, j: Journal, ops: seq<HostOp>)
    decreases |ops|
  {
    ops == [] || (SoundOp(db, j, ops[0]) && SoundOps(db, Perform(db, j, ops[0]), ops[1..]))
  }

  lemma PerformUndoes(db: Db, j: Journal, op: HostOp)
    requires Inv(db, j) && SoundOp(db, j, op)
    ensures Undoes(db, j, Perform(db, j, op))
  {
    if !Enabled(db, j, op) {
      UndoesReflexive(db, j);
    } else {
      match op
      case OpLoad(a) =>
        LoadableOk(db, j, a);
        LoadAccountUndoes(db, j, a);
      case OpSload(a, k) => SloadUndoes(db, j, a, k);
      case OpSstore(a, k, v) => SstoreUndoes(db, j, a, k, v);
      case OpTstore(a, k, v) => TstoreUndoes(db, j, a, k, v);
      case OpLog(log) => LogUndoes(db, j, log);
      case OpSelfdestruct(a, target) =>
        LoadableOk(db, j, target);
        SelfdestructUndoes(db, j, a, target);
    }
  }

  /** Every run of sound host operations can be taken back. */
  lemma {:induction false} PerformAllUndoes(db: Db, j: Journal, ops: seq<HostOp>)
    requires Inv(db, j) && SoundOps(db, j, ops)
    ensures Undoes(db, j, PerformAll(db, j, ops))
    decreases |ops|
  {
    if ops == [] {
      UndoesReflexive(db, j);
    } else {
      var j1 := Perform(db, j, ops[0]);
      PerformUndoes(db, j, ops[0]);
      PerformAllUndoes(db, j1, ops[1..]);
      UndoesTransitive(db, j, j1, PerformAll(db, j1, ops[1..]));
    }
  }

  // ---------- Checkpoints ----------

  lemma {:induction false} RevertEntriesFrame(j: Journal, n: nat, logs: seq<nat>, depth: nat)
    ensures RevertEntries(j.(logs := logs, depth := depth), n) == RevertEntries(j, n).(logs := logs, depth := depth)
    decreases |j.entries|
  {
    if |j.entries| > n {
      var last := |j.entries| - 1;
      var d := j.(entries := j.entries[..last]);
      RevertEntriesFrame(RevertEntry(j.entries[last], d), n, logs, depth);
    }
  }

  lemma InvFrame(db: Db, j: Journal, j': Journal)
    requires Inv(db, j) && j'.state == j.state && j'.transient == j.transient && j'.cfg == j.cfg
    requires j'.entries == j.entries
    ensures Inv(db, j')
  {
    forall a
      ensures FlagsOk(j'.cfg, a, ViewOf(db, j', a))
    {
      assert FlagsOk(j.cfg, a, ViewOf(db, j, a));
    }
  }

  /** As at the checkpoint: indistinguishable world, same undo log and same logs. */
  ghost predicate Restored(db: Db, at: Journal, j: Journal) {
    SameWorld(db, at, j) && j.entries == at.entries && j.logs == at.logs && Inv(db, j)
  }

  /** Reverting gives back the world of the checkpoint, whatever undoable steps came in between. */
  lemma RevertRestores(db: Db, at: Journal, j: Journal, cp: Checkpoint)
    requires Inv(db, at) && Undoes(db, at, j.(depth := at.depth))
    requires cp == Checkpoint(|at.logs|, |at.entries|)
    ensures Restored(db, at, RevertToCheckpoint(j, cp))
    ensures RevertToCheckpoint(j, cp).depth == if j.depth == 0 then 0 else j.depth - 1
  {
    var d := j.(depth := at.depth);
    var n := |at.entries|;
    var depth := if j.depth == 0 then 0 else j.depth - 1;
    var back := RevertEntries(d, n);
    RevertEntriesFrame(d, n, at.logs, depth);
    var r := RevertToCheckpoint(j, cp);
    assert j.logs[..|at.logs|] == at.logs && (|j.logs| == |at.logs| ==> j.logs == at.logs);
    assert j.(logs := at.logs, depth := depth) == d.(logs := at.logs, depth := depth);
    assert r == back.(logs := at.logs, depth := depth);
    SameWorldEntries(db, at, back, at, r);
    RevertEntriesRep(d, n);
    FlagInvSameWorld(db, at, back);
    InvFrame(db, back, r);
  }

  /** Undoing does not look at the call depth. */
  lemma UndoesDepth(db: Db, j: Journal, j': Journal, depth: nat)
    requires Undoes(db, j, j')
    ensures Undoes(db, j.(depth := depth), j'.(depth := depth))
  {
    var n := |j.entries|;
    RevertEntriesFrame(j', n, j'.logs, depth);
    assert j'.(depth := depth) == j'.(logs := j'.logs, depth := depth);
    var back := RevertEntries(j', n);
    SameWorldEntries(db, j, back, j.(depth := depth), back.(logs := j'.logs, depth := depth));
    InvFrame(db, j', j'.(depth := depth));
  }

  // ---------- Creating an account ----------

  /** What the source relies on when it marks an account as created: before Spurious Dragon, no second
      creation at the same address. */
  ghost predicate Creatable(db: Db, j: Journal, target: Address) {
    Markable(db, j, target) && (!j.cfg.spuriousDragon ==> !j.state[target].status.createdLocal)
  }

  lemma CreateMoveUndoes(db: Db, j: Journal, caller: Address, target: Address, v: U256)
    requires Inv(db, j) && Loaded(j, caller) && Loaded(j, target)
    ensures Undoes(db, j,
                   Push(j.(state := SubFrom(AddTo(j.state, target, v), caller, v)), BalanceTransfer(caller, target, v)))
  {
    WrapCancels(j.state[caller].info.balance, v);
    WrapCancels(j.state[target].info.balance, v);
    TransferStep(db, j, SubFrom(AddTo(j.state, target, v), caller, v), caller, target, v);
  }

  lemma MarkedAndTouchedUndoes(db: Db, j: Journal, target: Address)
    requires Inv(db, j) && Creatable(db, j, target) && !Collides(j, target)
    ensures Undoes(db, j, Touch(MarkCreated(j, target), target))
  {
    assert FlagsOk(j.cfg, target, ViewOf(db, j, target));
    MarkCreatedUndoes(db, j, target);
    var j1 := MarkCreated(j, target);
    TouchUndoes(db, j1, target);
    UndoesTransitive(db, j, j1, Touch(j1, target));
  }

  /** On success the steps since the checkpoint can be taken back; on failure they have been. */
  lemma CreateAccountRestores(db: Db, j: Journal, caller: Address, target: Address, v: U256)
    requires Inv(db, j) && Loaded(j, caller) && Loaded(j, target)
    requires Collides(j, target) || Creatable(db, j, target)
    ensures var (j', cp, err) := CreateAccountCheckpoint(j, caller, target, v);
            && cp == Checkpoint(|j.logs|, |j.entries|)
            && (err.None? ==> Undoes(db, j, j'.(depth := j.depth)) && j'.depth == j.depth + 1)
            && (err.Some? ==> Restored(db, j, j') && j'.depth == j.depth)
  {
    var j0 := TakeCheckpoint(j).0;
    var cp := TakeCheckpoint(j).1;
    InvFrame(db, j, j0);
    if Collides(j0, target) {
      UndoesReflexive(db, j);
      RevertRestores(db, j, j0, cp);
    } else {
      var j1 := Touch(MarkCreated(j0, target), target);
      MarkedAndTouchedUndoes(db, j0, target);
      UndoesDepth(db, j0, j1, j.depth);
      assert j0.(depth := j.depth) == j;
      if CreateAccountCheckpoint(j, caller, target, v).2.Some? {
        RevertRestores(db, j, j1, cp);
      } else {
        CreateMoveUndoes(db, j1, caller, target, v);
        var j2 := CreateAccountCheckpoint(j, caller, target, v).0;
        UndoesTransitive(db, j0, j1, j2);
        UndoesDepth(db, j0, j2, j.depth);
      }
    }
  }

  // ---------- Where taking back is not exact ----------

  predicate Overflows(j: Journal, from: Address, to: Address, v: U256)
    requires from in j.state && to in j.state
  {
    from != to && v != 0 && v <= j.state[from].info.balance && j.state[to].info.balance + v >= U256_MODULUS
  }

  lemma OverflowCase(j: Journal, from: Address, to: Address, v: U256)
    requires from in j.state && to in j.state
    ensures TransferLoaded(j, from, to, v).1 == Some(OverflowPayment) <==> Overflows(j, from, to, v)
    ensures Overflows(j, from, to, v) ==>
              TransferLoaded(j, from, to, v).0
              == var j2 := Touch(Touch(j, from), to); j2.(state := SubFrom(j2.state, from, v))
  {
    if from != to {
      TouchCommutes(Touch(j, from), from, to, v);
    }
  }

  /** A failed transfer followed by a revert restores the checkpoint exactly when the failure was not
      an overflow of the receiver: then the payer stays debited. */
  lemma FailedTransferRestored(db: Db, j: Journal, from: Address, to: Address, v: U256)
    requires Inv(db, j) && Loaded(j, from) && Loaded(j, to) && TransferLoaded(j, from, to, v).1.Some?
    ensures SameWorld(db, j, RevertEntries(TransferLoaded(j, from, to, v).0, |j.entries|))
            <==> !Overflows(j, from, to, v)
  {
    OverflowCase(j, from, to, v);
    if Overflows(j, from, to, v) {
      DebitSurvives(db, j, from, to, v);
    } else {
      TransferUndoes(db, j, from, to, v);
    }
  }

  lemma DebitSurvives(db: Db, j: Journal, from: Address, to: Address, v: U256)
    requires Inv(db, j) && Loaded(j, from) && Loaded(j, to) && Overflows(j, from, to, v)
    ensures var r := RevertEntries(TransferLoaded(j, from, to, v).0, |j.entries|);
            ViewOf(db, r, from).info.balance == ViewOf(db, j, from).info.balance - v
  {
    OverflowCase(j, from, to, v);
    var j' := TransferLoaded(j, from, to, v).0;
    TouchedTwice(j, from, to);
    OnlyTouchesKeepInfo(db, j', |j.entries|, from);
    TouchUndoes(db, j, from);
    TouchUndoes(db, Touch(j, from), to);
  }

  lemma TouchedTwice(j: Journal, from: Address, to: Address)
    requires from in j.state && to in j.state
    ensures var j2 := Touch(Touch(j, from), to);
            && j.entries <= j2.entries
            && (forall i :: |j.entries| <= i < |j2.entries| ==> j2.entries[i].AccountTouched?)
            && j2.state[from].info == j.state[from].info && j2.state[from].txId == j.state[from].txId
  {
  }

  /** Undoing touched marks changes no balance. */
  lemma {:induction false} OnlyTouchesKeepInfo(db: Db, j: Journal, n: nat, a: Address)
    requires n <= |j.entries| && a in j.state
    requires forall i :: n <= i < |j.entries| ==> j.entries[i].AccountTouched?
    ensures var r := RevertEntries(j, n);
            a in r.state && r.state[a].info == j.state[a].info && r.state[a].txId == j.state[a].txId
    decreases |j.entries|
  {
    if |j.entries| > n {
      var last := |j.entries| - 1;
      OnlyTouchesKeepInfo(db, RevertEntry(j.entries[last], j.(entries := j.entries[..last])), n, a);
    }
  }

  /** The delegation of EIP-7702: new code and one more on the nonce. */
  function Delegate(j: Journal, a: Address, code: Hash): Journal
    requires a in j.state
  {
    BumpNonce(SetCode(j, a, code), a).0
  }

  lemma CodeLostOnUndo(db: Db, j: Journal, a: Address, code: Hash)
    requires Inv(db, j) && Loaded(j, a)
    ensures var r := RevertEntries(Delegate(j, a, code), |j.entries|);
            a in r.state && r.state[a].info.code == KECCAK_EMPTY
  {
    var j1 := Touch(j, a);
    TouchUndoes(db, j, a);
    var x := j1.state[a];
    var p := Put(j1, a, x.(info := x.info.(code := code)));
    var j2 := Push(p, CodeChange(a));
    assert SetCode(j, a, code) == j2;
    CodeChangeInv(db, j1, a, code);
    BumpNonceUndoes(db, j2, a);
    var j3 := Delegate(j, a, code);
    var n, m := |j.entries|, |j1.entries|;
    assert j3.entries[..m] == j1.entries by {
      assert j2.entries <= j3.entries;
    }
    RevertEntriesSplit(j3, |j2.entries|, m);
    RevertEntriesSplit(j3, m, n);
    var back := RevertEntries(j3, |j2.entries|);
    assert ViewOf(db, back, a) == ViewOf(db, j2, a);
    RevertEntriesRep(j3, |j2.entries|);
    CodeUndone(db, back, p, a, m, n);
  }

  lemma CodeChangeInv(db: Db, j: Journal, a: Address, code: Hash)
    requires Inv(db, j) && Loaded(j, a)
    ensures Inv(db, Push(Put(j, a, j.state[a].(info := j.state[a].info.(code := code))), CodeChange(a)))
  {
    GoodInState(db, j, a);
    var y := j.state[a].(info := j.state[a].info.(code := code));
    assert FlagsOk(j.cfg, a, ViewIn(db, map[a := y], j.cfg, a));
    PutInv(db, j, a, y);
    PushInv(db, Put(j, a, y), CodeChange(a));
  }

  lemma CodeUndone(db: Db, back: Journal, p: Journal, a: Address, m: nat, n: nat)
    requires RepInv(back) && back.entries == p.entries + [CodeChange(a)] && |p.entries| == m && n <= m <= n + 1
    requires n < m ==> p.entries[n] == AccountTouched(a)
    ensures var r := RevertEntries(RevertEntries(back, m), n);
            a in r.state && r.state[a].info.code == KECCAK_EMPTY
  {
    assert EntryOk(back.entries[m], back.state, back.cfg);
    var q := RevertEntries(back, m);
    assert back == Push(back.(entries := p.entries), CodeChange(a));
    RevertPushed(back.(entries := p.entries), CodeChange(a));
    if n < m {
      var q' := q.(entries := p.entries[..n]);
      assert q == Push(q', AccountTouched(a));
      RevertPushed(q', AccountTouched(a));
    }
  }

  /** Taking a delegation back, as discarding a transaction does, gives back the accounts exactly when
      the authority had no code: an earlier delegation is lost. */
  lemma DelegationTakenBack(db: Db, j: Journal, a: Address, code: Hash)
    requires Inv(db, j) && Loaded(j, a)
    ensures SameWorld(db, j, RevertEntries(Delegate(j, a, code), |j.entries|))
            <==> j.state[a].info.code == KECCAK_EMPTY
  {
    if j.state[a].info.code == KECCAK_EMPTY {
      SetCodeUndoes(db, j, a, code);
      BumpNonceUndoes(db, SetCode(j, a, code), a);
      UndoesTransitive(db, j, SetCode(j, a, code), Delegate(j, a, code));
    } else {
      CodeLostOnUndo(db, j, a, code);
      var r := RevertEntries(Delegate(j, a, code), |j.entries|);
      assert ViewOf(db, r, a).info.code != ViewOf(db, j, a).info.code;
    }
  }

  /** A second load right after a first one is cold again exactly for an account that the first load
      took from the database in a later transaction of the same journal. */
  lemma ReloadIsCold(db: Db, j: Journal, a: Address)
    ensures LoadAccount(db, LoadAccount(db, j, a).0, a).1
            <==> a !in j.cfg.warm && a !in j.state && a in db.accounts && j.cfg.txId != 0
  {
  }

  /** An account created right after it was loaded from the database keeps its mark as created in this
      transaction over another load exactly in the journal's first transaction, or if the database
      does not know it. */
  lemma CreationRemembered(db: Db, j: Journal, a: Address)
    requires a !in j.state
    ensures var created := MarkCreated(LoadAccount(db, j, a).0, a);
            LoadAccount(db, created, a).0.state[a].status.createdLocal <==> j.cfg.txId == 0 || a !in db.accounts
  {
  }

  /** A load is taken back exactly when it takes no marks away. */
  lemma LoadTakenBack(db: Db, j: Journal, a: Address)
    ensures SameWorld(db, j, RevertEntries(LoadAccount(db, j, a).0, |j.entries|)) <==> LoadOk(j, a)
  {
    var (j', cold) := LoadAccount(db, j, a);
    var p := Put(j, a, LoadResult(db, j, a));
    RevertPushed(p, AccountWarmed(a));
    if LoadOk(j, a) {
      if cold {
        LoadedColdSameWorld(db, j, a);
      } else {
        LoadedWarmSameWorld(db, j, a);
      }
    } else {
      var r := RevertEntries(j', |j.entries|);
      assert Flagged(ViewOf(db, j, a).status) && !Flagged(ViewOf(db, r, a).status);
    }
  }

  /** A slot first seen on a created account is taken back exactly when the database holds zero. */
  lemma SlotTakenBack(db: Db, j: Journal, a: Address, k: Key)
    requires Loaded(j, a)
    ensures SameWorld(db, j, RevertEntries(Sload(db, j, a, k).0, |j.entries|)) <==> SlotOk(db, j, a, k)
  {
    var (j', value, cold) := Sload(db, j, a, k);
    var x := j.state[a];
    var slot := j'.state[a].storage[k];
    var p := Put(j, a, x.(storage := x.storage[k := slot]));
    RevertPushed(p, StorageWarmed(a, k));
    SlotWarmTakenBack(j, a, k, slot);
    if SlotOk(db, j, a, k) {
      var _ := SloadForm(db, j, a, k);
      SlotSameWorld(db, j, a, k, slot.(cold := cold));
    } else {
      assert SlotOf(db, RevertEntries(j', |j.entries|), a, k).value == 0;
    }
  }

  /** The mark of a creation is taken back exactly when this transaction had not marked the account
      before, which only before Spurious Dragon it can have. */
  lemma MarkTakenBack(db: Db, j: Journal, a: Address)
    requires Loaded(j, a) && !Collides(j, a)
    ensures SameWorld(db, j, RevertEntries(MarkCreated(j, a), |j.entries|)) <==> !j.state[a].status.createdLocal
  {
    var x := j.state[a];
    var e := AccountCreated(a, !x.status.created);
    var p := Put(j, a, Created(x, j.cfg.spuriousDragon));
    RevertPushed(p, e);
    var r := RevertEntry(e, p);
    if x.status.createdLocal {
      assert ViewOf(db, j, a).status.createdLocal && !ViewOf(db, r, a).status.createdLocal;
    } else {
      CreatedTakenBack(j.cfg.spuriousDragon, a, x);
      forall b | b in r.state
        ensures r.state[b] == j.state[b]
      {
        if b != a {
          ConcernsOnly(e, a, j.cfg.spuriousDragon, b, j.state[b]);
        }
      }
      assert r.state == j.state;
    }
  }
}
