/** Errors on Optimism (crates/op-revm/src/handler.rs): whatever a deposit had done when its error
    arose, only a nonce bump and the mint remain. */
module Deposit {
  import opened Wrappers
  import opened Journal
  import opened JournalOps
  import opened JournalRuns
  import opened JournalEffects
  import opened FrameWorld
  import opened Transaction

  // ---------- Errors on Optimism ----------

  /** An error that is not that of a deposit is only reported: nothing is taken back and the
      transaction does not end, but its undo log still reaches the world in which it began. */
  lemma OtherErrorLeaves(db: Db, j: Journal, gs: seq<Stage>)
    requires Begins(db, j) && SoundStages(db, j, gs)
    ensures Restored(db, j, RevertToCheckpoint(Stages(db, j, gs), Checkpoint(0, 0)))
    ensures Stages(db, j, gs).cfg == j.cfg
  {
    StagesSince(db, j, gs);
    RevertRestores(db, j, Stages(db, j, gs), Checkpoint(0, 0));
  }

  /** So what validation had charged stays visible to whatever runs next on the journal. */
  lemma OtherErrorKeeps(db: Db, j: Journal, a: Address)
    requires Begins(db, j) && ViewOf(db, j, a).info.nonce < U64_MAX
    ensures SoundStages(db, j, [Load(a), Bump(a)])
    ensures ViewOf(db, Stages(db, j, [Load(a), Bump(a)]), a).info.nonce == ViewOf(db, j, a).info.nonce + 1
  {
    UnmarkedLoads(db, j, a);
    LoadEffect(db, j, a, a, 0);
    var j1 := LoadAccount(db, j, a).0;
    assert [Load(a), Bump(a)][1..] == [Bump(a)];
    assert Stages(db, j, [Load(a), Bump(a)]) == Stages(db, j1, [Bump(a)]);
    assert Stages(db, j1, [Bump(a)]) == BumpNonce(j1, a).0;
    BumpInfo(db, j1, a, a, 0);
  }

  // ---------- Failed deposits ----------

  datatype DepositTx = DepositTx(caller: Address, mint: nat, isSystem: bool, gasLimit: nat)

  /** Reverts to the first checkpoint, then bumps the nonce and mints.  The second component is the gas
      reported as used. */
  function CatchDeposit(db: Db, j: Journal, tx: DepositTx, regolith: bool, warm: set<Address>): (Journal, nat) {
    var j1 := RevertToCheckpoint(j, Checkpoint(0, 0));
    var j2 := LoadAccount(db, j1, tx.caller).0;
    var j3 := BumpNonce(j2, tx.caller).0;
    (CommitTx(IncrBalance(j3, tx.caller, tx.mint).0, warm), if regolith || !tx.isSystem then tx.gasLimit else 0)
  }

  /** One more nonce and the mint, each unless it does not fit. */
  function Minted(i: Info, mint: nat): Info {
    Info(if i.balance + mint < U256_MODULUS then i.balance + mint else i.balance,
         if i.nonce < U64_MAX then i.nonce + 1 else i.nonce,
         i.code)
  }

  /** A load of an account without marks takes none away. */
  lemma UnmarkedLoads(db: Db, j: Journal, a: Address)
    requires !Flagged(ViewOf(db, j, a).status)
    ensures LoadOk(j, a)
  {
  }

  lemma BumpInfo(db: Db, j: Journal, b: Address, a: Address, k: Key)
    requires Loaded(j, b)
    ensures var j' := BumpNonce(j, b).0;
            && Loaded(j', b)
            && Flagged(ViewOf(db, j', a).status) == Flagged(ViewOf(db, j, a).status)
            && ViewOf(db, j', a).info == (var i := ViewOf(db, j, a).info;
                                         if a == b && i.nonce < U64_MAX then i.(nonce := i.nonce + 1) else i)
            && SlotOf(db, j', a, k).value == SlotOf(db, j, a, k).value
  {
  }

  lemma CreditInfo(db: Db, j: Journal, b: Address, v: nat, a: Address, k: Key)
    requires Loaded(j, b)
    ensures var j' := IncrBalance(j, b, v).0;
            && Flagged(ViewOf(db, j', a).status) == Flagged(ViewOf(db, j, a).status)
            && ViewOf(db, j', a).info == (var i := ViewOf(db, j, a).info;
                                         if a == b && i.balance + v < U256_MODULUS then
                                           i.(balance := i.balance + v)
                                         else i)
            && SlotOf(db, j', a, k).value == SlotOf(db, j, a, k).value
  {
  }

  /** From a journal `j1` that observers cannot tell from the one before the transaction. */
  lemma MintedAfterRevert(db: Db, j: Journal, j1: Journal, caller: Address, mint: nat, a: Address, k: Key)
    requires Inv(db, j1) && SameWorld(db, j, j1) && Unmarked(db, j)
    ensures var r := IncrBalance(BumpNonce(LoadAccount(db, j1, caller).0, caller).0, caller, mint).0;
            && ViewOf(db, r, a).info == (var i := ViewOf(db, j, a).info; if a == caller then Minted(i, mint) else i)
            && SlotOf(db, r, a, k).value == SlotOf(db, j, a, k).value
            && !Flagged(ViewOf(db, r, a).status)
  {
    assert ViewOf(db, j, caller) == ViewOf(db, j1, caller);
    UnmarkedLoads(db, j1, caller);
    var j2 := LoadAccount(db, j1, caller).0;
    LoadEffect(db, j1, caller, a, k);
    BumpInfo(db, j2, caller, a, k);
    var j3 := BumpNonce(j2, caller).0;
    CreditInfo(db, j3, caller, mint, a, k);
    assert ViewOf(db, j, a) == ViewOf(db, j1, a) && SlotOf(db, j, a, k) == SlotOf(db, j1, a, k);
  }

  lemma MintedInv(db: Db, j1: Journal, caller: Address, mint: nat)
    requires Inv(db, j1) && LoadOk(j1, caller)
    ensures Inv(db, IncrBalance(BumpNonce(LoadAccount(db, j1, caller).0, caller).0, caller, mint).0)
  {
    LoadAccountUndoes(db, j1, caller);
    var j2 := LoadAccount(db, j1, caller).0;
    BumpNonceUndoes(db, j2, caller);
    BumpInfo(db, j2, caller, caller, 0);
    IncrBalanceUndoes(db, BumpNonce(j2, caller).0, caller, mint);
  }

  /** From any journal `e` that the deposit had reached from `j` and from which `j` can be reached. */
  lemma CaughtDeposit(db: Db, j: Journal, e: Journal, tx: DepositTx, regolith: bool, warm: set<Address>, a: Address,
                      k: Key)
    requires Begins(db, j) && Since(db, j, e)
    ensures var r := CatchDeposit(db, e, tx, regolith, warm).0;
            && ViewOf(db, r, a).info
               == (var i := ViewOf(db, j, a).info; if a == tx.caller then Minted(i, tx.mint) else i)
            && SlotOf(db, r, a, k).value == SlotOf(db, j, a, k).value
            && Begins(db, r) && r.transient == map[]
  {
    var j1 := RevertToCheckpoint(e, Checkpoint(0, 0));
    RevertRestores(db, j, e, Checkpoint(0, 0));
    MintedAfterRevert(db, j, j1, tx.caller, tx.mint, a, k);
    assert ViewOf(db, j, tx.caller) == ViewOf(db, j1, tx.caller);
    UnmarkedLoads(db, j1, tx.caller);
    MintedInv(db, j1, tx.caller, tx.mint);
    var j4 := IncrBalance(BumpNonce(LoadAccount(db, j1, tx.caller).0, tx.caller).0, tx.caller, tx.mint).0;
    CommitView(db, j4, warm, a, k);
    CommitBegins(db, j4, warm);
  }

  /** Whatever stages a deposit went through before its error, every account ends with the balance,
      nonce, code and storage it had before, plus one nonce and the mint for the caller. */
  lemma FailedDeposit(db: Db, j: Journal, gs: seq<Stage>, tx: DepositTx, regolith: bool, warm: set<Address>,
                      a: Address, k: Key)
    requires Begins(db, j) && SoundStages(db, j, gs)
    ensures var (r, gasUsed) := CatchDeposit(db, Stages(db, j, gs), tx, regolith, warm);
            && ViewOf(db, r, a).info
               == (var i := ViewOf(db, j, a).info; if a == tx.caller then Minted(i, tx.mint) else i)
            && SlotOf(db, r, a, k).value == SlotOf(db, j, a, k).value
            && Begins(db, r) && r.transient == map[]
            && gasUsed == if regolith || !tx.isSystem then tx.gasLimit else 0
  {
    StagesSince(db, j, gs);
    CaughtDeposit(db, j, Stages(db, j, gs), tx, regolith, warm, a, k);
  }
}
