/** Any number of transactions on one journal on Optimism, deposits included.  What an item of the
    settlement takes from its environment is here what the journal shows and what the frames do. */
module OpBlocks {
  import opened Wrappers
  import opened Journal
  import opened JournalOps
  import opened JournalRuns
  import opened Frames
  import opened FrameWorld
  import opened FrameRuns
  import opened Wealth
  import opened Payments
  import opened Blocks
  import D = Deposit
  import L = Ledger
  import O = OpSettlement
  import S = Settlement
  import T = Transaction

  // ---------- One transaction ----------

  /** The ledger, the loss and the result in `env` are not looked at: the run gives them. */
  datatype OpTx = OpTx(env: O.Item, isCall: bool, x: Execution, warm: set<Address>)

  ghost function ChainOf(db: Db, j: Journal, l1: O.L1Info): O.Chain {
    O.Chain(Purse(db, j), l1)
  }

  /** The caller's balance after the charge, if the transaction is accepted. */
  function OpLeft(db: Db, j: Journal, l1: O.L1Info, it: O.Item): Option<U256> {
    var balance := Wei(db, j, it.tx.caller);
    if O.Rejected(it) then None
    else if it.deposit.Some? then O.DepositLeft(balance, it)
    else O.RegularLeft(balance, O.Reloaded(l1, it), it)
  }

  lemma OpLeftIs(db: Db, j: Journal, l1: O.L1Info, it: O.Item)
    ensures var left := OpLeft(db, j, l1, it);
            O.Accepted(ChainOf(db, j, l1), it).0
            == if left.None? then None else Some(L.SetBalance(Purse(db, j), it.tx.caller, left.value))
  {
    PurseBalance(db, j, it.tx.caller);
  }

  function OpCharged(db: Db, j: Journal, l1: O.L1Info, t: OpTx): Journal
    requires OpLeft(db, j, l1, t.env).Some?
  {
    Debited(db, j, t.env.tx.caller, OpLeft(db, j, l1, t.env).value, t.isCall)
  }

  predicate OpRuns(db: Db, j: Journal, l1: O.L1Info, t: OpTx) {
    OpLeft(db, j, l1, t.env).Some? && Executed(db, OpCharged(db, j, l1, t), t.x).1.Some?
  }

  /** The item of the settlement that the run makes of the transaction. */
  ghost function ItemOf(db: Db, j: Journal, l1: O.L1Info, t: OpTx): O.Item {
    if !OpRuns(db, j, l1, t) then t.env
    else
      var charged := OpCharged(db, j, l1, t);
      var (s, r) := Executed(db, charged, t.x);
      t.env.(executed := Purse(db, s.journal), result := r.value,
             lost := S.SaturatingSub(TotalWei(db, charged), TotalWei(db, s.journal)))
  }

  /** Two items that differ in what a run gives at most. */
  predicate SameRequest(it: O.Item, it': O.Item) {
    it' == it.(executed := it'.executed, lost := it'.lost, result := it'.result)
  }

  /** Validation and charging do not look at what the run gives. */
  lemma SameRejected(it: O.Item, it': O.Item)
    requires SameRequest(it, it')
    ensures O.Rejected(it) == O.Rejected(it')
  {
  }

  lemma SameCharged(it: O.Item, it': O.Item, c: O.Chain)
    requires SameRequest(it, it')
    ensures O.Charged(c, it) == O.Charged(c, it')
  {
    var balance := L.BalanceOf(c.ledger, it.tx.caller);
    assert O.Reloaded(c.l1, it) == O.Reloaded(c.l1, it');
    assert O.Price(it) == O.Price(it');
    if it.deposit.Some? {
      assert O.DepositLeft(balance, it) == O.DepositLeft(balance, it');
    }
  }

  lemma SameItem(db: Db, j: Journal, l1: O.L1Info, t: OpTx, c: O.Chain)
    ensures var it := ItemOf(db, j, l1, t);
            && it.tx == t.env.tx && it.deposit == t.env.deposit && it.spec == t.env.spec
            && O.Rejected(it) == O.Rejected(t.env) && O.Accepted(c, it) == O.Accepted(c, t.env)
  {
    var it := ItemOf(db, j, l1, t);
    assert SameRequest(t.env, it);
    SameRejected(t.env, it);
    SameCharged(t.env, it, c);
  }

  ghost function OpPayouts(l1: O.L1Info, it: O.Item): seq<(Address, nat)> {
    O.Payouts(O.Accepted(O.Chain(map[], l1), it).1, it, O.GasOf(it))
  }

  ghost function OpSettled(db: Db, j: Journal, l1: O.L1Info, t: OpTx): Journal
    requires OpRuns(db, j, l1, t)
  {
    var s := Executed(db, OpCharged(db, j, l1, t), t.x).0;
    CreditedAll(db, s.journal, OpPayouts(l1, ItemOf(db, j, l1, t)))
  }

  function DepositOf(it: O.Item): D.DepositTx
    requires it.deposit.Some?
  {
    D.DepositTx(it.tx.caller, it.deposit.value.mint, it.deposit.value.isSystem, it.tx.gasLimit)
  }

  /** A failed deposit is caught by the handler; any other refused transaction is discarded, as the
      documentation of the handler asks its user to do. */
  ghost function OpRun(db: Db, j: Journal, l1: O.L1Info, t: OpTx): Journal {
    var it := ItemOf(db, j, l1, t);
    if it.deposit.Some? && O.Rejected(it) then D.CatchDeposit(db, j, DepositOf(it), it.spec.regolith, t.warm).0
    else if !OpRuns(db, j, l1, t) then Refused(db, j, it.tx.caller, !O.Rejected(it), t.warm)
    else if O.Fails(it) then
      D.CatchDeposit(db, OpSettled(db, j, l1, t), DepositOf(it), it.spec.regolith, t.warm).0
    else T.CommitTx(OpSettled(db, j, l1, t), t.warm)
  }

  ghost function OpNext(db: Db, j: Journal, l1: O.L1Info, t: OpTx): O.L1Info {
    O.Transact(ChainOf(db, j, l1), ItemOf(db, j, l1, t)).l1
  }

  /** A transaction that is charged runs to its end, and nothing along its run takes a mark away. */
  ghost predicate SoundOpTx(db: Db, j: Journal, l1: O.L1Info, t: OpTx) {
    && O.FeesSound(ChainOf(db, j, l1), ItemOf(db, j, l1, t))
    && (OpLeft(db, j, l1, t.env).Some? ==>
          && SoundExecution(db, OpCharged(db, j, l1, t), t.x)
          && t.x.first.gasLimit <= t.env.tx.gasLimit
          && (t.env.deposit.Some? ==> T.SoundStages(db, OpCharged(db, j, l1, t), t.x.prepare))
          && SoundCredits(db, Executed(db, OpCharged(db, j, l1, t), t.x).0.journal,
                          OpPayouts(l1, ItemOf(db, j, l1, t))))
  }

  ghost function OpSwept(db: Db, j: Journal, l1: O.L1Info, t: OpTx): int {
    if OpRuns(db, j, l1, t) && !O.Fails(ItemOf(db, j, l1, t)) then Swept(db, OpSettled(db, j, l1, t), t.warm) else 0
  }

  // ---------- Charging and running ----------

  lemma LeftBounded(db: Db, j: Journal, l1: O.L1Info, it: O.Item)
    requires OpLeft(db, j, l1, it).Some?
    ensures OpLeft(db, j, l1, it).value
            <= Wei(db, j, it.tx.caller) + if it.deposit.Some? then it.deposit.value.mint else 0
  {
  }

  lemma MintIsMinted(c: O.Chain, it: O.Item)
    requires it.deposit.Some? && O.Accepted(c, it).0.Some?
    ensures it.deposit.value.mint <= O.Minted(c, it)
  {
  }

  lemma ChargedInRange(db: Db, j: Journal, l1: O.L1Info, t: OpTx)
    requires T.Begins(db, j) && OpLeft(db, j, l1, t.env).Some?
    requires O.FeesSound(ChainOf(db, j, l1), ItemOf(db, j, l1, t))
    ensures Loadable(j, t.env.tx.caller)
    ensures Inv(db, OpCharged(db, j, l1, t)) && TotalWei(db, OpCharged(db, j, l1, t)) < U256_MODULUS
  {
    var c, it, caller := ChainOf(db, j, l1), ItemOf(db, j, l1, t), t.env.tx.caller;
    var left := OpLeft(db, j, l1, t.env).value;
    D.UnmarkedLoads(db, j, caller);
    SameItem(db, j, l1, t, c);
    OpLeftIs(db, j, l1, t.env);
    LeftBounded(db, j, l1, t.env);
    if it.deposit.Some? {
      MintIsMinted(c, it);
    }
    PurseShows(db, j);
    PurseBalance(db, j, caller);
    DebitedShows(db, j, caller, left, t.isCall, Purse(db, j));
    ShowsSupply(db, OpCharged(db, j, l1, t), L.SetBalance(Purse(db, j), caller, left));
    L.SupplySet(Purse(db, j), caller, left);
  }

  lemma RunIsRunBy(db: Db, j: Journal, l1: O.L1Info, t: OpTx)
    requires T.Begins(db, j) && SoundOpTx(db, j, l1, t) && OpRuns(db, j, l1, t)
    ensures RunBy(db, OpCharged(db, j, l1, t), t.x, ItemOf(db, j, l1, t))
  {
    ChargedInRange(db, j, l1, t);
    ExecutionKeeps(db, OpCharged(db, j, l1, t), t.x);
  }

  lemma PayoutsAre(c: O.Chain, it: O.Item)
    ensures OpPayouts(c.l1, it) == O.Payouts(O.Accepted(c, it).1, it, O.GasOf(it))
  {
  }

  // ---------- Taking a deposit back ----------

  lemma {:induction false} CreditsSince(db: Db, j: Journal, credits: seq<(Address, nat)>)
    requires Inv(db, j) && SoundCredits(db, j, credits)
    ensures Undoes(db, j, CreditedAll(db, j, credits))
    decreases |credits|
  {
    if credits == [] {
      UndoesReflexive(db, j);
    } else {
      var n := |credits| - 1;
      CreditsSince(db, j, credits[..n]);
      var j1 := CreditedAll(db, j, credits[..n]);
      var a := credits[n].0;
      LoadableOk(db, j1, a);
      LoadAccountUndoes(db, j1, a);
      var j2 := LoadAccount(db, j1, a).0;
      IncrBalanceUndoes(db, j2, a, credits[n].1);
      UndoesTransitive(db, j1, j2, CreditedAll(db, j, credits));
      UndoesTransitive(db, j, j1, CreditedAll(db, j, credits));
    }
  }

  lemma DebitedSince(db: Db, j: Journal, caller: Address, left: U256, isCall: bool)
    requires Inv(db, j) && Loadable(j, caller)
    ensures Undoes(db, j, Debited(db, j, caller, left, isCall))
  {
    LoadableOk(db, j, caller);
    LoadAccountUndoes(db, j, caller);
    ChargedNext(db, j, LoadAccount(db, j, caller).0, caller, left, isCall);
  }

  lemma ChargedNext(db: Db, j: Journal, j0: Journal, caller: Address, left: U256, isCall: bool)
    requires Inv(db, j) && Undoes(db, j, j0) && Loaded(j0, caller)
    ensures var j1 := SetBalance(j0, caller, left);
            Undoes(db, j, if isCall then BumpNonce(j1, caller).0 else j1)
  {
    SetBalanceUndoes(db, j0, caller, left);
    var j1 := SetBalance(j0, caller, left);
    UndoesTransitive(db, j, j0, j1);
    BumpNonceUndoes(db, j1, caller);
    UndoesTransitive(db, j, j1, BumpNonce(j1, caller).0);
  }

  /** The preparation and the frames. */
  lemma ExecutedSince(db: Db, j: Journal, x: Execution)
    requires Inv(db, j) && TotalWei(db, j) < U256_MODULUS && SoundExecution(db, j, x)
    requires T.SoundStages(db, j, x.prepare)
    ensures Since(db, j, Executed(db, j, x).0.journal) && Inv(db, Executed(db, j, x).0.journal)
  {
    var j1 := T.Stages(db, j, x.prepare);
    PreparationKeeps(db, j, x.prepare);
    T.StagesSince(db, j, x.prepare);
    T.ExecuteSince(db, x.rules, j1, x.first, x.script);
    var j2 := Executed(db, j, x).0.journal;
    SinceTransitive(db, j, j1, j2);
    SinceInv(db, j, j2);
  }

  lemma SettledSince(db: Db, j: Journal, l1: O.L1Info, t: OpTx)
    requires T.Begins(db, j) && SoundOpTx(db, j, l1, t) && OpRuns(db, j, l1, t) && t.env.deposit.Some?
    ensures Since(db, j, OpSettled(db, j, l1, t))
  {
    var charged := OpCharged(db, j, l1, t);
    ChargedInRange(db, j, l1, t);
    DebitedSince(db, j, t.env.tx.caller, OpLeft(db, j, l1, t.env).value, t.isCall);
    SinceUndoes(db, j, charged);
    ExecutedSince(db, charged, t.x);
    var e := Executed(db, charged, t.x).0.journal;
    SinceTransitive(db, j, charged, e);
    var credits := OpPayouts(l1, ItemOf(db, j, l1, t));
    CreditsSince(db, e, credits);
    SinceUndoes(db, e, CreditedAll(db, e, credits));
    SinceTransitive(db, j, e, CreditedAll(db, e, credits));
  }

  // ---------- What each transaction keeps ----------

  /** The journal accounts for what a transaction burns, mints and destroys. */
  ghost predicate Accounted(db: Db, j: Journal, l1: O.L1Info, t: OpTx, j': Journal) {
    var c, it := ChainOf(db, j, l1), ItemOf(db, j, l1, t);
    && T.Begins(db, j')
    && TotalWei(db, j') + O.Burned(c, it) + OpSwept(db, j, l1, t) == TotalWei(db, j) + O.Minted(c, it)
  }

  lemma CaughtAccounted(db: Db, j: Journal, l1: O.L1Info, t: OpTx, e: Journal)
    requires T.Begins(db, j) && SoundOpTx(db, j, l1, t) && Since(db, j, e) && t.env.deposit.Some?
    requires O.Rejected(t.env) || (OpRuns(db, j, l1, t) && O.Fails(ItemOf(db, j, l1, t)))
    ensures Accounted(db, j, l1, t,
                      D.CatchDeposit(db, e, DepositOf(t.env), t.env.spec.regolith, t.warm).0)
  {
    var c, it := ChainOf(db, j, l1), ItemOf(db, j, l1, t);
    SameItem(db, j, l1, t, c);
    OpLeftIs(db, j, l1, t.env);
    PurseShows(db, j);
    ShowsSupply(db, j, c.ledger);
    var r := D.CatchDeposit(db, e, DepositOf(t.env), t.env.spec.regolith, t.warm).0;
    D.CaughtDeposit(db, j, e, DepositOf(t.env), t.env.spec.regolith, t.warm, 0, 0);
    FailedDepositOnJournal(db, j, e, DepositOf(t.env), t.env.spec.regolith, t.warm, c.ledger);
    ShowsSupply(db, r, L.IncrBalance(c.ledger, it.tx.caller, it.deposit.value.mint));
    O.FailedDepositSupply(c, it);
  }

  lemma SettledAccounted(db: Db, j: Journal, l1: O.L1Info, t: OpTx)
    requires T.Begins(db, j) && l1.txL1Cost.None? && SoundOpTx(db, j, l1, t)
    requires OpRuns(db, j, l1, t) && !O.Fails(ItemOf(db, j, l1, t))
    ensures Accounted(db, j, l1, t, T.CommitTx(OpSettled(db, j, l1, t), t.warm))
  {
    var c, it := ChainOf(db, j, l1), ItemOf(db, j, l1, t);
    var left := OpLeft(db, j, l1, t.env).value;
    SameItem(db, j, l1, t, c);
    OpLeftIs(db, j, l1, t.env);
    PurseShows(db, j);
    ChargedInRange(db, j, l1, t);
    RunIsRunBy(db, j, l1, t);
    PayoutsAre(c, it);
    OptimismOnJournal(db, j, c, it, left, t.isCall, t.x);
    var settled := OpSettled(db, j, l1, t);
    OpSettledInv(db, j, l1, t);
    CommitSweeps(db, settled, t.warm);
    T.CommitBegins(db, settled, t.warm);
  }

  lemma OpSettledInv(db: Db, j: Journal, l1: O.L1Info, t: OpTx)
    requires T.Begins(db, j) && SoundOpTx(db, j, l1, t) && OpRuns(db, j, l1, t)
    ensures Inv(db, OpSettled(db, j, l1, t))
  {
    ChargedInRange(db, j, l1, t);
    ExecutionKeeps(db, OpCharged(db, j, l1, t), t.x);
    CreditsSince(db, Executed(db, OpCharged(db, j, l1, t), t.x).0.journal, OpPayouts(l1, ItemOf(db, j, l1, t)));
  }

  lemma RefusedAccounted(db: Db, j: Journal, l1: O.L1Info, t: OpTx)
    requires T.Begins(db, j) && OpLeft(db, j, l1, t.env).None? && !(t.env.deposit.Some? && O.Rejected(t.env))
    ensures Accounted(db, j, l1, t, Refused(db, j, t.env.tx.caller, !O.Rejected(t.env), t.warm))
  {
    SameItem(db, j, l1, t, ChainOf(db, j, l1));
    OpLeftIs(db, j, l1, t.env);
    RefusedKeeps(db, j, t.env.tx.caller, !O.Rejected(t.env), t.warm);
  }

  lemma OpStep(db: Db, j: Journal, l1: O.L1Info, t: OpTx)
    requires T.Begins(db, j) && l1.txL1Cost.None? && SoundOpTx(db, j, l1, t)
    ensures Accounted(db, j, l1, t, OpRun(db, j, l1, t))
  {
    SameItem(db, j, l1, t, ChainOf(db, j, l1));
    if t.env.deposit.Some? && O.Rejected(t.env) {
      UndoesReflexive(db, j);
      SinceUndoes(db, j, j);
      CaughtAccounted(db, j, l1, t, j);
    } else if OpLeft(db, j, l1, t.env).None? {
      RefusedAccounted(db, j, l1, t);
    } else if O.Fails(ItemOf(db, j, l1, t)) {
      SettledSince(db, j, l1, t);
      CaughtAccounted(db, j, l1, t, OpSettled(db, j, l1, t));
    } else {
      SettledAccounted(db, j, l1, t);
    }
  }

  lemma NextCacheEmpty(db: Db, j: Journal, l1: O.L1Info, t: OpTx)
    ensures OpNext(db, j, l1, t).txL1Cost.None?
  {
  }

  // ---------- Any number of transactions ----------

  ghost function OpRunAll(db: Db, j: Journal, l1: O.L1Info, ts: seq<OpTx>): Journal
    decreases |ts|
  {
    if ts == [] then j else OpRunAll(db, OpRun(db, j, l1, ts[0]), OpNext(db, j, l1, ts[0]), ts[1..])
  }

  ghost predicate SoundOpAll(db: Db, j: Journal, l1: O.L1Info, ts: seq<OpTx>)
    decreases |ts|
  {
    ts == [] ||
    (SoundOpTx(db, j, l1, ts[0]) && SoundOpAll(db, OpRun(db, j, l1, ts[0]), OpNext(db, j, l1, ts[0]), ts[1..]))
  }

  /** What was minted less what was burned, lost or destroyed with its account. */
  ghost function OpGain(db: Db, j: Journal, l1: O.L1Info, ts: seq<OpTx>): int
    decreases |ts|
  {
    if ts == [] then 0
    else
      var c, it := ChainOf(db, j, l1), ItemOf(db, j, l1, ts[0]);
      O.Minted(c, it) - O.Burned(c, it) - OpSwept(db, j, l1, ts[0])
      + OpGain(db, OpRun(db, j, l1, ts[0]), OpNext(db, j, l1, ts[0]), ts[1..])
  }

  /** Over any sequence of transactions on one journal, refused ones, deposits and failed deposits
      included, with the commits in between: the wei shown at the end is the wei shown at the start and
      the gain, and the next transaction can begin. */
  lemma {:induction false} OptimismSequence(db: Db, j: Journal, l1: O.L1Info, ts: seq<OpTx>)
    requires T.Begins(db, j) && l1.txL1Cost.None? && SoundOpAll(db, j, l1, ts)
    ensures T.Begins(db, OpRunAll(db, j, l1, ts))
    ensures TotalWei(db, OpRunAll(db, j, l1, ts)) == TotalWei(db, j) + OpGain(db, j, l1, ts)
    decreases |ts|
  {
    if ts != [] {
      OpStep(db, j, l1, ts[0]);
      NextCacheEmpty(db, j, l1, ts[0]);
      OptimismSequence(db, OpRun(db, j, l1, ts[0]), OpNext(db, j, l1, ts[0]), ts[1..]);
    }
  }
}
