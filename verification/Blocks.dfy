/** Any number of transactions on one journal, each charged, run, settled and committed, or refused and
    discarded: the wei that the journal shows at the end is accounted for to the last unit. */
module Blocks {
  import opened Wrappers
  import opened Journal
  import opened JournalOps
  import opened JournalRuns
  import opened JournalEffects
  import opened Frames
  import opened FrameShape
  import opened FrameWorld
  import opened FrameRuns
  import opened Wealth
  import opened Payments
  import D = Deposit
  import L = Ledger
  import O = OpSettlement
  import S = Settlement
  import T = Transaction

  // ---------- Between two transactions ----------

  /** The wei that goes with the accounts a transaction has destroyed. */
  ghost function Swept(db: Db, j: Journal, warm: set<Address>): int {
    TotalWei(db, j) - TotalWei(db, T.CommitTx(j, warm))
  }

  /** A commit makes no wei, and loses some exactly if a destroyed account still holds any. */
  lemma CommitSweeps(db: Db, j: Journal, warm: set<Address>)
    requires RepInv(j)
    ensures Swept(db, j, warm) >= 0
    ensures Swept(db, j, warm) == 0 <==> forall a :: ViewOf(db, j, a).status.destroyedLocal ==> Wei(db, j, a) == 0
  {
    var r := T.CommitTx(j, warm);
    var l, l' := Purse(db, j), Purse(db, r);
    forall a
      ensures L.BalanceOf(l, a) == Wei(db, j, a) && L.BalanceOf(l', a) == Wei(db, r, a)
      ensures Wei(db, r, a) == if ViewOf(db, j, a).status.destroyedLocal then 0 else Wei(db, j, a)
    {
      PurseBalance(db, j, a);
      PurseBalance(db, r, a);
      T.CommitView(db, j, warm, a, 0);
    }
    L.SupplyMonotone(l, l');
    if forall a :: ViewOf(db, j, a).status.destroyedLocal ==> Wei(db, j, a) == 0 {
      forall a
        ensures L.BalanceOf(l, a) == L.BalanceOf(l', a)
      {
        assert L.BalanceOf(l, a) == Wei(db, j, a) && L.BalanceOf(l', a) == Wei(db, r, a);
      }
      L.SupplyExt(l, l');
    } else {
      var a :| ViewOf(db, j, a).status.destroyedLocal && Wei(db, j, a) != 0;
      assert L.BalanceOf(l, a) == Wei(db, j, a) && L.BalanceOf(l', a) == Wei(db, r, a);
    }
  }

  /** A refused transaction has at most loaded its caller. */
  function Refused(db: Db, j: Journal, caller: Address, loaded: bool, warm: set<Address>): Journal {
    T.DiscardTx(if loaded then LoadAccount(db, j, caller).0 else j, warm)
  }

  lemma RefusedKeeps(db: Db, j: Journal, caller: Address, loaded: bool, warm: set<Address>)
    requires T.Begins(db, j)
    ensures var r := Refused(db, j, caller, loaded, warm);
            T.Begins(db, r) && TotalWei(db, r) == TotalWei(db, j)
  {
    var gs := if loaded then [T.Load(caller)] else [];
    D.UnmarkedLoads(db, j, caller);
    assert gs != [] ==> gs[1..] == [];
    assert T.Stages(db, j, gs) == if loaded then LoadAccount(db, j, caller).0 else j;
    assert T.SoundStages(db, j, gs);
    var r := Refused(db, j, caller, loaded, warm);
    forall a
      ensures Wei(db, r, a) == Wei(db, j, a)
    {
      T.DiscardRestores(db, j, gs, warm, a, 0);
    }
    WealthSame(db, j, r);
    T.DiscardRestores(db, j, gs, warm, 0, 0);
  }

  // ---------- Mainnet ----------

  /** `invalid` says that a check other than those on fees and gas refuses the transaction. */
  datatype MainnetTx = MainnetTx(p: Payment, initialGas: nat, invalid: bool, x: Execution, warm: set<Address>)

  predicate MainnetRejected(t: MainnetTx) {
    || t.invalid
    || !S.Validated(t.p.tx, t.p.block)
    || t.p.tx.gasLimit < t.initialGas
    || t.p.tx.gasLimit < t.p.floor
  }

  /** The caller's balance after the charge, if the transaction is accepted. */
  function MainnetLeft(db: Db, j: Journal, t: MainnetTx): (left: Option<U256>)
    ensures left.Some? ==> CallerLeft(db, j, t.p) == Some(left.value) && !MainnetRejected(t)
  {
    if MainnetRejected(t) then None else CallerLeft(db, j, t.p)
  }

  /** The run in between, if there is one. */
  predicate MainnetRuns(db: Db, j: Journal, t: MainnetTx) {
    var left := MainnetLeft(db, j, t);
    left.Some? && Executed(db, Debited(db, j, t.p.tx.caller, left.value, t.p.isCall), t.x).1.Some?
  }

  function MainnetRun(db: Db, j: Journal, t: MainnetTx): Journal {
    if !MainnetRuns(db, j, t) then Refused(db, j, t.p.tx.caller, !MainnetRejected(t), t.warm)
    else T.CommitTx(Settled(db, j, t.p, MainnetLeft(db, j, t).value, t.x), t.warm)
  }

  ghost predicate SoundMainnet(db: Db, j: Journal, t: MainnetTx) {
    var left := MainnetLeft(db, j, t);
    left.Some? ==> SoundPayment(db, j, t.p, left.value, t.x)
  }

  /** Burned fees, what the execution lost and what goes with destroyed accounts. */
  ghost function MainnetGone(db: Db, j: Journal, t: MainnetTx): int {
    if !MainnetRuns(db, j, t) then 0
    else
      var left := MainnetLeft(db, j, t).value;
      var charged := Debited(db, j, t.p.tx.caller, left, t.p.isCall);
      var (s, r) := Executed(db, charged, t.x);
      TotalWei(db, charged) - TotalWei(db, s.journal)
      + S.BurnedBaseFee(t.p.block, GasAtEnd(t.p, r.value), t.p.london) + S.BlobFee(t.p.tx, t.p.block.blobPrice)
      + Swept(db, Settled(db, j, t.p, left, t.x), t.warm)
  }

  lemma SettledInv(db: Db, j: Journal, p: Payment, left: U256, x: Execution)
    requires CallerLeft(db, j, p) == Some(left) && SoundPayment(db, j, p, left, x)
    ensures Inv(db, Settled(db, j, p, left, x))
  {
    PurseShows(db, j);
    DebitedShows(db, j, p.tx.caller, left, p.isCall, Purse(db, j));
    var charged := Debited(db, j, p.tx.caller, left, p.isCall);
    DebitedWealth(db, j, p, left);
    ExecutionKeeps(db, charged, x);
    var (s, r) := Executed(db, charged, x);
    PurseShows(db, s.journal);
    CreditsShow(db, s.journal, MainnetCredits(p, r.value), Purse(db, s.journal));
  }

  lemma DebitedWealth(db: Db, j: Journal, p: Payment, left: U256)
    requires Inv(db, j) && Loadable(j, p.tx.caller) && CallerLeft(db, j, p) == Some(left)
    ensures TotalWei(db, Debited(db, j, p.tx.caller, left, p.isCall)) <= TotalWei(db, j)
  {
    var l := Purse(db, j);
    PurseShows(db, j);
    ShowsSupply(db, j, l);
    PurseBalance(db, j, p.tx.caller);
    DebitedShows(db, j, p.tx.caller, left, p.isCall, l);
    ShowsSupply(db, Debited(db, j, p.tx.caller, left, p.isCall), L.SetBalance(l, p.tx.caller, left));
    L.SupplySet(l, p.tx.caller, left);
  }

  lemma MainnetStep(db: Db, j: Journal, t: MainnetTx)
    requires T.Begins(db, j) && SoundMainnet(db, j, t)
    ensures T.Begins(db, MainnetRun(db, j, t))
    ensures MainnetGone(db, j, t) >= 0
    ensures TotalWei(db, MainnetRun(db, j, t)) + MainnetGone(db, j, t) == TotalWei(db, j)
  {
    if MainnetRuns(db, j, t) {
      var left := MainnetLeft(db, j, t).value;
      MainnetOnJournal(db, j, t.p, left, t.x);
      SettledInv(db, j, t.p, left, t.x);
      var settled := Settled(db, j, t.p, left, t.x);
      CommitSweeps(db, settled, t.warm);
      T.CommitBegins(db, settled, t.warm);
    } else {
      RefusedKeeps(db, j, t.p.tx.caller, !MainnetRejected(t), t.warm);
    }
  }

  function MainnetRunAll(db: Db, j: Journal, ts: seq<MainnetTx>): Journal
    decreases |ts|
  {
    if ts == [] then j else MainnetRunAll(db, MainnetRun(db, j, ts[0]), ts[1..])
  }

  ghost function MainnetGoneAll(db: Db, j: Journal, ts: seq<MainnetTx>): int
    decreases |ts|
  {
    if ts == [] then 0 else MainnetGone(db, j, ts[0]) + MainnetGoneAll(db, MainnetRun(db, j, ts[0]), ts[1..])
  }

  ghost predicate SoundMainnetAll(db: Db, j: Journal, ts: seq<MainnetTx>)
    decreases |ts|
  {
    ts == [] || (SoundMainnet(db, j, ts[0]) && SoundMainnetAll(db, MainnetRun(db, j, ts[0]), ts[1..]))
  }

  /** Over any sequence of transactions on one journal no wei appears, and what disappears was burned,
      lost by an execution or destroyed with its account. */
  lemma {:induction false} MainnetSequence(db: Db, j: Journal, ts: seq<MainnetTx>)
    requires T.Begins(db, j) && SoundMainnetAll(db, j, ts)
    ensures T.Begins(db, MainnetRunAll(db, j, ts))
    ensures MainnetGoneAll(db, j, ts) >= 0
    ensures TotalWei(db, MainnetRunAll(db, j, ts)) + MainnetGoneAll(db, j, ts) == TotalWei(db, j)
    decreases |ts|
  {
    if ts != [] {
      MainnetStep(db, j, ts[0]);
      MainnetSequence(db, MainnetRun(db, j, ts[0]), ts[1..]);
    }
  }

  /** From a new journal: what it shows at the end is the database's wei less what is gone. */
  lemma MainnetFromStart(db: Db, cfg: Config, ts: seq<MainnetTx>)
    requires cfg.leftover == {}
    requires SoundMainnetAll(db, Journal(map[], map[], [], 0, [], cfg), ts)
    ensures var j := Journal(map[], map[], [], 0, [], cfg);
            TotalWei(db, MainnetRunAll(db, j, ts)) + MainnetGoneAll(db, j, ts) == TotalWei(db, j)
  {
    T.EmptyBegins(db, cfg);
    MainnetSequence(db, Journal(map[], map[], [], 0, [], cfg), ts);
  }
}
