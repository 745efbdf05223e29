/** Charging, running and settling a transaction on one journal: the wei that the journal shows is
    accounted for to the last unit.  The ledger that module Settlement works on is the one the journal
    shows, and what it assumes of the execution in between is proved here of every run of frames. */
module Payments {
  import opened Wrappers
  import opened Journal
  import opened JournalOps
  import opened JournalRuns
  import opened JournalEffects
  import opened Frames
  import opened FrameShape
  import opened FrameWorld
  import opened FrameWealth
  import opened FrameRuns
  import opened Wealth
  import opened Settlement
  import T = Transaction
  import D = Deposit
  import O = OpSettlement
  import L = Ledger

  // ---------- The ledger of a journal ----------

  ghost predicate Shows(db: Db, j: Journal, l: L.Ledger) {
    forall a :: L.BalanceOf(l, a) == Wei(db, j, a)
  }

  lemma PurseShows(db: Db, j: Journal)
    ensures Shows(db, j, Purse(db, j))
  {
    forall a
      ensures L.BalanceOf(Purse(db, j), a) == Wei(db, j, a)
    {
      PurseBalance(db, j, a);
    }
  }

  lemma ShowsSupply(db: Db, j: Journal, l: L.Ledger)
    requires Shows(db, j, l)
    ensures L.Supply(l) == TotalWei(db, j)
  {
    forall a
      ensures L.BalanceOf(l, a) == L.BalanceOf(Purse(db, j), a)
    {
      PurseBalance(db, j, a);
      assert L.BalanceOf(l, a) == Wei(db, j, a);
    }
    L.SupplyExt(l, Purse(db, j));
  }

  lemma LoadShows(db: Db, j: Journal, b: Address, l: L.Ledger)
    requires Inv(db, j) && Loadable(j, b) && Shows(db, j, l)
    ensures var j' := LoadAccount(db, j, b).0; Shows(db, j', l) && Inv(db, j') && Loaded(j', b)
  {
    LoadableOk(db, j, b);
    LoadAccountUndoes(db, j, b);
    var j' := LoadAccount(db, j, b).0;
    forall a
      ensures L.BalanceOf(l, a) == Wei(db, j', a)
    {
      LoadEffect(db, j, b, a, 0);
      assert L.BalanceOf(l, a) == Wei(db, j, a);
    }
  }

  lemma SetWei(db: Db, j: Journal, b: Address, v: U256, a: Address)
    requires Loaded(j, b)
    ensures Wei(db, SetBalance(j, b, v), a) == if a == b then v else Wei(db, j, a)
  {
    TouchKeepsInfo(j, b, a);
  }

  lemma SetShows(db: Db, j: Journal, b: Address, v: U256, l: L.Ledger)
    requires Inv(db, j) && Loaded(j, b) && Shows(db, j, l)
    ensures var j' := SetBalance(j, b, v); Shows(db, j', L.SetBalance(l, b, v)) && Inv(db, j') && Loaded(j', b)
  {
    SetBalanceUndoes(db, j, b, v);
    var j' := SetBalance(j, b, v);
    forall a
      ensures L.BalanceOf(L.SetBalance(l, b, v), a) == Wei(db, j', a)
    {
      SetWei(db, j, b, v, a);
      assert L.BalanceOf(l, a) == Wei(db, j, a);
    }
  }

  lemma IncrWei(db: Db, j: Journal, b: Address, amount: nat, a: Address)
    requires Loaded(j, b)
    ensures Wei(db, IncrBalance(j, b, amount).0, a)
            == Wei(db, j, a) + if a == b && Wei(db, j, b) + amount < U256_MODULUS then amount else 0
  {
    TouchKeepsInfo(j, b, a);
    if Wei(db, j, b) + amount < U256_MODULUS {
      SetWei(db, j, b, Wei(db, j, b) + amount, a);
    }
  }

  lemma IncrShows(db: Db, j: Journal, b: Address, amount: nat, l: L.Ledger)
    requires Inv(db, j) && Loaded(j, b) && Shows(db, j, l)
    ensures var j' := IncrBalance(j, b, amount).0; Shows(db, j', L.IncrBalance(l, b, amount)) && Inv(db, j')
  {
    IncrBalanceUndoes(db, j, b, amount);
    var j' := IncrBalance(j, b, amount).0;
    assert L.BalanceOf(l, b) == Wei(db, j, b);
    forall a
      ensures L.BalanceOf(L.IncrBalance(l, b, amount), a) == Wei(db, j', a)
    {
      IncrWei(db, j, b, amount, a);
      assert L.BalanceOf(l, a) == Wei(db, j, a);
    }
  }

  lemma BumpShows(db: Db, j: Journal, b: Address, l: L.Ledger)
    requires Inv(db, j) && Loaded(j, b) && Shows(db, j, l)
    ensures var j' := BumpNonce(j, b).0; Shows(db, j', l) && Inv(db, j')
  {
    BumpNonceUndoes(db, j, b);
    var j' := BumpNonce(j, b).0;
    forall a
      ensures L.BalanceOf(l, a) == Wei(db, j', a)
    {
      TouchKeepsInfo(j, b, a);
      assert L.BalanceOf(l, a) == Wei(db, j, a);
    }
  }

  // ---------- Credits after the execution ----------

  /** Each credit loads the account first. */
  function CreditedAll(db: Db, j: Journal, credits: seq<(Address, nat)>): Journal
    decreases |credits|
  {
    if credits == [] then j
    else
      var last := credits[|credits| - 1];
      IncrBalance(LoadAccount(db, CreditedAll(db, j, credits[..|credits| - 1]), last.0).0, last.0, last.1).0
  }

  ghost predicate SoundCredits(db: Db, j: Journal, credits: seq<(Address, nat)>)
    decreases |credits|
  {
    credits == [] ||
    (var rest := credits[..|credits| - 1];
     SoundCredits(db, j, rest) && Loadable(CreditedAll(db, j, rest), credits[|credits| - 1].0))
  }

  lemma {:induction false} CreditsShow(db: Db, j: Journal, credits: seq<(Address, nat)>, l: L.Ledger)
    requires Inv(db, j) && SoundCredits(db, j, credits) && Shows(db, j, l)
    ensures Shows(db, CreditedAll(db, j, credits), L.CreditAll(l, credits)) && Inv(db, CreditedAll(db, j, credits))
    decreases |credits|
  {
    if credits != [] {
      var n := |credits| - 1;
      CreditsShow(db, j, credits[..n], l);
      var j1, l1 := CreditedAll(db, j, credits[..n]), L.CreditAll(l, credits[..n]);
      LoadShows(db, j1, credits[n].0, l1);
      IncrShows(db, LoadAccount(db, j1, credits[n].0).0, credits[n].0, credits[n].1, l1);
    }
  }

  // ---------- The execution in between ----------

  /** The caller's new balance, and one more nonce for a call. */
  function Debited(db: Db, j: Journal, caller: Address, left: U256, isCall: bool): Journal {
    var j1 := SetBalance(LoadAccount(db, j, caller).0, caller, left);
    if isCall then BumpNonce(j1, caller).0 else j1
  }

  lemma DebitedShows(db: Db, j: Journal, caller: Address, left: U256, isCall: bool, l: L.Ledger)
    requires Inv(db, j) && Loadable(j, caller) && Shows(db, j, l)
    ensures var j' := Debited(db, j, caller, left, isCall);
            Inv(db, j') && Shows(db, j', L.SetBalance(l, caller, left))
  {
    LoadShows(db, j, caller, l);
    var j0 := LoadAccount(db, j, caller).0;
    SetShows(db, j0, caller, left, l);
    BumpShows(db, SetBalance(j0, caller, left), caller, L.SetBalance(l, caller, left));
  }

  /** What runs between charging and settling: the authorizations that pass and the loads of the first
      frame's accounts, then frames. */
  datatype Execution = Execution(prepare: seq<T.Stage>, rules: Rules, first: FrameInput, script: seq<Effect>)

  function Start(db: Db, j: Journal, x: Execution): State {
    State(T.Stages(db, j, x.prepare), [], 0, 0)
  }

  function Executed(db: Db, j: Journal, x: Execution): (State, Option<FrameResult>) {
    RunExec(db, x.rules, Start(db, j, x), x.first, x.script)
  }

  /** Loads and authorizations, none of which takes a mark away. */
  predicate SoundPreparation(db: Db, j: Journal, gs: seq<T.Stage>)
    decreases |gs|
  {
    gs == [] ||
    (&& (gs[0].Load? || gs[0].Authorize?)
     && Loadable(j, gs[0].a)
     && SoundPreparation(db, T.PerformStage(db, j, gs[0]), gs[1..]))
  }

  ghost predicate SoundExecution(db: Db, j: Journal, x: Execution) {
    && SoundPreparation(db, j, x.prepare)
    && SoundExec(db, x.rules, Start(db, j, x), x.first, x.script)
    && Executed(db, j, x).1.Some?
  }

  lemma DelegateKeeps(db: Db, j: Journal, a: Address, code: Hash)
    requires Inv(db, j) && Loaded(j, a)
    ensures Inv(db, Delegate(j, a, code)) && TotalWei(db, Delegate(j, a, code)) == TotalWei(db, j)
  {
    TouchUndoes(db, j, a);
    CodeChangeInv(db, Touch(j, a), a, code);
    var j1 := SetCode(j, a, code);
    InstallWealth(db, j, a, code);
    InstallGrows(j, a, code);
    BumpNonceUndoes(db, j1, a);
    BumpWealth(db, j1, a);
  }

  lemma {:induction false} PreparationKeeps(db: Db, j: Journal, gs: seq<T.Stage>)
    requires Inv(db, j) && SoundPreparation(db, j, gs)
    ensures TotalWei(db, T.Stages(db, j, gs)) == TotalWei(db, j) && Inv(db, T.Stages(db, j, gs))
    decreases |gs|
  {
    if gs != [] {
      var a := gs[0].a;
      LoadableOk(db, j, a);
      LoadWealth(db, j, a);
      LoadAccountUndoes(db, j, a);
      if gs[0].Authorize? {
        DelegateKeeps(db, LoadAccount(db, j, a).0, a, gs[0].code);
      }
      PreparationKeeps(db, T.PerformStage(db, j, gs[0]), gs[1..]);
    }
  }

  /** No run makes wei, and none hands back more gas than its first frame was given. */
  lemma ExecutionKeeps(db: Db, j: Journal, x: Execution)
    requires Inv(db, j) && TotalWei(db, j) < U256_MODULUS && SoundExecution(db, j, x)
    ensures var (s, r) := Executed(db, j, x);
            && Inv(db, s.journal)
            && TotalWei(db, s.journal) <= TotalWei(db, j)
            && r.value.gas.remaining <= x.first.gasLimit
  {
    PreparationKeeps(db, j, x.prepare);
    var s := Start(db, j, x);
    var cap := TotalWei(db, j) + 1;
    StartFits(cap, db, s.journal);
    RunExecRich(cap, db, x.rules, s, x.first, x.script);
    RunExecShape(db, x.rules, s, x.first, x.script);
  }

  // ---------- Mainnet ----------

  datatype Payment = Payment(tx: Tx, block: Block, isCall: bool, london: bool, authRefund: int, floor: nat)

  /** The caller's balance after the charge, if it is accepted. */
  function CallerLeft(db: Db, j: Journal, p: Payment): Option<nat> {
    CallerFee(Wei(db, j, p.tx.caller), p.tx, p.block)
  }

  function GasAtEnd(p: Payment, r: FrameResult): Gas {
    FinalGas(p.tx.gasLimit, r, p.authRefund, p.london, p.floor)
  }

  /** The caller, then the beneficiary. */
  function MainnetCredits(p: Payment, r: FrameResult): seq<(Address, nat)> {
    var g := GasAtEnd(p, r);
    [(p.tx.caller, Reimbursement(p.tx, p.block, g) + 0), (p.block.beneficiary, Reward(p.tx, p.block, g, p.london))]
  }

  lemma MainnetCreditsAre(p: Payment, r: FrameResult, l: L.Ledger)
    ensures var g := GasAtEnd(p, r);
            L.CreditAll(l, MainnetCredits(p, r))
            == RewardBeneficiary(Reimburse(l, p.tx, p.block, g, 0), p.tx, p.block, g, p.london)
  {
    var c := MainnetCredits(p, r);
    assert c[..1][..0] == c[..0];
    assert L.CreditAll(l, c[..1]) == L.IncrBalance(l, c[0].0, c[0].1);
  }

  /** The journal once the caller is charged `left`, the frames have run and all is paid. */
  function Settled(db: Db, j: Journal, p: Payment, left: U256, x: Execution): Journal
    requires Executed(db, Debited(db, j, p.tx.caller, left, p.isCall), x).1.Some?
  {
    var (s, r) := Executed(db, Debited(db, j, p.tx.caller, left, p.isCall), x);
    CreditedAll(db, s.journal, MainnetCredits(p, r.value))
  }

  ghost predicate SoundPayment(db: Db, j: Journal, p: Payment, left: U256, x: Execution) {
    var charged := Debited(db, j, p.tx.caller, left, p.isCall);
    && Inv(db, j) && TotalWei(db, j) < U256_MODULUS && Loadable(j, p.tx.caller)
    && Validated(p.tx, p.block)
    && SoundExecution(db, charged, x)
    && x.first.gasLimit <= p.tx.gasLimit <= U64_MAX && p.floor <= p.tx.gasLimit
    && 0 <= RefundsOf(Executed(db, charged, x).1.value, p.authRefund) < I64_MODULUS
    && SoundCredits(db, Executed(db, charged, x).0.journal, MainnetCredits(p, Executed(db, charged, x).1.value))
  }

  /** For every transaction that is charged and every program: all wei that the journal showed before is
      shown after, was lost by the execution, or is the burned base fee or blob fee. */
  lemma MainnetOnJournal(db: Db, j: Journal, p: Payment, left: U256, x: Execution)
    requires CallerLeft(db, j, p) == Some(left) && SoundPayment(db, j, p, left, x)
    ensures var charged := Debited(db, j, p.tx.caller, left, p.isCall);
            var (s, r) := Executed(db, charged, x);
            && TotalWei(db, s.journal) <= TotalWei(db, charged)
            && TotalWei(db, Settled(db, j, p, left, x)) + (TotalWei(db, charged) - TotalWei(db, s.journal))
               + BurnedBaseFee(p.block, GasAtEnd(p, r.value), p.london) + BlobFee(p.tx, p.block.blobPrice)
               == TotalWei(db, j)
  {
    var l := Purse(db, j);
    PurseShows(db, j);
    ShowsSupply(db, j, l);
    PurseBalance(db, j, p.tx.caller);
    DebitedShows(db, j, p.tx.caller, left, p.isCall, l);
    var charged := Debited(db, j, p.tx.caller, left, p.isCall);
    var paid := L.SetBalance(l, p.tx.caller, left);
    ShowsSupply(db, charged, paid);
    L.SupplySet(l, p.tx.caller, left);
    ExecutionKeeps(db, charged, x);
    var (s, r) := Executed(db, charged, x);
    SettledSupply(db, l, s.journal, p, r.value, TotalWei(db, charged) - TotalWei(db, s.journal));
  }

  lemma SettledSupply(db: Db, l: L.Ledger, j: Journal, p: Payment, r: FrameResult, lost: nat)
    requires Validated(p.tx, p.block) && Deduct(l, p.tx, p.block).Some? && L.Supply(l) < U256_MODULUS
    requires Inv(db, j) && TotalWei(db, j) + lost == L.Supply(Deduct(l, p.tx, p.block).value)
    requires r.gas.remaining <= p.tx.gasLimit <= U64_MAX && p.floor <= p.tx.gasLimit
    requires 0 <= RefundsOf(r, p.authRefund) < I64_MODULUS && SoundCredits(db, j, MainnetCredits(p, r))
    ensures TotalWei(db, CreditedAll(db, j, MainnetCredits(p, r))) + lost
            + BurnedBaseFee(p.block, GasAtEnd(p, r), p.london) + BlobFee(p.tx, p.block.blobPrice) == L.Supply(l)
  {
    var executed := Purse(db, j);
    PurseShows(db, j);
    ShowsSupply(db, j, executed);
    MainnetConserves(l, p.tx, p.block, p.london, executed, lost, r, p.authRefund, p.floor);
    CreditsShow(db, j, MainnetCredits(p, r), executed);
    MainnetCreditsAre(p, r, executed);
    ShowsSupply(db, CreditedAll(db, j, MainnetCredits(p, r)), L.CreditAll(executed, MainnetCredits(p, r)));
  }

  // ---------- Optimism ----------

  /** The ledger, the outcome and the loss that `it` speaks of are those of running `x` on the charged
      journal. */
  ghost predicate RunBy(db: Db, charged: Journal, x: Execution, it: O.Item)
    requires SoundExecution(db, charged, x)
  {
    var (s, r) := Executed(db, charged, x);
    && it.executed == Purse(db, s.journal)
    && it.result == r.value
    && it.lost + TotalWei(db, s.journal) == TotalWei(db, charged)
  }

  /** The same on Optimism, for a transaction that is charged `left`: what the settlement takes the
      execution to keep is kept, and the journal shows the ledger that the settlement arrives at. */
  lemma OptimismOnJournal(db: Db, j: Journal, c: O.Chain, it: O.Item, left: U256, isCall: bool, x: Execution)
    requires Inv(db, j) && Shows(db, j, c.ledger) && Loadable(j, it.tx.caller)
    requires O.FeesSound(c, it) && c.l1.txL1Cost.None? && !O.Fails(it)
    requires O.Accepted(c, it).0 == Some(L.SetBalance(c.ledger, it.tx.caller, left))
    requires var charged := Debited(db, j, it.tx.caller, left, isCall);
             && SoundExecution(db, charged, x) && RunBy(db, charged, x, it) && x.first.gasLimit <= it.tx.gasLimit
             && TotalWei(db, charged) < U256_MODULUS
             && SoundCredits(db, Executed(db, charged, x).0.journal, O.Payouts(O.Accepted(c, it).1, it, O.GasOf(it)))
    ensures var s := Executed(db, Debited(db, j, it.tx.caller, left, isCall), x).0;
            var settled := CreditedAll(db, s.journal, O.Payouts(O.Accepted(c, it).1, it, O.GasOf(it)));
            && O.Sound(c, it)
            && Shows(db, settled, O.Transact(c, it).ledger)
            && TotalWei(db, settled) + O.Burned(c, it) == TotalWei(db, j) + O.Minted(c, it)
  {
    DebitedShows(db, j, it.tx.caller, left, isCall, c.ledger);
    var charged := Debited(db, j, it.tx.caller, left, isCall);
    ShowsSupply(db, charged, L.SetBalance(c.ledger, it.tx.caller, left));
    ShowsSupply(db, j, c.ledger);
    ExecutionKeeps(db, charged, x);
    var s := Executed(db, charged, x).0;
    var credits := O.Payouts(O.Accepted(c, it).1, it, O.GasOf(it));
    PurseShows(db, s.journal);
    ShowsSupply(db, s.journal, it.executed);
    O.TransactSupply(c, it);
    CreditsShow(db, s.journal, credits, it.executed);
    ShowsSupply(db, CreditedAll(db, s.journal, credits), L.CreditAll(it.executed, credits));
  }

  /** What the settlement takes a failed deposit to leave is what the journal shows once its error has
      been caught, whatever it had done. */
  lemma FailedDepositOnJournal(db: Db, j: Journal, e: Journal, tx: D.DepositTx, regolith: bool, warm: set<Address>,
                               l: L.Ledger)
    requires T.Begins(db, j) && Since(db, j, e) && Shows(db, j, l)
    ensures Shows(db, D.CatchDeposit(db, e, tx, regolith, warm).0, L.IncrBalance(l, tx.caller, tx.mint))
  {
    var r := D.CatchDeposit(db, e, tx, regolith, warm).0;
    assert L.BalanceOf(l, tx.caller) == Wei(db, j, tx.caller);
    forall a
      ensures L.BalanceOf(L.IncrBalance(l, tx.caller, tx.mint), a) == Wei(db, r, a)
    {
      D.CaughtDeposit(db, j, e, tx, regolith, warm, a, 0);
      assert L.BalanceOf(l, a) == Wei(db, j, a);
    }
  }
}
