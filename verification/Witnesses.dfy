/** For each property that the code has only under a condition, one concrete input on which it fails. */
module Witnesses {
  import opened Wrappers
  import opened Journal
  import opened JournalOps
  import opened JournalRuns
  import opened Frames
  import T = Transaction
  import S = Settlement
  import O = OpSettlement
  import E = Eip7702
  import C = CacheDb
  import L = Ledger

  const PAYER: Address := 7
  const CONTRACT: Address := 8
  const SOME_CODE: Hash := 99

  function Fresh(txId: nat, cancun: bool): Journal {
    Journal(map[], map[], [], 0, [], Config(txId, true, cancun, {}, {}, {}))
  }

  function Holding(balance: U256): Account {
    Account(Info(balance, 1, SOME_CODE), NO_STATUS, 0, map[])
  }

  // ---------- The journal ----------

  predicate KeepsCode(e: Entry) {
    !e.NonceChange? && !e.AccountCreated? && !e.CodeChange?
  }

  lemma {:induction false} UndoKeepsCode(j: Journal, n: nat, a: Address)
    requires n <= |j.entries| && a in j.state && forall i :: n <= i < |j.entries| ==> KeepsCode(j.entries[i])
    ensures var r := RevertEntries(j, n);
            && a in r.state
            && r.state[a].info.code == j.state[a].info.code && r.state[a].info.nonce == j.state[a].info.nonce
    decreases |j.entries|
  {
    if |j.entries| > n {
      var last := |j.entries| - 1;
      assert KeepsCode(j.entries[last]);
      UndoKeepsCode(RevertEntry(j.entries[last], j.(entries := j.entries[..last])), n, a);
    }
  }

  /** What the selfdestruct and the load have added to the undo log. */
  lemma DestroyedEntries(db: Db, j: Journal, a: Address, target: Address)
    requires a in j.state && a != target && !j.cfg.cancun && j.state[a].txId != j.cfg.txId
    ensures var destroyed := Selfdestruct(db, j, a, target);
            && a in destroyed.state && destroyed.state[a].status.destroyedLocal
            && destroyed.state[a].txId == j.state[a].txId && destroyed.cfg == j.cfg
            && j.entries <= destroyed.entries
            && forall i :: |j.entries| <= i < |destroyed.entries| ==> KeepsCode(destroyed.entries[i])
  {
  }

  /** In a later transaction of a journal, before Cancun: a contract is taken from the database,
      destroys itself and is loaded again.  When all of this is undone its code and nonce are gone. */
  lemma DestroyedThenLoaded(db: Db, j: Journal, a: Address, target: Address)
    requires Inv(db, j) && j.cfg.txId != 0 && !j.cfg.cancun
    requires a !in j.state && a in db.accounts && a != target && db.accounts[a].code != KECCAK_EMPTY
    ensures var destroyed := Selfdestruct(db, LoadAccount(db, j, a).0, a, target);
            var r := RevertEntries(LoadAccount(db, destroyed, a).0, |j.entries|);
            && !LoadOk(destroyed, a)
            && ViewOf(db, r, a).info.code == KECCAK_EMPTY && ViewOf(db, r, a).info.nonce == 0
            && !SameWorld(db, j, r)
  {
    var j1 := LoadAccount(db, j, a).0;
    DestroyedEntries(db, j1, a, target);
    ClearedForGood(db, j, Selfdestruct(db, j1, a, target), |j.entries|, a);
  }

  /** Loading what was destroyed clears it, and undoing does not bring it back. */
  lemma ClearedForGood(db: Db, j: Journal, destroyed: Journal, n: nat, a: Address)
    requires a in destroyed.state && destroyed.state[a].status.destroyedLocal && a !in destroyed.cfg.leftover
    requires destroyed.state[a].txId != destroyed.cfg.txId && n <= |destroyed.entries|
    requires forall i :: n <= i < |destroyed.entries| ==> KeepsCode(destroyed.entries[i])
    requires ViewOf(db, j, a).info.code != KECCAK_EMPTY
    ensures var r := RevertEntries(LoadAccount(db, destroyed, a).0, n);
            && !LoadOk(destroyed, a)
            && ViewOf(db, r, a).info.code == KECCAK_EMPTY && ViewOf(db, r, a).info.nonce == 0
            && !SameWorld(db, j, r)
  {
    var j3 := LoadAccount(db, destroyed, a).0;
    assert j3.state[a].info == EMPTY_INFO;
    UndoKeepsCode(j3, n, a);
    var r := RevertEntries(j3, n);
    assert ViewOf(db, r, a).info.code != ViewOf(db, j, a).info.code;
  }

  /** An account is created where the database holds a slot; a read of that slot, taken back with the
      creation, leaves it at zero. */
  lemma CreatedOverStorage()
    ensures var db := Db(map[], map[(CONTRACT, 0) := 42]);
            var j := LoadAccount(db, Fresh(0, true), CONTRACT).0;
            var created := MarkCreated(j, CONTRACT);
            var r := RevertEntries(Sload(db, created, CONTRACT, 0).0, |j.entries|);
            && !SlotOk(db, created, CONTRACT, 0)
            && SlotOf(db, j, CONTRACT, 0).value == 42 && SlotOf(db, r, CONTRACT, 0).value == 0
            && !SameWorld(db, j, r)
  {
    var db := Db(map[], map[(CONTRACT, 0) := 42]);
    var j := LoadAccount(db, Fresh(0, true), CONTRACT).0;
    var created := MarkCreated(j, CONTRACT);
    var j2 := Sload(db, created, CONTRACT, 0).0;
    var n := |j.entries|;
    assert j2.entries == j.entries + [AccountCreated(CONTRACT, true), StorageWarmed(CONTRACT, 0)];
    var r1 := RevertEntry(StorageWarmed(CONTRACT, 0), j2.(entries := created.entries));
    assert j2.entries[..n + 1] == created.entries && created.entries[..n] == j.entries;
    var r0 := RevertEntry(AccountCreated(CONTRACT, true), r1.(entries := j.entries));
    assert RevertEntries(j2, n) == RevertEntries(r1, n);
    assert RevertEntries(r1, n) == r0;
    assert SlotOf(db, r0, CONTRACT, 0).value != SlotOf(db, j, CONTRACT, 0).value;
  }

  /** A contract from the database destroys itself, and the transaction is committed: the next one finds
      an empty account whose slot still reads 42. */
  lemma DestroyedSlotReturns()
    ensures var db := Db(map[CONTRACT := Info(5, 1, SOME_CODE)], map[(CONTRACT, 0) := 42]);
            var destroyed := Selfdestruct(db, LoadAccount(db, Fresh(0, false), CONTRACT).0, CONTRACT, PAYER);
            var next := LoadAccount(db, T.CommitTx(destroyed, {}), CONTRACT).0;
            && destroyed.state[CONTRACT].status.destroyedLocal
            && next.state[CONTRACT].info == EMPTY_INFO
            && Sload(db, next, CONTRACT, 0).1 == 42
  {
    var db := Db(map[CONTRACT := Info(5, 1, SOME_CODE)], map[(CONTRACT, 0) := 42]);
    var destroyed := Selfdestruct(db, LoadAccount(db, Fresh(0, false), CONTRACT).0, CONTRACT, PAYER);
    assert destroyed.state[CONTRACT].txId == 0;
  }

  /** Before Spurious Dragon an account is created twice in one transaction: taking the second creation
      back also takes the mark of the first. */
  lemma CreatedTwice()
    ensures var db := Db(map[], map[]);
            var j := LoadAccount(db, Fresh(0, true).(cfg := Config(0, false, false, {}, {}, {})), CONTRACT).0;
            var once := MarkCreated(j, CONTRACT);
            && !Collides(once, CONTRACT)
            && !SameWorld(db, once, RevertEntries(MarkCreated(once, CONTRACT), |once.entries|))
  {
    var db := Db(map[], map[]);
    var j := LoadAccount(db, Fresh(0, true).(cfg := Config(0, false, false, {}, {}, {})), CONTRACT).0;
    MarkTakenBack(db, MarkCreated(j, CONTRACT), CONTRACT);
  }

  /** One wei to an account that already holds the greatest balance: refused, and still missing after
      the revert. */
  lemma OverflowStaysDebited()
    ensures var db := Db(map[], map[]);
            var j := Fresh(0, true).(state := map[PAYER := Holding(1), CONTRACT := Holding(U256_MODULUS - 1)]);
            var (j', err) := TransferLoaded(j, PAYER, CONTRACT, 1);
            && err == Some(OverflowPayment)
            && !SameWorld(db, j, RevertEntries(j', 0))
  {
    var db := Db(map[], map[]);
    var j := Fresh(0, true).(state := map[PAYER := Holding(1), CONTRACT := Holding(U256_MODULUS - 1)]);
    LoadedInv(db, j);
    OverflowCase(j, PAYER, CONTRACT, 1);
    FailedTransferRestored(db, j, PAYER, CONTRACT, 1);
  }

  lemma LoadedInv(db: Db, j: Journal)
    requires j.entries == [] && j.transient == map[] && j.cfg == Config(0, true, true, {}, {}, {})
    requires db.accounts == map[]
    requires forall a :: a in j.state ==> j.state[a] == Holding(j.state[a].info.balance)
    ensures Inv(db, j)
  {
    forall a
      ensures FlagsOk(j.cfg, a, ViewOf(db, j, a))
    {
    }
  }

  /** An authority with code delegates anew; taking that back loses the code it had. */
  lemma DelegationLost()
    ensures var db := Db(map[], map[]);
            var j := Fresh(0, true).(state := map[CONTRACT := Holding(0)]);
            var r := RevertEntries(Delegate(j, CONTRACT, 100), 0);
            && ViewOf(db, j, CONTRACT).info.code == SOME_CODE
            && !SameWorld(db, j, r)
  {
    var db := Db(map[], map[]);
    var j := Fresh(0, true).(state := map[CONTRACT := Holding(0)]);
    LoadedInv(db, j);
    DelegationTakenBack(db, j, CONTRACT, 100);
  }

  // ---------- Frames ----------

  const RULES: Rules := Rules(true, true, true, true, false, 24576)

  function DelegateTo(a: Address): Effect {
    SubCall(DelegateCall, a, 0, 1000, None, None, true)
  }

  /** A delegate call to a warm account: the frame it asks for. */
  lemma DelegateCallAsks(db: Db, s: State, a: Address) returns (limit: nat)
    requires s.frames != [] && Top(s).gas.remaining >= 200
    requires a in s.journal.state && !IsCold(s.journal, s.journal.state[a])
    ensures limit == ChildLimit(RULES, Top(s).gas.remaining - 100, 1000)
    ensures var (s1, action) := Exec(db, RULES, s, DelegateTo(a));
            && s1.journal == s.journal && |s1.frames| == |s.frames|
            && s1.frames == s.frames[|s.frames| - 1 := Top(s).(gas := Top(s1).gas)]
            && action == Some(NewFrame(CallInput(Top(s).target, Top(s).target, None, limit, None, None, true)))
  {
    var e := DelegateTo(a);
    WarmLoadUnseen(db, s.journal, a);
    limit := ChildLimit(RULES, Top(s).gas.remaining - 100, 1000);
    assert LoadDelegated(db, RULES, s.journal, Top(s).gas.remaining - 100, e) == Lookup([OpLoad(a)], Some(0));
  }

  /** It enters a frame whose checkpoint lies where the journal ends. */
  lemma DelegateCallEnters(db: Db, s: State, a: Address, rest: seq<Effect>) returns (s': State)
    requires s.frames != [] && Top(s).gas.remaining >= 200 && Top(s).depth < CALL_STACK_LIMIT
    requires a in s.journal.state && !IsCold(s.journal, s.journal.state[a])
    ensures |s'.frames| == |s.frames| + 1 && s'.journal == TakeCheckpoint(s.journal).0
    ensures RunLoop(db, RULES, s, [DelegateTo(a)] + rest) == RunLoop(db, RULES, s', rest)
    ensures forall i :: 0 <= i < |s.frames| ==> s'.frames[i].checkpoint == s.frames[i].checkpoint
    ensures Top(s').checkpoint == TakeCheckpoint(s.journal).1 && Top(s').depth == Top(s).depth + 1
    ensures Top(s').gas.remaining == ChildLimit(RULES, Top(s).gas.remaining - 100, 1000)
  {
    var e := DelegateTo(a);
    var script := [e] + rest;
    assert script[0] == e && script[1..] == rest;
    var limit := DelegateCallAsks(db, s, a);
    var (s1, action) := Exec(db, RULES, s, e);
    assert RunTop(db, RULES, s, script) == (s1, action, rest);
    s' := InnerEntered(db, s1, limit);
  }

  lemma InnerEntered(db: Db, s: State, limit: nat) returns (s': State)
    requires s.frames != [] && Top(s).depth < CALL_STACK_LIMIT
    ensures var input := CallInput(Top(s).target, Top(s).target, None, limit, None, None, true);
            Advance(db, RULES, s, NewFrame(input)) == (s', None)
    ensures |s'.frames| == |s.frames| + 1 && s'.journal == TakeCheckpoint(s.journal).0
    ensures forall i :: 0 <= i < |s.frames| ==> s'.frames[i].checkpoint == s.frames[i].checkpoint
    ensures Top(s').checkpoint == TakeCheckpoint(s.journal).1 && Top(s').depth == Top(s).depth + 1
    ensures Top(s').gas.remaining == limit
  {
    var input := CallInput(Top(s).target, Top(s).target, None, limit, None, None, true);
    s' := Advance(db, RULES, s, NewFrame(input)).0;
  }

  lemma WarmLoadUnseen(db: Db, j: Journal, a: Address)
    requires a in j.state && !IsCold(j, j.state[a])
    ensures LoadAccount(db, j, a) == (j, false) && PerformAll(db, j, [OpLoad(a)]) == j
  {
    assert j.state[a := j.state[a]] == j.state;
    assert [OpLoad(a)][1..] == [];
    assert PerformAll(db, j, [OpLoad(a)]) == PerformAll(db, Perform(db, j, OpLoad(a)), []);
  }

  /** A call whose code delegates twice to itself: the two inner frames share a checkpoint. */
  lemma SharedCheckpoint()
    ensures var db := Db(map[], map[]);
            var j := Fresh(0, true).(state := map[PAYER := Holding(0), CONTRACT := Holding(0)]);
            var first := CallInput(PAYER, CONTRACT, Some(0), 100_000, None, None, true);
            var s := RunExec(db, RULES, State(j, [], 0, 0), first, [DelegateTo(CONTRACT), DelegateTo(CONTRACT)]).0;
            |s.frames| == 3 && s.frames[1].checkpoint == s.frames[2].checkpoint
  {
    var db := Db(map[], map[]);
    var j := Fresh(0, true).(state := map[PAYER := Holding(0), CONTRACT := Holding(0)]);
    var first := CallInput(PAYER, CONTRACT, Some(0), 100_000, None, None, true);
    var e := DelegateTo(CONTRACT);
    var s1 := FrameInit(db, State(j, [], 0, 0), first).0;
    var s2 := DelegateCallEnters(db, s1, CONTRACT, [e]);
    assert [e] + [e] == [e, e] && [e] + [] == [e];
    var s3 := DelegateCallEnters(db, s2, CONTRACT, []);
    assert RunLoop(db, RULES, s3, []) == (s3, None);
  }

  // ---------- Fees ----------

  /** Of a hundred gas spent, a refund counter of minus one gives back twenty. */
  lemma NegativeRefund()
    ensures S.SetFinalRefund(Gas(100, 0, -1), true).refunded == 20
  {
    assert S.AsU64(-1) == U64_MODULUS - 1;
  }

  /** No fees but one wei for each unit of gas to the operator, and no wei at all. */
  predicate Poor(c: O.Chain) {
    && c.ledger == map[]
    && c.l1 == O.L1Info(Some(1), 0, None, 0, None, None, Some(1_000_000), Some(0), false, None)
  }

  /** A transaction with empty enveloped bytes that leaves ten gas beyond the 21000 it needs. */
  predicate Free(it: O.Item) {
    && it.tx == S.Tx(PAYER, 21_010, 0, true, None, 0, false, 0, 0) && it.deposit.None?
    && it.envelope == O.Envelope(true, false, 0, 0)
    && it.block == S.Block(0, 0, CONTRACT) && it.number == 1
    && it.spec == O.OpSpec(true, true, true, true, false) && it.fetched.txL1Cost.None?
    && it.initialGas == 21_000 && it.floor == 21_000 && !it.invalid
    && it.executed == map[PAYER := 0] && it.lost == 0
    && it.result == FrameResult(Success, Gas(10, 10, 0)) && it.authRefund == 0
  }

  lemma FreeRefund(c: O.Chain, it: O.Item)
    requires Poor(c) && Free(it)
    ensures O.GasOf(it) == Gas(21_010, 10, 0)
    ensures O.OperatorRefund(c.l1, O.GasOf(it), it.spec) == 10
  {
    assert O.OperatorInner(c.l1, 21_010, it.spec) == 21_010;
    assert O.OperatorInner(c.l1, 21_000, it.spec) == 21_000;
  }

  lemma FreeAccepted(it: O.Item)
    requires Free(it)
    ensures !O.Rejected(it)
  {
  }

  lemma NothingSpent(tx: S.Tx, price: nat, blobPrice: nat)
    requires price == 0 && tx.value == 0 && !tx.isBlob
    ensures S.Spending(tx, price, blobPrice) == Some(0)
  {
    assert tx.gasLimit * price == 0;
  }

  lemma NothingCharged(balance: nat, tx: S.Tx, block: S.Block)
    requires tx.maxFee == 0 && tx.legacy && tx.value == 0 && !tx.isBlob
    ensures S.CallerFee(balance, tx, block) == Some(balance)
  {
    NothingSpent(tx, tx.maxFee, tx.maxBlobFee);
    NothingSpent(tx, S.EffectivePrice(tx, block.basefee), block.blobPrice);
  }

  lemma SpecialIsFree(l1: O.L1Info, e: O.Envelope, gas: nat, spec: O.OpSpec)
    requires O.Special(e) && l1.txL1Cost.None?
    ensures O.TxCost(l1, e, gas, spec) == 0 && O.FreshL1Cost(l1, e, spec) == 0 && O.OperatorShare(l1, e, gas, spec) == 0
  {
  }

  lemma ChargedNothing(c: O.Chain, it: O.Item)
    requires it.deposit.None? && O.Special(it.envelope) && O.Reloaded(c.l1, it).txL1Cost.None?
    requires it.tx.maxFee == 0 && it.tx.legacy && it.tx.value == 0 && !it.tx.isBlob
    ensures O.Charged(c, it).0 == Some(L.SetBalance(c.ledger, it.tx.caller, L.BalanceOf(c.ledger, it.tx.caller)))
  {
    SpecialIsFree(O.Reloaded(c.l1, it), it.envelope, it.tx.gasLimit, it.spec);
    NothingCharged(L.BalanceOf(c.ledger, it.tx.caller), it.tx, it.block);
  }

  lemma FreeMinted(c: O.Chain, it: O.Item)
    requires Poor(c) && Free(it) && O.Accepted(c, it).0.Some?
    ensures O.Minted(c, it) == 10
  {
    FreeRefund(c, it);
  }

  lemma FreeSupply(c: O.Chain, it: O.Item, paid: Option<L.Ledger>)
    requires Poor(c) && Free(it) && paid == Some(L.SetBalance(c.ledger, PAYER, 0))
    ensures L.Supply(c.ledger) == 0 && L.Supply(it.executed) + it.lost == L.Supply(paid.value)
  {
    L.SupplyZero(c.ledger);
  }

  lemma FreeFees(c: O.Chain, it: O.Item)
    requires Poor(c) && Free(it) && O.Minted(c, it) == 10 && L.Supply(c.ledger) == 0
    requires O.FreshL1Cost(c.l1, it.envelope, it.spec) + O.OperatorShare(c.l1, it.envelope, 21_010, it.spec) == 0
    ensures O.FeesSound(c, it)
  {
    assert O.Reloaded(c.l1, it) == c.l1;
  }

  lemma FreeSound(c: O.Chain, it: O.Item)
    requires Poor(c) && Free(it)
    ensures O.Sound(c, it) && O.Minted(c, it) == 10 && O.Burned(c, it) == 0 && L.Supply(c.ledger) == 0
    ensures O.Accepted(c, it).0.Some?
  {
    FreeAccepted(it);
    ChargedNothing(c, it);
    FreeMinted(c, it);
    SpecialIsFree(c.l1, it.envelope, 21_010, it.spec);
    FreeSupply(c, it, O.Accepted(c, it).0);
    FreeFees(c, it);
  }

  /** The caller is charged nothing and refunded ten wei, which nobody had before. */
  lemma RefundMints(c: O.Chain, it: O.Item)
    requires Poor(c) && Free(it)
    ensures O.Accepted(c, it).0.Some? && L.Supply(c.ledger) == 0 && L.Supply(O.Transact(c, it).ledger) == 10
  {
    FreeSound(c, it);
    LeavesTen(c, it);
  }

  lemma LeavesTen(c: O.Chain, it: O.Item)
    requires O.Sound(c, it) && c.l1.txL1Cost.None? && O.Accepted(c, it).0.Some?
    requires O.Minted(c, it) == O.Burned(c, it) + 10 && L.Supply(c.ledger) == 0
    ensures L.Supply(O.Transact(c, it).ledger) == 10
  {
    O.TransactSupply(c, it);
  }

  /** A deposit without mint from an account without wei, at one wei for each unit of gas, that leaves ten
      beyond the 21000 it needs. */
  predicate Overdrawn(it: O.Item) {
    && it.tx == S.Tx(PAYER, 21_010, 1, true, None, 0, false, 0, 0) && it.deposit == Some(O.Deposit(0, false))
    && it.spec.regolith && it.fetched.txL1Cost.None? && it.block == S.Block(0, 0, CONTRACT)
    && it.initialGas == 21_000 && it.floor == 21_000
    && it.executed == map[PAYER := 0] && it.lost == 0
    && it.result == FrameResult(Success, Gas(10, 10, 0)) && it.authRefund == 0
  }

  lemma OverdrawnGas(it: O.Item)
    requires Overdrawn(it)
    ensures O.GasOf(it) == Gas(21_010, 10, 0) && S.Used(O.GasOf(it)) == 21_000
    ensures O.Price(it) == 1 && !O.Rejected(it) && !O.Fails(it)
  {
  }

  lemma OverdrawnCharge(c: O.Chain, it: O.Item)
    requires c.ledger == map[] && Overdrawn(it)
    ensures O.Accepted(c, it).0 == Some(map[PAYER := 0])
    ensures O.Minted(c, it) == 21_010
  {
    OverdrawnGas(it);
    assert S.Spending(it.tx, 1, 0) == Some(21_010);
    assert O.DepositLeft(0, it) == Some(0);
  }

  lemma OverdrawnSound(c: O.Chain, it: O.Item)
    requires c.ledger == map[] && Overdrawn(it) && O.Minted(c, it) == 21_010
    requires O.Accepted(c, it).0 == Some(map[PAYER := 0])
    ensures O.Sound(c, it) && L.Supply(c.ledger) == 0
  {
    L.SupplyZero(c.ledger);
    L.SupplyZero(map[PAYER := 0]);
  }

  lemma OverdrawnBurns(c: O.Chain, it: O.Item)
    requires Overdrawn(it) && O.Accepted(c, it).0.Some?
    ensures O.Burned(c, it) == 21_000
  {
    OverdrawnGas(it);
  }

  /** It is charged nothing, burns what 21000 gas cost and is reimbursed ten wei. */
  lemma OverdrawnDeposit(c: O.Chain, it: O.Item)
    requires c.ledger == map[] && c.l1.txL1Cost.None? && Overdrawn(it)
    ensures O.Accepted(c, it).0 == Some(map[PAYER := 0])
    ensures O.Minted(c, it) == 21_010 && O.Burned(c, it) == 21_000
    ensures L.Supply(c.ledger) == 0 && L.Supply(O.Transact(c, it).ledger) == 10
  {
    OverdrawnCharge(c, it);
    OverdrawnSound(c, it);
    OverdrawnBurns(c, it);
    LeavesTen(c, it);
  }

  // ---------- Authorizations ----------

  /** Two authorizations of one authority with successive nonces: in the other order only one fires. */
  lemma SuccessiveNonces()
    ensures var u, w := E.Auth(true, Some(CONTRACT), 0, 1), E.Auth(true, Some(CONTRACT), 1, 2);
            && multiset([u, w]) == multiset([w, u])
            && E.Apply(map[], [u, w])[CONTRACT].acct.nonce == 2
            && E.Apply(map[], [w, u])[CONTRACT].acct.nonce == 1
  {
    var u, w := E.Auth(true, Some(CONTRACT), 0, 1), E.Auth(true, Some(CONTRACT), 1, 2);
    assert [u, w][..1] == [u] && [w, u][..1] == [w] && [u][..0] == [] && [w][..0] == [];
    assert E.Apply(map[], [u]) == map[CONTRACT := E.Fired(E.Before(map[], CONTRACT), 1)];
    assert E.Apply(map[], [w]) == map[CONTRACT := E.Warm(E.Before(map[], CONTRACT))];
  }

  // ---------- The overlay database ----------

  const OLD_SLOT: C.Reader := C.Reader((a: Address) => None, (a: Address, k: Key) => 42, (h: Hash) => 0, (n: nat) => 0)

  /** An account that a commit destroyed is touched by the next one: the database's slot is back. */
  lemma SlotReturns()
    ensures var c := C.Cache(map[CONTRACT := C.NO_ACCOUNT], map[], map[]);
            var ch := C.Change(true, false, false, Info(1, 0, KECCAK_EMPTY), None, map[]);
            && C.StorageRef(c, OLD_SLOT, CONTRACT, 0) == 0
            && C.ReplayStorage(0, ch, 0) == 0
            && C.StorageRef(C.CommitAt(c, CONTRACT, ch), OLD_SLOT, CONTRACT, 0) == 42
  {
    var c := C.Cache(map[CONTRACT := C.NO_ACCOUNT], map[], map[]);
    var ch := C.Change(true, false, false, Info(1, 0, KECCAK_EMPTY), None, map[]);
    assert C.CommitOne(C.NO_ACCOUNT, ch).state.Touched?;
  }

  /** The inner cache holds a slot, the outer one only the account: flattened, the slot is forgotten. */
  lemma SlotDropped()
    ensures var x := C.DbAccount(Info(1, 0, KECCAK_EMPTY), C.Touched, map[]);
            var outer := C.Cache(map[CONTRACT := x], map[], map[]);
            var inner := C.Cache(map[CONTRACT := x.(storage := map[0 := 7])], map[], map[]);
            && C.StorageRef(outer, C.Over(inner, OLD_SLOT), CONTRACT, 0) == 7
            && C.StorageRef(C.Flatten(outer, inner), OLD_SLOT, CONTRACT, 0) == 42
  {
    var x := C.DbAccount(Info(1, 0, KECCAK_EMPTY), C.Touched, map[]);
    var outer := C.Cache(map[CONTRACT := x], map[], map[]);
    var inner := C.Cache(map[CONTRACT := x.(storage := map[0 := 7])], map[], map[]);
    assert C.Flatten(outer, inner).accounts[CONTRACT] == x;
  }
}
