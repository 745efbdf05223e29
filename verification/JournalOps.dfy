/** The operations of the journal (crates/context/src/journal/inner.rs and
    crates/context/interface/src/journaled_state/account.rs), each with the proof that what it does
    can be taken back. */
module JournalOps {
  import opened Wrappers
  import opened Journal

  datatype TransferError = OutOfFunds | OverflowPayment | CreateCollision

  function Put(j: Journal, a: Address, x: Account): Journal {
    j.(state := j.state[a := x])
  }

  // ---------- Accounts ----------

  function Touch(j: Journal, a: Address): Journal
    requires a in j.state
  {
    var x := j.state[a];
    if x.status.touched then j
    else Push(Put(j, a, x.(status := x.status.(touched := true))), AccountTouched(a))
  }

  function SetBalance(j: Journal, a: Address, balance: U256): Journal
    requires a in j.state
  {
    var j1 := Touch(j, a);
    var x := j1.state[a];
    if x.info.balance == balance then j1
    else Push(Put(j1, a, x.(info := x.info.(balance := balance))), BalanceChange(a, x.info.balance))
  }

  /** False, with nothing changed but the touched mark, when the balance would overflow. */
  function IncrBalance(j: Journal, a: Address, amount: nat): (Journal, bool)
    requires a in j.state
  {
    var balance := j.state[a].info.balance + amount;
    if balance >= U256_MODULUS then (Touch(j, a), false) else (SetBalance(j, a, balance), true)
  }

  function BumpNonce(j: Journal, a: Address): (Journal, bool)
    requires a in j.state
  {
    var j1 := Touch(j, a);
    var x := j1.state[a];
    if x.info.nonce == U64_MAX then (j1, false)
    else (Push(Put(j1, a, x.(info := x.info.(nonce := x.info.nonce + 1))), NonceChange(a)), true)
  }

  function SetCode(j: Journal, a: Address, code: Hash): Journal
    requires a in j.state
  {
    var j1 := Touch(j, a);
    var x := j1.state[a];
    Push(Put(j1, a, x.(info := x.info.(code := code))), CodeChange(a))
  }

  /** An account as it comes out of the database.  An existing account is stamped with transaction
      zero, whatever the current transaction is. */
  function FreshAccount(db: Db, j: Journal, a: Address): Account {
    if a in db.accounts then Account(db.accounts[a], NO_STATUS, 0, map[])
    else Account(EMPTY_INFO, NO_STATUS.(notExisting := true), j.cfg.txId, map[])
  }

  function IsCold(j: Journal, x: Account): bool {
    x.txId != j.cfg.txId || x.status.cold
  }

  /** What a cold load makes of an account that is already present: it is marked warm, and taken to be
      left over from an earlier transaction. */
  function Warmed(j: Journal, x: Account): Account {
    var y := Cleared(x);
    y.(status := y.status.(cold := false), txId := j.cfg.txId)
  }

  predicate Loaded(j: Journal, a: Address) {
    Live(j.state, j.cfg, a)
  }

  /** A cold load takes away marks that this transaction made, and undoing it does not bring them
      back.  Only an account stamped with an earlier transaction can be in that situation. */
  predicate LoadOk(j: Journal, a: Address) {
    Loaded(j, a) && IsCold(j, j.state[a]) ==> !Flagged(j.state[a].status)
  }

  /** The journal after the load, and whether the load was cold. */
  function LoadAccount(db: Db, j: Journal, a: Address): (Journal, bool) {
    var present := a in j.state;
    var cold := a !in j.cfg.warm && (present ==> IsCold(j, j.state[a]));
    var x := if !present then FreshAccount(db, j, a)
             else if IsCold(j, j.state[a]) then Warmed(j, j.state[a])
             else j.state[a];
    var j1 := Put(j, a, x);
    (if cold then Push(j1, AccountWarmed(a)) else j1, cold)
  }

  // ---------- Moving value ----------

  function AddTo(s: Accounts, a: Address, v: U256): Accounts
    requires a in s
  {
    s[a := s[a].(info := s[a].info.(balance := WrapAdd(s[a].info.balance, v)))]
  }

  function SubFrom(s: Accounts, a: Address, v: U256): Accounts
    requires a in s
  {
    s[a := s[a].(info := s[a].info.(balance := WrapSub(s[a].info.balance, v)))]
  }

  /** The first component is the journal also when the transfer fails.  On overflow the payer has
      already been debited and no entry records it. */
  function TransferLoaded(j: Journal, from: Address, to: Address, v: U256): (Journal, Option<TransferError>)
    requires from in j.state && to in j.state
  {
    if from == to then (j, if v > j.state[to].info.balance then Some(OutOfFunds) else None)
    else if v == 0 then (Touch(j, to), None)
    else
      var j1 := Touch(j, from);
      if j1.state[from].info.balance < v then (j1, Some(OutOfFunds))
      else
        var j2 := Touch(j1.(state := SubFrom(j1.state, from, v)), to);
        if j2.state[to].info.balance + v >= U256_MODULUS then (j2, Some(OverflowPayment))
        else (Push(j2.(state := AddTo(j2.state, to, v)), BalanceTransfer(from, to, v)), None)
  }

  function Created(x: Account, spuriousDragon: bool): Account {
    x.(status := x.status.(created := true, createdLocal := true),
       info := x.info.(nonce := if spuriousDragon then 1 else x.info.nonce))
  }

  function MarkCreated(j: Journal, a: Address): Journal
    requires a in j.state
  {
    var x := j.state[a];
    Push(Put(j, a, Created(x, j.cfg.spuriousDragon)), AccountCreated(a, !x.status.created))
  }

  function Collides(j: Journal, target: Address): bool
    requires target in j.state
  {
    j.state[target].info.code != KECCAK_EMPTY || j.state[target].info.nonce != 0
  }

  /** On an error the checkpoint has been reverted. */
  function CreateAccountCheckpoint(j: Journal, caller: Address, target: Address, v: U256)
    : (Journal, Checkpoint, Option<TransferError>)
    requires caller in j.state && target in j.state
  {
    var (j0, cp) := TakeCheckpoint(j);
    if Collides(j0, target) then (RevertToCheckpoint(j0, cp), cp, Some(CreateCollision))
    else
      var j1 := Touch(MarkCreated(j0, target), target);
      if j1.state[target].info.balance + v >= U256_MODULUS then (RevertToCheckpoint(j1, cp), cp, Some(OverflowPayment))
      else
        var s := SubFrom(AddTo(j1.state, target, v), caller, v);
        (Push(j1.(state := s), BalanceTransfer(caller, target, v)), cp, None)
  }

  function DestroyHow(s: Status): DestroyStatus {
    if !s.destroyed then GloballyDestroyed else if !s.destroyedLocal then LocallyDestroyed else RepeatedDestruction
  }

  /** The balance goes to the target; from Cancun on the account itself only goes if this
      transaction created it. */
  function Selfdestruct(db: Db, j: Journal, a: Address, target: Address): Journal
    requires a in j.state
  {
    var j1 := LoadAccount(db, j, target).0;
    var j2 := if a == target then j1 else Touch(j1, target);
    var had := j2.state[a].info.balance;
    var j3 := if a == target then j2 else j2.(state := AddTo(j2.state, target, had));
    var x := j3.state[a];
    if x.status.createdLocal || !j.cfg.cancun then
      Push(Put(j3, a, x.(status := x.status.(destroyed := true, destroyedLocal := true),
                         info := x.info.(balance := 0))),
           AccountDestroyed(a, target, DestroyHow(x.status), had))
    else if a != target then
      Push(Put(j3, a, x.(info := x.info.(balance := 0))), BalanceTransfer(a, target, had))
    else j3
  }

  // ---------- Storage ----------

  function Sload(db: Db, j: Journal, a: Address, k: Key): (Journal, U256, bool)
    requires a in j.state
  {
    var x := j.state[a];
    var (slot, cold) :=
      if k in x.storage then
        var s := x.storage[k];
        var cold := s.txId != j.cfg.txId || s.cold;
        (Slot(if cold then s.present else s.original, s.present, j.cfg.txId, false), cold)
      else
        var value := if x.status.created then 0 else DbValue(db, a, k);
        (Slot(value, value, j.cfg.txId, false), (a, k) !in j.cfg.warmSlots);
    var j1 := Put(j, a, x.(storage := x.storage[k := slot]));
    (if cold then Push(j1, StorageWarmed(a, k)) else j1, slot.present, cold)
  }

  /** A slot first seen on a created account is zero, whatever the database holds. */
  predicate SlotOk(db: Db, j: Journal, a: Address, k: Key)
    requires a in j.state
  {
    k !in j.state[a].storage && j.state[a].status.created ==> DbValue(db, a, k) == 0
  }

  function Sstore(db: Db, j: Journal, a: Address, k: Key, value: U256): Journal
    requires a in j.state
  {
    var (j1, present, _) := Sload(db, j, a, k);
    if present == value then j1
    else
      var x := j1.state[a];
      Push(Put(j1, a, x.(storage := x.storage[k := x.storage[k].(present := value)])), StorageChanged(a, k, present))
  }

  function Tstore(j: Journal, a: Address, k: Key, value: U256): Journal {
    var had := TransientIn(j.transient, a, k);
    if value == 0 then
      if (a, k) !in j.transient then j
      else Push(j.(transient := j.transient - {(a, k)}), TransientStorageChange(a, k, had))
    else
      var j1 := j.(transient := j.transient[(a, k) := value]);
      if had == value then j1 else Push(j1, TransientStorageChange(a, k, had))
  }

  function Log(j: Journal, log: nat): Journal {
    j.(logs := j.logs + [log])
  }

  // ---------- Checkpoints ----------

  function TakeCheckpoint(j: Journal): (Journal, Checkpoint) {
    (j.(depth := j.depth + 1), Checkpoint(|j.logs|, |j.entries|))
  }

  function CommitCheckpoint(j: Journal): Journal {
    j.(depth := if j.depth == 0 then 0 else j.depth - 1)
  }

  function RevertToCheckpoint(j: Journal, cp: Checkpoint): Journal {
    var j1 := CommitCheckpoint(j);
    var j2 := j1.(logs := if cp.logIndex < |j.logs| then j.logs[..cp.logIndex] else j.logs);
    RevertEntries(j2, cp.journalIndex)
  }

  // ---------- Each operation can be taken back ----------

  /** The entry speaks about one account and nothing else. */
  ghost predicate Concerns(e: Entry, a: Address) {
    && !e.AccountDestroyed? && !e.BalanceTransfer? && !e.TransientStorageChange?
    && e.address == a
  }

  lemma ConcernsOnly(e: Entry, a: Address, sd: bool, b: Address, x: Account)
    requires Concerns(e, a) && a != b
    ensures UndoAccount(e, sd, b, x) == x
  {
  }

  /** Entries stay in order when accounts stay loaded and keep their slots. */
  lemma EntriesOkGrow(j: Journal, s: Accounts)
    requires RepInv(j)
    requires forall a :: Loaded(j, a) ==> Live(s, j.cfg, a) && j.state[a].storage.Keys <= s[a].storage.Keys
    ensures forall i :: 0 <= i < |j.entries| ==> EntryOk(j.entries[i], s, j.cfg)
  {
    forall i | 0 <= i < |j.entries|
      ensures EntryOk(j.entries[i], s, j.cfg)
    {
      assert EntryOk(j.entries[i], j.state, j.cfg);
      match j.entries[i]
      case AccountDestroyed(a, t, _, _) => assert Loaded(j, a) && Loaded(j, t);
      case BalanceTransfer(f, t, _) => assert Loaded(j, f) && Loaded(j, t);
      case TransientStorageChange(_, _, _) =>
      case e => assert Loaded(j, e.address);
    }
  }

  ghost predicate GoodAccount(db: Db, cfg: Config, a: Address, x: Account) {
    AccountRep(cfg, a, x) && FlagsOk(cfg, a, ViewIn(db, map[a := x], cfg, a))
  }

  /** Replacing one account by a good one that stays loaded and keeps its slots keeps the invariant. */
  lemma PutInv(db: Db, j: Journal, a: Address, x: Account)
    requires Inv(db, j) && GoodAccount(db, j.cfg, a, x)
    requires Loaded(j, a) ==> !Dormant(j.cfg, a, x) && j.state[a].storage.Keys <= x.storage.Keys
    ensures Inv(db, Put(j, a, x))
  {
    var p := Put(j, a, x);
    EntriesOkGrow(j, p.state);
    forall b
      ensures FlagsOk(p.cfg, b, ViewOf(db, p, b))
    {
      assert b != a ==> ViewOf(db, p, b) == ViewOf(db, j, b);
      assert FlagsOk(j.cfg, b, ViewOf(db, j, b));
    }
  }

  lemma PushInv(db: Db, j: Journal, e: Entry)
    requires Inv(db, j) && EntryOk(e, j.state, j.cfg)
    ensures Inv(db, Push(j, e))
  {
    forall b
      ensures FlagsOk(j.cfg, b, ViewOf(db, Push(j, e), b))
    {
      assert FlagsOk(j.cfg, b, ViewOf(db, j, b));
    }
  }

  /** A step on one account, taken back exactly by its entry. */
  lemma AccountStep(db: Db, j: Journal, a: Address, x: Account, e: Entry)
    requires Inv(db, j) && Loaded(j, a) && GoodAccount(db, j.cfg, a, x)
    requires j.state[a].storage.Keys <= x.storage.Keys
    requires Concerns(e, a) && EntryOk(e, Put(j, a, x).state, j.cfg)
    requires UndoAccount(e, j.cfg.spuriousDragon, a, x) == j.state[a]
    ensures Undoes(db, j, Push(Put(j, a, x), e))
  {
    var p := Put(j, a, x);
    PutInv(db, j, a, x);
    PushInv(db, p, e);
    var r := RevertEntry(e, p);
    forall b | b in r.state
      ensures r.state[b] == j.state[b]
    {
      if b != a {
        ConcernsOnly(e, a, j.cfg.spuriousDragon, b, j.state[b]);
      }
    }
    assert r.state == j.state;
    UndoesByEntry(db, j, p, e);
  }

  lemma GoodInState(db: Db, j: Journal, a: Address)
    requires Inv(db, j) && a in j.state
    ensures GoodAccount(db, j.cfg, a, j.state[a])
  {
    assert FlagsOk(j.cfg, a, ViewOf(db, j, a));
  }

  lemma TouchUndoes(db: Db, j: Journal, a: Address)
    requires Inv(db, j) && Loaded(j, a)
    ensures Undoes(db, j, Touch(j, a))
  {
    var x := j.state[a];
    if x.status.touched {
      UndoesReflexive(db, j);
    } else {
      var y := x.(status := x.status.(touched := true));
      TouchedGood(db, j, a);
      if j.cfg.spuriousDragon && a == PRECOMPILE3 {
        TouchPrecompile3(db, j, y);
      } else {
        AccountStep(db, j, a, y, AccountTouched(a));
      }
    }
  }

  lemma TouchedGood(db: Db, j: Journal, a: Address)
    requires Inv(db, j) && Loaded(j, a)
    ensures GoodAccount(db, j.cfg, a, j.state[a].(status := j.state[a].status.(touched := true)))
  {
    GoodInState(db, j, a);
    var y := j.state[a].(status := j.state[a].status.(touched := true));
    assert FlagsOk(j.cfg, a, ViewIn(db, map[a := y], j.cfg, a));
  }

  /** The mark on this address stays after a revert; observers do not see it. */
  lemma TouchPrecompile3(db: Db, j: Journal, y: Account)
    requires Inv(db, j) && Loaded(j, PRECOMPILE3) && j.cfg.spuriousDragon
    requires y == j.state[PRECOMPILE3].(status := j.state[PRECOMPILE3].status.(touched := true))
    requires GoodAccount(db, j.cfg, PRECOMPILE3, y)
    ensures Undoes(db, j, Push(Put(j, PRECOMPILE3, y), AccountTouched(PRECOMPILE3)))
  {
    var e := AccountTouched(PRECOMPILE3);
    var p := Put(j, PRECOMPILE3, y);
    PutInv(db, j, PRECOMPILE3, y);
    PushInv(db, p, e);
    var r := RevertEntry(e, p);
    assert r.state == p.state;
    forall b
      ensures ViewOf(db, j, b) == ViewOf(db, r, b)
    {
    }
    forall b, k
      ensures SlotOf(db, j, b, k) == SlotOf(db, r, b, k)
    {
    }
    UndoesByEntry(db, j, p, e);
  }

  /** A step on the balance, nonce or code of one account. */
  lemma InfoStep(db: Db, j: Journal, a: Address, i: Info, e: Entry)
    requires Inv(db, j) && Loaded(j, a)
    requires e.BalanceChange? || e.NonceChange? || e.CodeChange?
    requires e.address == a && UndoInfo(e, a, i) == j.state[a].info
    requires j.state[a].info.nonce != 0 ==> i.nonce != 0
    ensures Undoes(db, j, Push(Put(j, a, j.state[a].(info := i)), e))
  {
    GoodInState(db, j, a);
    var y := j.state[a].(info := i);
    assert FlagsOk(j.cfg, a, ViewIn(db, map[a := y], j.cfg, a));
    AccountStep(db, j, a, y, e);
  }

  lemma SetBalanceUndoes(db: Db, j: Journal, a: Address, balance: U256)
    requires Inv(db, j) && Loaded(j, a)
    ensures Undoes(db, j, SetBalance(j, a, balance))
  {
    TouchUndoes(db, j, a);
    var j1 := Touch(j, a);
    var i := j1.state[a].info;
    if i.balance != balance {
      InfoStep(db, j1, a, i.(balance := balance), BalanceChange(a, i.balance));
      UndoesTransitive(db, j, j1, SetBalance(j, a, balance));
    }
  }

  lemma IncrBalanceUndoes(db: Db, j: Journal, a: Address, amount: nat)
    requires Inv(db, j) && Loaded(j, a)
    ensures Undoes(db, j, IncrBalance(j, a, amount).0)
  {
    var (j', ok) := IncrBalance(j, a, amount);
    if ok {
      var balance: U256 := j.state[a].info.balance + amount;
      SetBalanceUndoes(db, j, a, balance);
      assert j' == SetBalance(j, a, balance);
    } else {
      TouchUndoes(db, j, a);
    }
  }

  lemma BumpNonceUndoes(db: Db, j: Journal, a: Address)
    requires Inv(db, j) && Loaded(j, a)
    ensures Undoes(db, j, BumpNonce(j, a).0)
  {
    TouchUndoes(db, j, a);
    var j1 := Touch(j, a);
    var i := j1.state[a].info;
    if i.nonce != U64_MAX {
      var next := i.(nonce := i.nonce + 1);
      assert UndoInfo(NonceChange(a), a, next) == i;
      InfoStep(db, j1, a, next, NonceChange(a));
      var j2 := Push(Put(j1, a, j1.state[a].(info := next)), NonceChange(a));
      UndoesTransitive(db, j, j1, j2);
      assert BumpNonce(j, a).0 == j2;
    }
  }

  /** Undoing a code change always leaves the empty code, so it must have been empty before. */
  lemma SetCodeUndoes(db: Db, j: Journal, a: Address, code: Hash)
    requires Inv(db, j) && Loaded(j, a) && j.state[a].info.code == KECCAK_EMPTY
    ensures Undoes(db, j, SetCode(j, a, code))
  {
    TouchUndoes(db, j, a);
    var j1 := Touch(j, a);
    InfoStep(db, j1, a, j1.state[a].info.(code := code), CodeChange(a));
    UndoesTransitive(db, j, j1, SetCode(j, a, code));
  }

  /** The account that a load leaves, before its entry is written. */
  function LoadResult(db: Db, j: Journal, a: Address): Account {
    LoadAccount(db, j, a).0.state[a]
  }

  lemma LoadAccountUndoes(db: Db, j: Journal, a: Address)
    requires Inv(db, j) && LoadOk(j, a)
    ensures Undoes(db, j, LoadAccount(db, j, a).0)
    ensures Loaded(LoadAccount(db, j, a).0, a)
  {
    var cold := LoadAccount(db, j, a).1;
    var x := LoadResult(db, j, a);
    var p := Put(j, a, x);
    LoadedGood(db, j, a);
    PutInv(db, j, a, x);
    if cold {
      PushInv(db, p, AccountWarmed(a));
      LoadedColdSameWorld(db, j, a);
      UndoesByEntry(db, j, p, AccountWarmed(a));
    } else {
      LoadedWarmSameWorld(db, j, a);
      UndoesUnseen(db, j, p);
    }
  }

  /** What a sound load finds: the account as it is seen, stamped and warm. */
  lemma LoadedAccount(db: Db, j: Journal, a: Address)
    requires LoadOk(j, a)
    ensures var x := LoadResult(db, j, a);
            && (a in j.state || a !in j.cfg.leftover ==> !Dormant(j.cfg, a, x))
            && (a in j.state ==>
                  && x.info == Seen(j.cfg, a, j.state[a]).info
                  && x.storage == Seen(j.cfg, a, j.state[a]).storage
                  && x.status == Seen(j.cfg, a, j.state[a]).status.(cold := false)
                  && x.txId == j.cfg.txId)
            && (a !in j.state ==> x == FreshAccount(db, j, a))
  {
  }

  lemma LoadedGood(db: Db, j: Journal, a: Address)
    requires Inv(db, j) && LoadOk(j, a)
    ensures var x := LoadResult(db, j, a);
            && GoodAccount(db, j.cfg, a, x) && !Dormant(j.cfg, a, x)
            && (Loaded(j, a) ==> j.state[a].storage.Keys <= x.storage.Keys)
  {
    LoadedAccount(db, j, a);
    assert FlagsOk(j.cfg, a, ViewOf(db, j, a));
    if a in j.state {
      assert AccountRep(j.cfg, a, j.state[a]);
    }
    var x := LoadResult(db, j, a);
    assert ViewIn(db, map[a := x], j.cfg, a).status == ViewOf(db, j, a).status;
  }

  lemma LoadedWarmSameWorld(db: Db, j: Journal, a: Address)
    requires LoadOk(j, a) && !LoadAccount(db, j, a).1
    ensures SameWorld(db, j, Put(j, a, LoadResult(db, j, a)))
  {
    LoadedAccount(db, j, a);
    var p := Put(j, a, LoadResult(db, j, a));
    forall b
      ensures ViewOf(db, j, b) == ViewOf(db, p, b)
    {
    }
    forall b, k
      ensures SlotOf(db, j, b, k) == SlotOf(db, p, b, k)
    {
    }
  }

  lemma LoadedColdSameWorld(db: Db, j: Journal, a: Address)
    requires LoadOk(j, a) && LoadAccount(db, j, a).1
    ensures SameWorld(db, j, RevertEntry(AccountWarmed(a), Put(j, a, LoadResult(db, j, a))))
  {
    LoadedAccount(db, j, a);
    var x := LoadResult(db, j, a);
    ColdAgain(j, a, x);
    var r := RevertEntry(AccountWarmed(a), Put(j, a, x));
    forall b
      ensures ViewOf(db, j, b) == ViewOf(db, r, b)
    {
      ColdAgainView(db, j, a, x, b, 0);
    }
    forall b, k
      ensures SlotOf(db, j, b, k) == SlotOf(db, r, b, k)
    {
      ColdAgainView(db, j, a, x, b, k);
    }
  }

  /** Undoing the warming of `a` marks it cold and touches nothing else. */
  lemma ColdAgain(j: Journal, a: Address, x: Account)
    ensures RevertEntry(AccountWarmed(a), Put(j, a, x)) == Put(j, a, x.(status := x.status.(cold := true)))
  {
    var r := RevertEntry(AccountWarmed(a), Put(j, a, x));
    assert r.state == j.state[a := x.(status := x.status.(cold := true))];
  }

  lemma ColdAgainView(db: Db, j: Journal, a: Address, x: Account, b: Address, k: Key)
    requires a !in j.cfg.warm && (a in j.state ==> IsCold(j, j.state[a]))
    requires if a in j.state then
               var y := Seen(j.cfg, a, j.state[a]);
               x == Account(y.info, y.status.(cold := false), j.cfg.txId, y.storage)
             else x == FreshAccount(db, j, a)
    ensures var r := Put(j, a, x.(status := x.status.(cold := true)));
            ViewOf(db, j, b) == ViewOf(db, r, b) && SlotOf(db, j, b, k) == SlotOf(db, r, b, k)
  {
  }

  /** In the first transaction of a journal every load is sound. */
  lemma FirstLoadsOk(db: Db, j: Journal, a: Address)
    requires Inv(db, j) && j.cfg.txId == 0
    ensures LoadOk(j, a)
  {
    if a in j.state {
      assert AccountRep(j.cfg, a, j.state[a]);
      assert FlagsOk(j.cfg, a, ViewOf(db, j, a));
    }
  }

  // ---------- Value moves ----------

  lemma WrapCancels(x: U256, v: U256)
    ensures WrapAdd(WrapSub(x, v), v) == x && WrapSub(WrapAdd(x, v), v) == x
  {
  }

  ghost predicate TakesBack(db: Db, j: Journal, s: Accounts, e: Entry, a: Address)
    requires a in s && a in j.state
  {
    && GoodAccount(db, j.cfg, a, s[a])
    && s[a].storage == j.state[a].storage
    && UndoAccount(e, j.cfg.spuriousDragon, a, s[a]) == j.state[a]
  }

  /** A step on any number of accounts, taken back exactly by its entry. */
  lemma StateStep(db: Db, j: Journal, s: Accounts, e: Entry)
    requires Inv(db, j) && s.Keys == j.state.Keys && EntryOk(e, s, j.cfg) && !e.TransientStorageChange?
    requires forall a :: a in s ==> TakesBack(db, j, s, e, a)
    ensures Undoes(db, j, Push(j.(state := s), e))
  {
    var x := j.(state := s);
    StateTakenBack(db, j, s, e);
    StateInv(db, j, s, e);
    PushInv(db, x, e);
    UndoesByEntry(db, j, x, e);
  }

  lemma StateTakenBack(db: Db, j: Journal, s: Accounts, e: Entry)
    requires s.Keys == j.state.Keys && !e.TransientStorageChange?
    requires forall a :: a in s ==> TakesBack(db, j, s, e, a)
    ensures SameWorld(db, j, RevertEntry(e, j.(state := s)))
  {
    var r := RevertEntry(e, j.(state := s));
    forall a | a in s
      ensures r.state[a] == j.state[a]
    {
      assert TakesBack(db, j, s, e, a);
    }
    assert r.state == j.state;
    assert r.transient == j.transient && r.cfg == j.cfg;
  }

  lemma StateInv(db: Db, j: Journal, s: Accounts, e: Entry)
    requires Inv(db, j) && s.Keys == j.state.Keys
    requires forall a :: a in s ==> TakesBack(db, j, s, e, a)
    ensures Inv(db, j.(state := s))
  {
    var x := j.(state := s);
    forall a | a in s
      ensures AccountRep(x.cfg, a, s[a]) && s[a].storage == j.state[a].storage && s[a].txId == j.state[a].txId
    {
      assert TakesBack(db, j, s, e, a);
    }
    EntriesOkGrow(j, s);
    forall a
      ensures FlagsOk(x.cfg, a, ViewOf(db, x, a))
    {
      if a in s {
        assert TakesBack(db, j, s, e, a);
      } else {
        assert FlagsOk(j.cfg, a, ViewOf(db, j, a));
      }
    }
  }

  /** The accounts differ from those of `j` at most in their balances. */
  ghost predicate OnlyBalances(j: Journal, s: Accounts) {
    && s.Keys == j.state.Keys
    && forall a :: a in s ==> s[a] == j.state[a].(info := j.state[a].info.(balance := s[a].info.balance))
  }

  lemma TransferStep(db: Db, j: Journal, s: Accounts, from: Address, to: Address, v: U256)
    requires Inv(db, j) && Loaded(j, from) && Loaded(j, to) && OnlyBalances(j, s)
    requires forall a :: a in s ==> UndoInfo(BalanceTransfer(from, to, v), a, s[a].info) == j.state[a].info
    ensures Undoes(db, j, Push(j.(state := s), BalanceTransfer(from, to, v)))
  {
    forall a | a in s
      ensures TakesBack(db, j, s, BalanceTransfer(from, to, v), a)
    {
      GoodInState(db, j, a);
      assert FlagsOk(j.cfg, a, ViewIn(db, map[a := s[a]], j.cfg, a));
    }
    StateStep(db, j, s, BalanceTransfer(from, to, v));
  }

  lemma TouchCommutes(j: Journal, from: Address, to: Address, v: U256)
    requires from in j.state && to in j.state && from != to
    ensures Touch(j.(state := SubFrom(j.state, from, v)), to)
            == Touch(j, to).(state := SubFrom(Touch(j, to).state, from, v))
  {
  }

  lemma MoveUndoes(db: Db, j: Journal, from: Address, to: Address, v: U256)
    requires Inv(db, j) && Loaded(j, from) && Loaded(j, to) && from != to
    ensures Undoes(db, j, Push(j.(state := AddTo(SubFrom(j.state, from, v), to, v)), BalanceTransfer(from, to, v)))
  {
    var s := AddTo(SubFrom(j.state, from, v), to, v);
    WrapCancels(j.state[from].info.balance, v);
    WrapCancels(j.state[to].info.balance, v);
    TransferStep(db, j, s, from, to, v);
  }

  /** A successful transfer: both accounts touched, then the value moved. */
  lemma TransferParts(j: Journal, from: Address, to: Address, v: U256)
    requires from in j.state && to in j.state && from != to && v != 0
    requires TransferLoaded(j, from, to, v).1 == None
    ensures var j2 := Touch(Touch(j, from), to);
            TransferLoaded(j, from, to, v).0
            == Push(j2.(state := AddTo(SubFrom(j2.state, from, v), to, v)), BalanceTransfer(from, to, v))
  {
    TouchCommutes(Touch(j, from), from, to, v);
  }

  /** A transfer can be taken back unless it fails for overflow, and a failed transfer of the other
      kind leaves nothing but a touched mark. */
  lemma TransferUndoes(db: Db, j: Journal, from: Address, to: Address, v: U256)
    requires Inv(db, j) && Loaded(j, from) && Loaded(j, to)
    requires TransferLoaded(j, from, to, v).1 != Some(OverflowPayment)
    ensures Undoes(db, j, TransferLoaded(j, from, to, v).0)
  {
    if from == to {
      UndoesReflexive(db, j);
    } else if v == 0 {
      TouchUndoes(db, j, to);
    } else {
      TouchUndoes(db, j, from);
      var j1 := Touch(j, from);
      if TransferLoaded(j, from, to, v).1 == None {
        TransferParts(j, from, to, v);
        TouchUndoes(db, j1, to);
        var j2 := Touch(j1, to);
        UndoesTransitive(db, j, j1, j2);
        MoveUndoes(db, j2, from, to, v);
        UndoesTransitive(db, j, j2, TransferLoaded(j, from, to, v).0);
      } else {
        assert TransferLoaded(j, from, to, v).0 == j1;
      }
    }
  }

  /** In the first transaction a mark on a cold account would be lost by the next load. */
  predicate Markable(db: Db, j: Journal, a: Address) {
    Loaded(j, a) && (j.cfg.txId == 0 ==> !ViewOf(db, j, a).coldLoad)
  }

  lemma CreatedGood(db: Db, j: Journal, a: Address)
    requires Inv(db, j) && Markable(db, j, a)
    ensures GoodAccount(db, j.cfg, a, Created(j.state[a], j.cfg.spuriousDragon))
  {
    GoodInState(db, j, a);
    var y := Created(j.state[a], j.cfg.spuriousDragon);
    assert FlagsOk(j.cfg, a, ViewIn(db, map[a := y], j.cfg, a));
  }

  lemma CreatedTakenBack(sd: bool, a: Address, x: Account)
    requires x.info.nonce == 0 && !x.status.createdLocal
    ensures UndoAccount(AccountCreated(a, !x.status.created), sd, a, Created(x, sd)) == x
  {
  }

  lemma MarkCreatedUndoes(db: Db, j: Journal, a: Address)
    requires Inv(db, j) && Markable(db, j, a) && !Collides(j, a) && !j.state[a].status.createdLocal
    ensures Undoes(db, j, MarkCreated(j, a))
  {
    var x := j.state[a];
    CreatedGood(db, j, a);
    CreatedTakenBack(j.cfg.spuriousDragon, a, x);
    AccountStep(db, j, a, Created(x, j.cfg.spuriousDragon), AccountCreated(a, !x.status.created));
  }

  // ---------- Storage ----------

  /** A slot that reads as before is not noticed. */
  lemma SlotSameWorld(db: Db, j: Journal, a: Address, k: Key, slot: Slot)
    requires Loaded(j, a) && SlotView(slot.present, slot.txId != j.cfg.txId || slot.cold) == SlotOf(db, j, a, k)
    ensures SameWorld(db, j, Put(j, a, j.state[a].(storage := j.state[a].storage[k := slot])))
  {
    var x := j.state[a];
    var p := Put(j, a, x.(storage := x.storage[k := slot]));
    forall b
      ensures ViewOf(db, j, b) == ViewOf(db, p, b)
    {
    }
    forall b, l
      ensures SlotOf(db, j, b, l) == SlotOf(db, p, b, l)
    {
    }
  }

  lemma StorageInv(db: Db, j: Journal, a: Address, storage: map<Key, Slot>)
    requires Inv(db, j) && Loaded(j, a) && j.state[a].storage.Keys <= storage.Keys
    ensures Inv(db, Put(j, a, j.state[a].(storage := storage)))
    ensures GoodAccount(db, j.cfg, a, j.state[a].(storage := storage))
  {
    GoodInState(db, j, a);
    var y := j.state[a].(storage := storage);
    assert FlagsOk(j.cfg, a, ViewIn(db, map[a := y], j.cfg, a));
    PutInv(db, j, a, y);
  }

  lemma SlotWarmTakenBack(j: Journal, a: Address, k: Key, slot: Slot)
    requires a in j.state
    ensures var x := j.state[a];
            RevertEntry(StorageWarmed(a, k), Put(j, a, x.(storage := x.storage[k := slot])))
            == Put(j, a, x.(storage := x.storage[k := slot.(cold := true)]))
  {
    var x := j.state[a];
    var p := Put(j, a, x.(storage := x.storage[k := slot]));
    var q := Put(j, a, x.(storage := x.storage[k := slot.(cold := true)]));
    var r := RevertEntry(StorageWarmed(a, k), p);
    assert r.state[a].storage == q.state[a].storage;
    assert r.state == q.state;
  }

  /** The answer of a load, and the slot it leaves. */
  lemma SloadForm(db: Db, j: Journal, a: Address, k: Key) returns (slot: Slot)
    requires Loaded(j, a) && SlotOk(db, j, a, k)
    ensures SlotView(slot.present, Sload(db, j, a, k).2) == SlotOf(db, j, a, k)
    ensures slot.txId == j.cfg.txId && !slot.cold && Sload(db, j, a, k).1 == slot.present
    ensures var p := Put(j, a, j.state[a].(storage := j.state[a].storage[k := slot]));
            Sload(db, j, a, k).0 == if Sload(db, j, a, k).2 then Push(p, StorageWarmed(a, k)) else p
  {
    slot := Sload(db, j, a, k).0.state[a].storage[k];
  }

  lemma SloadUndoes(db: Db, j: Journal, a: Address, k: Key)
    requires Inv(db, j) && Loaded(j, a) && SlotOk(db, j, a, k)
    ensures Undoes(db, j, Sload(db, j, a, k).0) && Sload(db, j, a, k).1 == SlotOf(db, j, a, k).value
    ensures var j' := Sload(db, j, a, k).0;
            Loaded(j', a) && k in j'.state[a].storage && j'.state[a].storage[k].present == Sload(db, j, a, k).1
  {
    var slot := SloadForm(db, j, a, k);
    var storage := j.state[a].storage[k := slot];
    var p := Put(j, a, j.state[a].(storage := storage));
    StorageInv(db, j, a, storage);
    if Sload(db, j, a, k).2 {
      PushInv(db, p, StorageWarmed(a, k));
      SlotWarmTakenBack(j, a, k, slot);
      SlotSameWorld(db, j, a, k, slot.(cold := true));
      UndoesByEntry(db, j, p, StorageWarmed(a, k));
    } else {
      SlotSameWorld(db, j, a, k, slot);
      UndoesUnseen(db, j, p);
    }
  }

  lemma StorageChangeUndoes(db: Db, j: Journal, a: Address, k: Key, value: U256)
    requires Inv(db, j) && Loaded(j, a) && k in j.state[a].storage
    ensures var x := j.state[a];
            var storage := x.storage[k := x.storage[k].(present := value)];
            Undoes(db, j, Push(Put(j, a, x.(storage := storage)), StorageChanged(a, k, x.storage[k].present)))
  {
    var x := j.state[a];
    var storage := x.storage[k := x.storage[k].(present := value)];
    var e := StorageChanged(a, k, x.storage[k].present);
    StorageInv(db, j, a, storage);
    assert UndoStorage(e, a, storage) == x.storage;
    AccountStep(db, j, a, x.(storage := storage), e);
  }

  lemma SstoreUndoes(db: Db, j: Journal, a: Address, k: Key, value: U256)
    requires Inv(db, j) && Loaded(j, a) && SlotOk(db, j, a, k)
    ensures Undoes(db, j, Sstore(db, j, a, k, value))
  {
    SloadUndoes(db, j, a, k);
    var (j1, present, _) := Sload(db, j, a, k);
    if present != value {
      StorageChangeUndoes(db, j1, a, k, value);
      UndoesTransitive(db, j, j1, Sstore(db, j, a, k, value));
    }
  }

  lemma TransientStep(db: Db, j: Journal, t: Transient, e: Entry)
    requires Inv(db, j) && e.TransientStorageChange? && forall p :: p in t ==> t[p] != 0
    requires forall a, k :: TransientIn(UndoTransient(e, t), a, k) == TransientIn(j.transient, a, k)
    ensures Undoes(db, j, Push(j.(transient := t), e))
  {
    var x := j.(transient := t);
    assert Inv(db, x) by {
      forall b
        ensures FlagsOk(x.cfg, b, ViewOf(db, x, b))
      {
        assert FlagsOk(j.cfg, b, ViewOf(db, j, b));
      }
    }
    PushInv(db, x, e);
    var r := RevertEntry(e, x);
    assert r.state == j.state by {
      forall b | b in r.state
        ensures r.state[b] == j.state[b]
      {
      }
    }
    UndoesByEntry(db, j, x, e);
  }

  lemma TstoreUndoes(db: Db, j: Journal, a: Address, k: Key, value: U256)
    requires Inv(db, j)
    ensures Undoes(db, j, Tstore(j, a, k, value))
  {
    var had := TransientIn(j.transient, a, k);
    var e := TransientStorageChange(a, k, had);
    if value == had {
      assert value != 0 ==> j.transient[(a, k) := value] == j.transient;
      assert Tstore(j, a, k, value) == j;
      UndoesReflexive(db, j);
    } else {
      var t := if value == 0 then j.transient - {(a, k)} else j.transient[(a, k) := value];
      TransientStep(db, j, t, e);
    }
  }

  lemma LogUndoes(db: Db, j: Journal, log: nat)
    requires Inv(db, j)
    ensures Undoes(db, j, Log(j, log))
  {
    var x := Log(j, log);
    assert Inv(db, x) by {
      forall b
        ensures FlagsOk(x.cfg, b, ViewOf(db, x, b))
      {
        assert FlagsOk(j.cfg, b, ViewOf(db, j, b));
      }
    }
  }

  // ---------- Selfdestruct ----------

  lemma DestroyAccountGood(db: Db, j: Journal, a: Address, balance: U256)
    requires Inv(db, j) && Markable(db, j, a)
    ensures var x := j.state[a];
            GoodAccount(db, j.cfg, a, x.(status := x.status.(destroyed := true, destroyedLocal := true),
                                         info := x.info.(balance := balance)))
  {
    GoodInState(db, j, a);
    var x := j.state[a];
    var y := x.(status := x.status.(destroyed := true, destroyedLocal := true), info := x.info.(balance := balance));
    assert FlagsOk(j.cfg, a, ViewIn(db, map[a := y], j.cfg, a));
  }

  lemma DestroyTakenBack(sd: bool, a: Address, target: Address, x: Account)
    requires x.status.destroyedLocal ==> x.status.destroyed
    ensures var y := x.(status := x.status.(destroyed := true, destroyedLocal := true), info := x.info.(balance := 0));
            UndoAccount(AccountDestroyed(a, target, DestroyHow(x.status), x.info.balance), sd, a, y) == x
  {
  }

  /** The accounts after the balance of `a` has gone to `target` and `a` is replaced by `y`. */
  function Emptied(s: Accounts, a: Address, target: Address, y: Account): Accounts
    requires a in s && target in s
  {
    (if a == target then s else AddTo(s, target, s[a].info.balance))[a := y]
  }

  lemma DestroyUndoes(db: Db, j: Journal, a: Address, target: Address)
    requires Inv(db, j) && Markable(db, j, a) && Loaded(j, target)
    ensures var x := j.state[a];
            var y := x.(status := x.status.(destroyed := true, destroyedLocal := true), info := x.info.(balance := 0));
            var e := AccountDestroyed(a, target, DestroyHow(x.status), x.info.balance);
            Undoes(db, j, Push(j.(state := Emptied(j.state, a, target, y)), e))
  {
    var x := j.state[a];
    var y := x.(status := x.status.(destroyed := true, destroyedLocal := true), info := x.info.(balance := 0));
    var e := AccountDestroyed(a, target, DestroyHow(x.status), x.info.balance);
    var s := Emptied(j.state, a, target, y);
    forall b | b in s
      ensures TakesBack(db, j, s, e, b)
    {
      GoodInState(db, j, b);
      if b == a {
        DestroyAccountGood(db, j, a, 0);
        DestroyTakenBack(j.cfg.spuriousDragon, a, target, x);
      } else if b == target {
        WrapCancels(j.state[b].info.balance, x.info.balance);
        assert FlagsOk(j.cfg, b, ViewIn(db, map[b := s[b]], j.cfg, b));
      }
    }
    StateStep(db, j, s, e);
  }

  lemma EmptyingUndoes(db: Db, j: Journal, a: Address, target: Address)
    requires Inv(db, j) && Loaded(j, a) && Loaded(j, target) && a != target
    ensures var x := j.state[a];
            var y := x.(info := x.info.(balance := 0));
            Undoes(db, j, Push(j.(state := Emptied(j.state, a, target, y)), BalanceTransfer(a, target, x.info.balance)))
  {
    var x := j.state[a];
    var s := Emptied(j.state, a, target, x.(info := x.info.(balance := 0)));
    WrapCancels(j.state[target].info.balance, x.info.balance);
    TransferStep(db, j, s, a, target, x.info.balance);
  }

  /** Loading the target and touching it, the first two parts of a selfdestruct. */
  function SelfdestructReady(db: Db, j: Journal, a: Address, target: Address): Journal {
    var j1 := LoadAccount(db, j, target).0;
    if a == target then j1 else Touch(j1, target)
  }

  lemma LoadKeepsMarkable(db: Db, j: Journal, t: Address, a: Address)
    requires Inv(db, j) && Markable(db, j, a) && LoadOk(j, t)
    ensures Markable(db, LoadAccount(db, j, t).0, a)
  {
    assert AccountRep(j.cfg, a, j.state[a]);
  }

  lemma SelfdestructReadyUndoes(db: Db, j: Journal, a: Address, target: Address)
    requires Inv(db, j) && Markable(db, j, a) && LoadOk(j, target)
    ensures var j' := SelfdestructReady(db, j, a, target);
            Undoes(db, j, j') && Markable(db, j', a) && Loaded(j', target)
  {
    LoadAccountUndoes(db, j, target);
    LoadKeepsMarkable(db, j, target, a);
    TouchedNext(db, j, LoadAccount(db, j, target).0, a, target);
  }

  lemma TouchedNext(db: Db, j: Journal, j1: Journal, a: Address, target: Address)
    requires Inv(db, j) && Undoes(db, j, j1) && Markable(db, j1, a) && Loaded(j1, target)
    ensures Undoes(db, j, Touch(j1, target)) && Markable(db, Touch(j1, target), a) && Loaded(Touch(j1, target), target)
  {
    TouchUndoes(db, j1, target);
    UndoesTransitive(db, j, j1, Touch(j1, target));
  }

  lemma SelfdestructUndoes(db: Db, j: Journal, a: Address, target: Address)
    requires Inv(db, j) && Markable(db, j, a) && LoadOk(j, target)
    ensures Undoes(db, j, Selfdestruct(db, j, a, target))
  {
    var j2 := SelfdestructReady(db, j, a, target);
    SelfdestructReadyUndoes(db, j, a, target);
    var j' := Selfdestruct(db, j, a, target);
    if j2.state[a].status.createdLocal || !j.cfg.cancun {
      DestroyUndoes(db, j2, a, target);
      UndoesTransitive(db, j, j2, j');
    } else if a != target {
      EmptyingUndoes(db, j2, a, target);
      UndoesTransitive(db, j, j2, j');
    }
  }
}
