/** The journaled state (crates/context/src/journal/inner.rs and
    crates/context/interface/src/journaled_state/): accounts loaded so far, transient storage, logs,
    and the undo log that lets a frame take back everything since its checkpoint. */
module Journal {

  const U256_MODULUS: int := 0x1_0000000000000000_0000000000000000_0000000000000000_0000000000000000
  const U64_MAX: int := 0xffff_ffff_ffff_ffff

  type U256 = x: int | 0 <= x < 0x1_0000000000000000_0000000000000000_0000000000000000_0000000000000000
  type U64 = x: int | 0 <= x <= 0xffff_ffff_ffff_ffff
  type Address = nat
  type Key = nat
  type Hash = nat

  /** Hashes are only compared: the all-zero one, and that of the empty code. */
  const ZERO_HASH: Hash := 0
  const KECCAK_EMPTY: Hash := 1

  /** The address whose touched mark survives a revert from Spurious Dragon on. */
  const PRECOMPILE3: Address := 3

  function WrapAdd(x: U256, y: U256): U256 {
    if x + y < U256_MODULUS then x + y else x + y - U256_MODULUS
  }

  function WrapSub(x: U256, y: U256): U256 {
    if y <= x then x - y else x - y + U256_MODULUS
  }

  // ---------- Data ----------

  /** The code stands for its bytes through its hash; whether the bytes are cached is left out. */
  datatype Info = Info(balance: U256, nonce: U64, code: Hash)

  datatype Status = Status(
    created: bool, createdLocal: bool, destroyed: bool, destroyedLocal: bool,
    touched: bool, notExisting: bool, cold: bool)

  datatype Slot = Slot(original: U256, present: U256, txId: nat, cold: bool)

  datatype Account = Account(info: Info, status: Status, txId: nat, storage: map<Key, Slot>)

  const EMPTY_INFO: Info := Info(0, 0, KECCAK_EMPTY)

  /** An account without a known code hash counts as one without code. */
  predicate IsEmptyInfo(i: Info) {
    i.balance == 0 && i.nonce == 0 && (i.code == KECCAK_EMPTY || i.code == ZERO_HASH)
  }

  const NO_STATUS: Status := Status(false, false, false, false, false, false, false)

  /** The database under the journal. */
  datatype Db = Db(accounts: map<Address, Info>, storage: map<(Address, Key), U256>)

  function DbValue(db: Db, a: Address, k: Key): U256 {
    if (a, k) in db.storage then db.storage[(a, k)] else 0
  }

  datatype DestroyStatus = GloballyDestroyed | LocallyDestroyed | RepeatedDestruction

  datatype Entry =
    | AccountWarmed(address: Address)
    | AccountDestroyed(address: Address, target: Address, status: DestroyStatus, hadBalance: U256)
    | AccountTouched(address: Address)
    | BalanceChange(address: Address, oldBalance: U256)
    | BalanceTransfer(from: Address, to: Address, balance: U256)
    | NonceChange(address: Address)
    | AccountCreated(address: Address, globally: bool)
    | StorageChanged(address: Address, key: Key, hadValue: U256)
    | StorageWarmed(address: Address, key: Key)
    | TransientStorageChange(address: Address, key: Key, hadValue: U256)
    | CodeChange(address: Address)

  type Accounts = map<Address, Account>
  type Transient = map<(Address, Key), U256>

  /** What stays fixed while a transaction runs.  `leftover` holds the accounts whose marks of local
      creation or destruction were made by an earlier transaction. */
  datatype Config = Config(
    txId: nat, spuriousDragon: bool, cancun: bool, warm: set<Address>, warmSlots: set<(Address, Key)>,
    leftover: set<Address>)

  datatype Journal = Journal(
    state: Accounts, transient: Transient, logs: seq<nat>, depth: nat, entries: seq<Entry>, cfg: Config)

  datatype Checkpoint = Checkpoint(logIndex: nat, journalIndex: nat)

  // ---------- Undoing entries ----------

  /** Left over from an earlier transaction and not loaded in this one. */
  predicate Dormant(cfg: Config, a: Address, x: Account) {
    x.txId != cfg.txId && a in cfg.leftover
  }

  predicate Live(s: Accounts, cfg: Config, a: Address) {
    a in s && !Dormant(cfg, a, s[a])
  }

  /** The source unwraps each lookup; `EntriesOk` below says that every lookup succeeds, and that
      entries only speak of accounts that this transaction has loaded. */
  ghost predicate EntryOk(e: Entry, s: Accounts, cfg: Config) {
    match e
    case AccountWarmed(a) => Live(s, cfg, a) && a !in cfg.warm
    case AccountDestroyed(a, t, _, _) => Live(s, cfg, a) && Live(s, cfg, t)
    case BalanceTransfer(f, t, _) => Live(s, cfg, f) && Live(s, cfg, t)
    case StorageChanged(a, k, _) => Live(s, cfg, a) && k in s[a].storage
    case StorageWarmed(a, k) => Live(s, cfg, a) && k in s[a].storage
    case TransientStorageChange(_, _, _) => true
    case _ => Live(s, cfg, e.address)
  }

  function UndoInfo(e: Entry, a: Address, i: Info): Info {
    match e
    case AccountDestroyed(b, t, _, had) =>
      if a == b then i.(balance := WrapAdd(i.balance, had))
      else if a == t then i.(balance := WrapSub(i.balance, had)) else i
    case BalanceTransfer(f, t, v) =>
      var i1 := if a == f then i.(balance := WrapAdd(i.balance, v)) else i;
      if a == t then i1.(balance := WrapSub(i1.balance, v)) else i1
    case BalanceChange(b, oldBalance) => if a == b then i.(balance := oldBalance) else i
    case NonceChange(b) => if a == b then i.(nonce := if i.nonce == 0 then U64_MAX else i.nonce - 1) else i
    case AccountCreated(b, _) => if a == b then i.(nonce := 0) else i
    case CodeChange(b) => if a == b then i.(code := KECCAK_EMPTY) else i
    case _ => i
  }

  function UndoStatus(e: Entry, spuriousDragon: bool, a: Address, s: Status): Status {
    match e
    case AccountWarmed(b) => if a == b then s.(cold := true) else s
    case AccountTouched(b) =>
      if a == b && !(spuriousDragon && b == PRECOMPILE3) then s.(touched := false) else s
    case AccountDestroyed(b, _, how, _) =>
      if a != b || how.RepeatedDestruction? then s
      else s.(destroyedLocal := false, destroyed := s.destroyed && how.LocallyDestroyed?)
    case AccountCreated(b, globally) =>
      if a == b then s.(createdLocal := false, created := s.created && !globally) else s
    case _ => s
  }

  function UndoStorage(e: Entry, a: Address, m: map<Key, Slot>): map<Key, Slot> {
    match e
    case StorageChanged(b, k, had) => if a == b && k in m then m[k := m[k].(present := had)] else m
    case StorageWarmed(b, k) => if a == b && k in m then m[k := m[k].(cold := true)] else m
    case _ => m
  }

  function UndoAccount(e: Entry, spuriousDragon: bool, a: Address, x: Account): Account {
    Account(UndoInfo(e, a, x.info), UndoStatus(e, spuriousDragon, a, x.status), x.txId, UndoStorage(e, a, x.storage))
  }

  function UndoAccounts(e: Entry, spuriousDragon: bool, s: Accounts): Accounts {
    map a | a in s :: UndoAccount(e, spuriousDragon, a, s[a])
  }

  function UndoTransient(e: Entry, t: Transient): Transient {
    match e
    case TransientStorageChange(a, k, had) => if had == 0 then t - {(a, k)} else t[(a, k) := had]
    case _ => t
  }

  function RevertEntry(e: Entry, j: Journal): Journal {
    j.(state := UndoAccounts(e, j.cfg.spuriousDragon, j.state), transient := UndoTransient(e, j.transient))
  }

  /** Undoes the newest entries until `n` are left. */
  function RevertEntries(j: Journal, n: nat): (r: Journal)
    ensures r.logs == j.logs && r.depth == j.depth && r.cfg == j.cfg
    ensures n <= |j.entries| ==> r.entries == j.entries[..n]
    decreases |j.entries|
  {
    if |j.entries| <= n then j
    else
      var last := |j.entries| - 1;
      RevertEntries(RevertEntry(j.entries[last], j.(entries := j.entries[..last])), n)
  }

  lemma {:induction false} RevertEntriesSplit(j: Journal, m: nat, n: nat)
    requires n <= m
    ensures RevertEntries(RevertEntries(j, m), n) == RevertEntries(j, n)
    decreases |j.entries|
  {
    if |j.entries| > m {
      var last := |j.entries| - 1;
      RevertEntriesSplit(RevertEntry(j.entries[last], j.(entries := j.entries[..last])), m, n);
    }
  }

  // ---------- The world as an observer sees it ----------

  /** What any later operation can learn about an account: its fields, its status, and whether the
      next load is charged as cold. */
  datatype AccountView = AccountView(info: Info, status: Status, coldLoad: bool)

  function StatusView(cfg: Config, a: Address, s: Status): Status {
    s.(touched := s.touched && !(cfg.spuriousDragon && a == PRECOMPILE3), cold := false)
  }

  /** What the first load of a later transaction makes of an account: marks of local creation and
      destruction go, and what was destroyed is cleared. */
  function Cleared(x: Account): Account {
    var s := x.status.(createdLocal := false, destroyedLocal := false);
    if x.status.destroyedLocal then Account(EMPTY_INFO, s, x.txId, map[]) else x.(status := s)
  }

  /** A dormant account is seen as its next load will leave it. */
  function Seen(cfg: Config, a: Address, x: Account): Account {
    if Dormant(cfg, a, x) then Cleared(x) else x
  }

  function ViewIn(db: Db, s: Accounts, cfg: Config, a: Address): AccountView {
    if a in s then
      var x := Seen(cfg, a, s[a]);
      AccountView(x.info, StatusView(cfg, a, x.status),
                  a !in cfg.warm && (s[a].txId != cfg.txId || s[a].status.cold))
    else if a in db.accounts then AccountView(db.accounts[a], NO_STATUS, a !in cfg.warm)
    else AccountView(EMPTY_INFO, NO_STATUS.(notExisting := true), a !in cfg.warm)
  }

  datatype SlotView = SlotView(value: U256, cold: bool)

  /** A slot that is not loaded shows what the database holds. */
  function SlotIn(db: Db, s: Accounts, cfg: Config, a: Address, k: Key): SlotView {
    if a in s && k in Seen(cfg, a, s[a]).storage then
      var x := Seen(cfg, a, s[a]).storage[k];
      SlotView(x.present, x.txId != cfg.txId || x.cold)
    else SlotView(DbValue(db, a, k), (a, k) !in cfg.warmSlots)
  }

  function TransientIn(t: Transient, a: Address, k: Key): U256 {
    if (a, k) in t then t[(a, k)] else 0
  }

  function ViewOf(db: Db, j: Journal, a: Address): AccountView { ViewIn(db, j.state, j.cfg, a) }

  function SlotOf(db: Db, j: Journal, a: Address, k: Key): SlotView { SlotIn(db, j.state, j.cfg, a, k) }

  function TransientOf(j: Journal, a: Address, k: Key): U256 { TransientIn(j.transient, a, k) }

  /** Indistinguishable account state: balances, nonces, code, status, storage, transient storage and
      warmth.  Which accounts and slots happen to be loaded does not matter. */
  ghost predicate SameWorld(db: Db, j: Journal, j': Journal) {
    && j.cfg == j'.cfg
    && (forall a :: ViewOf(db, j, a) == ViewOf(db, j', a))
    && (forall a, k :: SlotOf(db, j, a, k) == SlotOf(db, j', a, k))
    && (forall a, k :: TransientOf(j, a, k) == TransientOf(j', a, k))
  }

  lemma SameWorldTransitive(db: Db, j: Journal, j': Journal, j'': Journal)
    requires SameWorld(db, j, j') && SameWorld(db, j', j'')
    ensures SameWorld(db, j, j'')
  {
    forall a
      ensures ViewOf(db, j, a) == ViewOf(db, j'', a)
    {
      assert ViewOf(db, j, a) == ViewOf(db, j', a);
    }
    forall a, k
      ensures SlotOf(db, j, a, k) == SlotOf(db, j'', a, k)
      ensures TransientOf(j, a, k) == TransientOf(j'', a, k)
    {
      assert SlotOf(db, j, a, k) == SlotOf(db, j', a, k);
      assert TransientOf(j, a, k) == TransientOf(j', a, k);
    }
  }

  lemma UndoDestroyedView(cfg: Config, e: Entry, a: Address, s: Status)
    requires e.AccountDestroyed? || e.AccountCreated?
    ensures StatusView(cfg, a, UndoStatus(e, cfg.spuriousDragon, a, s))
            == StatusView(cfg, a, UndoStatus(e, cfg.spuriousDragon, a, StatusView(cfg, a, s)))
  {
  }

  lemma UndoTouchedView(cfg: Config, e: Entry, a: Address, s: Status)
    requires e.AccountTouched?
    ensures StatusView(cfg, a, UndoStatus(e, cfg.spuriousDragon, a, s))
            == StatusView(cfg, a, UndoStatus(e, cfg.spuriousDragon, a, StatusView(cfg, a, s)))
  {
  }

  lemma UndoStatusView(cfg: Config, e: Entry, a: Address, s: Status)
    ensures StatusView(cfg, a, UndoStatus(e, cfg.spuriousDragon, a, s))
            == StatusView(cfg, a, UndoStatus(e, cfg.spuriousDragon, a, StatusView(cfg, a, s)))
  {
    if e.AccountDestroyed? || e.AccountCreated? {
      UndoDestroyedView(cfg, e, a, s);
    } else if e.AccountTouched? {
      UndoTouchedView(cfg, e, a, s);
    }
  }

  lemma UndoneCold(spuriousDragon: bool, e: Entry, a: Address, s: Status)
    ensures UndoStatus(e, spuriousDragon, a, s).cold == (s.cold || (e.AccountWarmed? && e.address == a))
  {
  }

  /** Entries leave alone what this transaction has not loaded. */
  lemma UndoElsewhere(e: Entry, s: Accounts, cfg: Config, a: Address, x: Account)
    requires EntryOk(e, s, cfg) && !Live(s, cfg, a)
    ensures UndoAccount(e, cfg.spuriousDragon, a, x) == x
    ensures e.AccountWarmed? ==> e.address != a
  {
  }

  /** The view of an account after undoing an entry, computed from its view before. */
  function UndoView(e: Entry, cfg: Config, a: Address, v: AccountView): AccountView {
    AccountView(UndoInfo(e, a, v.info), StatusView(cfg, a, UndoStatus(e, cfg.spuriousDragon, a, v.status)),
                v.coldLoad || (e.AccountWarmed? && e.address == a))
  }

  lemma ViewAfterUndo(db: Db, e: Entry, j: Journal, a: Address)
    requires EntryOk(e, j.state, j.cfg)
    ensures ViewOf(db, RevertEntry(e, j), a) == UndoView(e, j.cfg, a, ViewOf(db, j, a))
  {
    if Live(j.state, j.cfg, a) {
      var s := j.state[a].status;
      UndoStatusView(j.cfg, e, a, s);
      UndoneCold(j.cfg.spuriousDragon, e, a, s);
    } else {
      ViewElsewhere(db, e, j, a);
    }
  }

  lemma ViewElsewhere(db: Db, e: Entry, j: Journal, a: Address)
    requires EntryOk(e, j.state, j.cfg) && !Live(j.state, j.cfg, a)
    ensures ViewOf(db, RevertEntry(e, j), a) == ViewOf(db, j, a)
    ensures UndoView(e, j.cfg, a, ViewOf(db, j, a)) == ViewOf(db, j, a)
  {
    var v := ViewOf(db, j, a);
    UndoElsewhere(e, j.state, j.cfg, a, Account(v.info, v.status, 0, map[]));
    if a in j.state {
      UndoElsewhere(e, j.state, j.cfg, a, j.state[a]);
    }
  }

  lemma SlotAfterUndo(db: Db, e: Entry, j: Journal, a: Address, k: Key)
    requires EntryOk(e, j.state, j.cfg)
    ensures SlotOf(db, RevertEntry(e, j), a, k) ==
            var v := SlotOf(db, j, a, k);
            if e.StorageChanged? && e.address == a && e.key == k then v.(value := e.hadValue)
            else if e.StorageWarmed? && e.address == a && e.key == k then v.(cold := true)
            else v
  {
    if a in j.state && !Live(j.state, j.cfg, a) {
      UndoElsewhere(e, j.state, j.cfg, a, j.state[a]);
    }
  }

  lemma TransientAfterUndo(e: Entry, j: Journal, a: Address, k: Key)
    ensures TransientOf(RevertEntry(e, j), a, k) ==
            if e.TransientStorageChange? && e.address == a && e.key == k then e.hadValue else TransientOf(j, a, k)
  {
  }

  /** Undoing an entry cannot tell indistinguishable worlds apart. */
  lemma RevertEntryCongruent(db: Db, e: Entry, j: Journal, j': Journal)
    requires SameWorld(db, j, j') && EntryOk(e, j.state, j.cfg) && EntryOk(e, j'.state, j'.cfg)
    ensures SameWorld(db, RevertEntry(e, j), RevertEntry(e, j'))
  {
    var r, r' := RevertEntry(e, j), RevertEntry(e, j');
    forall a
      ensures ViewOf(db, r, a) == ViewOf(db, r', a)
    {
      ViewAfterUndo(db, e, j, a);
      ViewAfterUndo(db, e, j', a);
    }
    forall a, k
      ensures SlotOf(db, r, a, k) == SlotOf(db, r', a, k)
      ensures TransientOf(r, a, k) == TransientOf(r', a, k)
    {
      SlotAfterUndo(db, e, j, a, k);
      SlotAfterUndo(db, e, j', a, k);
      TransientAfterUndo(e, j, a, k);
      TransientAfterUndo(e, j', a, k);
      assert SlotOf(db, j, a, k) == SlotOf(db, j', a, k);
      assert TransientOf(j, a, k) == TransientOf(j', a, k);
    }
  }

  // ---------- Invariant ----------

  ghost predicate AccountRep(cfg: Config, a: Address, x: Account) {
    && x.txId <= cfg.txId
    && (x.txId == cfg.txId && x.status.cold ==> a !in cfg.warm)
  }

  ghost predicate EntriesOk(j: Journal) {
    forall i :: 0 <= i < |j.entries| ==> EntryOk(j.entries[i], j.state, j.cfg)
  }

  /** Bookkeeping: stamps, lookups that succeed, no explicit zero in transient storage. */
  ghost predicate RepInv(j: Journal) {
    && j.cfg.leftover <= j.state.Keys
    && (forall a :: a in j.state ==> AccountRep(j.cfg, a, j.state[a]))
    && (forall p :: p in j.transient ==> j.transient[p] != 0)
    && EntriesOk(j)
  }

  predicate Flagged(s: Status) {
    s.createdLocal || s.destroyedLocal
  }

  /** Status flags that belong together.  The third line is why, in the first transaction of a
      journal, the lazy clearing of a destroyed account never fires. */
  ghost predicate FlagsOk(cfg: Config, a: Address, v: AccountView) {
    && (v.status.destroyedLocal ==> v.status.destroyed)
    && (v.status.createdLocal ==> v.status.created && (cfg.spuriousDragon ==> v.info.nonce != 0))
    && (cfg.txId == 0 && v.coldLoad ==> !Flagged(v.status))
  }

  ghost predicate FlagInv(db: Db, j: Journal) {
    forall a :: FlagsOk(j.cfg, a, ViewOf(db, j, a))
  }

  ghost predicate Inv(db: Db, j: Journal) {
    RepInv(j) && FlagInv(db, j)
  }

  lemma FlagInvSameWorld(db: Db, j: Journal, j': Journal)
    requires SameWorld(db, j, j') && FlagInv(db, j)
    ensures FlagInv(db, j')
  {
    forall a
      ensures FlagsOk(j'.cfg, a, ViewOf(db, j', a))
    {
      assert ViewOf(db, j, a) == ViewOf(db, j', a);
    }
  }

  lemma EntryOkAfterUndo(e: Entry, f: Entry, s: Accounts, cfg: Config)
    requires EntryOk(f, s, cfg)
    ensures EntryOk(f, UndoAccounts(e, cfg.spuriousDragon, s), cfg)
  {
  }

  lemma RevertEntryRep(e: Entry, j: Journal)
    requires RepInv(j) && EntryOk(e, j.state, j.cfg)
    ensures RepInv(RevertEntry(e, j))
  {
    var r := RevertEntry(e, j);
    forall a | a in r.state
      ensures AccountRep(r.cfg, a, r.state[a])
    {
      assert AccountRep(j.cfg, a, j.state[a]);
      var s := j.state[a].status;
      UndoneCold(j.cfg.spuriousDragon, e, a, s);
    }
    forall i | 0 <= i < |r.entries|
      ensures EntryOk(r.entries[i], r.state, r.cfg)
    {
      EntryOkAfterUndo(e, j.entries[i], j.state, j.cfg);
    }
  }

  lemma {:induction false} RevertEntriesRep(j: Journal, n: nat)
    requires RepInv(j)
    ensures RepInv(RevertEntries(j, n))
    decreases |j.entries|
  {
    if |j.entries| > n {
      var last := |j.entries| - 1;
      var d := j.(entries := j.entries[..last]);
      RevertEntryRep(j.entries[last], d);
      RevertEntriesRep(RevertEntry(j.entries[last], d), n);
    }
  }

  /** Only the accounts, the transient storage and the configuration are observed. */
  lemma SameWorldEntries(db: Db, j: Journal, j': Journal, d: Journal, d': Journal)
    requires SameWorld(db, j, j')
    requires d.state == j.state && d.transient == j.transient && d.cfg == j.cfg
    requires d'.state == j'.state && d'.transient == j'.transient && d'.cfg == j'.cfg
    ensures SameWorld(db, d, d')
  {
    forall a
      ensures ViewOf(db, d, a) == ViewOf(db, d', a)
    {
      assert ViewOf(db, j, a) == ViewOf(db, j', a);
    }
    forall a, k
      ensures SlotOf(db, d, a, k) == SlotOf(db, d', a, k)
      ensures TransientOf(d, a, k) == TransientOf(d', a, k)
    {
      assert SlotOf(db, j, a, k) == SlotOf(db, j', a, k);
      assert TransientOf(j, a, k) == TransientOf(j', a, k);
    }
  }

  /** Undoing the newest entry on both sides. */
  lemma NewestCongruent(db: Db, e: Entry, j: Journal, j': Journal, d: Journal, d': Journal)
    requires RepInv(j) && RepInv(j') && SameWorld(db, j, j') && j.entries == j'.entries && |j.entries| > 0
    requires e == j.entries[|j.entries| - 1]
    requires d == j.(entries := j.entries[..|j.entries| - 1]) && d' == j'.(entries := d.entries)
    ensures RepInv(RevertEntry(e, d)) && RepInv(RevertEntry(e, d'))
    ensures SameWorld(db, RevertEntry(e, d), RevertEntry(e, d'))
  {
    RevertEntryRep(e, d);
    RevertEntryRep(e, d');
    SameWorldEntries(db, j, j', d, d');
    RevertEntryCongruent(db, e, d, d');
  }

  /** Undoing a stretch of entries cannot tell indistinguishable worlds apart. */
  lemma {:induction false} RevertEntriesCongruent(db: Db, j: Journal, j': Journal, n: nat)
    requires RepInv(j) && RepInv(j') && SameWorld(db, j, j') && j.entries == j'.entries
    ensures SameWorld(db, RevertEntries(j, n), RevertEntries(j', n))
    decreases |j.entries|
  {
    if |j.entries| > n {
      var last := |j.entries| - 1;
      var e := j.entries[last];
      var d, d' := j.(entries := j.entries[..last]), j'.(entries := j.entries[..last]);
      NewestCongruent(db, e, j, j', d, d');
      RevertEntriesCongruent(db, RevertEntry(e, d), RevertEntry(e, d'), n);
      assert RevertEntries(j, n) == RevertEntries(RevertEntry(e, d), n);
      assert RevertEntries(j', n) == RevertEntries(RevertEntry(e, d'), n);
    }
  }

  // ---------- Steps that can be taken back ----------

  /** `j'` only adds to the undo log and the logs of `j`, and undoing the additions gives back a world
      indistinguishable from that of `j`. */
  ghost predicate Undoes(db: Db, j: Journal, j': Journal) {
    && j'.cfg == j.cfg
    && j'.depth == j.depth
    && j.entries <= j'.entries
    && j.logs <= j'.logs
    && Inv(db, j')
    && SameWorld(db, j, RevertEntries(j', |j.entries|))
  }

  lemma UndoesReflexive(db: Db, j: Journal)
    requires Inv(db, j)
    ensures Undoes(db, j, j)
  {
  }

  /** Steps that can be taken back one by one can be taken back together. */
  lemma UndoesTransitive(db: Db, j: Journal, j': Journal, j'': Journal)
    requires Inv(db, j) && Undoes(db, j, j') && Undoes(db, j', j'')
    ensures Undoes(db, j, j'')
  {
    var n, m := |j.entries|, |j'.entries|;
    var back := RevertEntries(j'', m);
    RevertEntriesSplit(j'', m, n);
    RevertEntriesRep(j'', m);
    assert back.entries == j'.entries;
    RevertEntriesCongruent(db, j', back, n);
    SameWorldTransitive(db, j, RevertEntries(j', n), RevertEntries(j'', n));
  }

  function Push(j: Journal, e: Entry): Journal {
    j.(entries := j.entries + [e])
  }

  lemma RevertPushed(x: Journal, e: Entry)
    ensures RevertEntries(Push(x, e), |x.entries|) == RevertEntry(e, x)
  {
    var p := Push(x, e);
    assert p.entries[..|x.entries|] == x.entries;
    assert p.(entries := x.entries) == x;
  }

  /** A step that changes `j` to `x` and pushes `e` is taken back by undoing `e`. */
  lemma UndoesByEntry(db: Db, j: Journal, x: Journal, e: Entry)
    requires x.entries == j.entries && x.logs == j.logs && x.depth == j.depth
    requires Inv(db, Push(x, e)) && SameWorld(db, j, RevertEntry(e, x))
    ensures Undoes(db, j, Push(x, e))
  {
    RevertPushed(x, e);
  }

  /** A step that no observer can see needs no entry. */
  lemma UndoesUnseen(db: Db, j: Journal, x: Journal)
    requires x.entries == j.entries && x.logs == j.logs && x.depth == j.depth
    requires Inv(db, x) && SameWorld(db, j, x)
    ensures Undoes(db, j, x)
  {
  }
}
