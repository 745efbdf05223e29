/** The in-memory overlay database (crates/database/src/in_memory_db.rs): cached accounts over a backing
    database, committed changes, and flattening of a nested cache. */
module CacheDb {
  import opened Wrappers
  import opened Journal

  // ---------- Data ----------

  datatype AccountState = NotExisting | Touched | StorageCleared | Untouched

  datatype DbAccount = DbAccount(info: Info, state: AccountState, storage: map<Key, U256>)

  type Code = nat

  datatype Cache = Cache(accounts: map<Address, DbAccount>, contracts: map<Hash, Code>, blockHashes: map<nat, Hash>)

  /** Any database that can be read. */
  datatype Reader = Reader(
    basic: Address -> Option<Info>, storage: (Address, Key) -> U256, code: Hash -> Code, blockHash: nat -> Hash)

  const NO_ACCOUNT: DbAccount := DbAccount(EMPTY_INFO, NotExisting, map[])
  const DEFAULT_ACCOUNT: DbAccount := DbAccount(EMPTY_INFO, Untouched, map[])

  function InfoOf(x: DbAccount): Option<Info> {
    if x.state.NotExisting? then None else Some(x.info)
  }

  /** Slots that are not cached are zero and not asked for. */
  predicate Shut(x: DbAccount) {
    x.state.StorageCleared? || x.state.NotExisting?
  }

  function FromInfo(i: Option<Info>): DbAccount {
    if i.None? then NO_ACCOUNT else DbAccount(i.value, Untouched, map[])
  }

  // ---------- Reads that change nothing ----------

  function BasicRef(c: Cache, r: Reader, a: Address): Option<Info> {
    if a in c.accounts then InfoOf(c.accounts[a]) else r.basic(a)
  }

  function SlotRef(x: DbAccount, r: Reader, a: Address, k: Key): U256 {
    if k in x.storage then x.storage[k] else if Shut(x) then 0 else r.storage(a, k)
  }

  function StorageRef(c: Cache, r: Reader, a: Address, k: Key): U256 {
    if a in c.accounts then SlotRef(c.accounts[a], r, a, k) else r.storage(a, k)
  }

  function CodeRef(c: Cache, r: Reader, h: Hash): Code {
    if h in c.contracts then c.contracts[h] else r.code(h)
  }

  function BlockHashRef(c: Cache, r: Reader, n: nat): Hash {
    if n in c.blockHashes then c.blockHashes[n] else r.blockHash(n)
  }

  /** A cache over a database is itself a database. */
  function Over(c: Cache, r: Reader): Reader {
    Reader((a: Address) => BasicRef(c, r, a), (a: Address, k: Key) => StorageRef(c, r, a, k),
           (h: Hash) => CodeRef(c, r, h), (n: nat) => BlockHashRef(c, r, n))
  }

  ghost predicate SameAccounts(c: Cache, c': Cache, r: Reader) {
    && (forall a :: BasicRef(c', r, a) == BasicRef(c, r, a))
    && (forall a, k :: StorageRef(c', r, a, k) == StorageRef(c, r, a, k))
  }

  /** No reader can tell the two caches apart. */
  ghost predicate SameReads(c: Cache, c': Cache, r: Reader) {
    && SameAccounts(c, c', r)
    && (forall h :: CodeRef(c', r, h) == CodeRef(c, r, h))
    && (forall n :: BlockHashRef(c', r, n) == BlockHashRef(c, r, n))
  }

  // ---------- Reads that fill the cache ----------

  datatype Read = ReadBasic(a: Address) | ReadStorage(a: Address, k: Key) | ReadCode(h: Hash) | ReadHash(n: nat)

  datatype Answer = AnInfo(info: Option<Info>) | AValue(value: U256) | ACode(code: Code) | AHash(hash: Hash)

  function AnswerRef(c: Cache, r: Reader, q: Read): Answer {
    match q
    case ReadBasic(a) => AnInfo(BasicRef(c, r, a))
    case ReadStorage(a, k) => AValue(StorageRef(c, r, a, k))
    case ReadCode(h) => ACode(CodeRef(c, r, h))
    case ReadHash(n) => AHash(BlockHashRef(c, r, n))
  }

  function LoadAccount(c: Cache, r: Reader, a: Address): Cache {
    if a in c.accounts then c else c.(accounts := c.accounts[a := FromInfo(r.basic(a))])
  }

  /** The account is loaded first; a slot it does not have is asked for unless the account is shut. */
  function LoadSlot(c: Cache, r: Reader, a: Address, k: Key): Cache {
    var c1 := LoadAccount(c, r, a);
    var x := c1.accounts[a];
    if k in x.storage || Shut(x) then c1
    else c1.(accounts := c1.accounts[a := x.(storage := x.storage[k := r.storage(a, k)])])
  }

  function Fill(c: Cache, r: Reader, q: Read): Cache {
    match q
    case ReadBasic(a) => LoadAccount(c, r, a)
    case ReadStorage(a, k) => LoadSlot(c, r, a, k)
    case ReadCode(h) => c.(contracts := c.contracts[h := CodeRef(c, r, h)])
    case ReadHash(n) => c.(blockHashes := c.blockHashes[n := BlockHashRef(c, r, n)])
  }

  /** What the filling read returns. */
  function AnswerOf(c: Cache, r: Reader, q: Read): Answer {
    match q
    case ReadBasic(a) => AnInfo(InfoOf(LoadAccount(c, r, a).accounts[a]))
    case ReadStorage(a, k) => AValue(SlotRef(LoadSlot(c, r, a, k).accounts[a], r, a, k))
    case _ => AnswerRef(c, r, q)
  }

  function FillAll(c: Cache, r: Reader, qs: seq<Read>): Cache
    decreases |qs|
  {
    if qs == [] then c else FillAll(Fill(c, r, qs[0]), r, qs[1..])
  }

  /** An account that the database does not know has no storage there. */
  ghost predicate NoLeftovers(r: Reader, a: Address) {
    r.basic(a).None? ==> forall k :: r.storage(a, k) == 0
  }

  /** Loading an account stays unseen exactly when it was cached or leaves no leftover storage unseen. */
  lemma LoadUnseen(c: Cache, r: Reader, a: Address)
    ensures SameReads(c, LoadAccount(c, r, a), r) <==> a in c.accounts || NoLeftovers(r, a)
  {
    var c' := LoadAccount(c, r, a);
    if a !in c.accounts && !NoLeftovers(r, a) {
      var k :| r.storage(a, k) != 0;
      assert StorageRef(c', r, a, k) != StorageRef(c, r, a, k);
    } else {
      forall b, k
        ensures BasicRef(c', r, b) == BasicRef(c, r, b)
        ensures StorageRef(c', r, b, k) == StorageRef(c, r, b, k)
      {
      }
    }
  }

  lemma SlotUnseen(c: Cache, r: Reader, a: Address, k: Key)
    requires a in c.accounts
    ensures SameReads(c, LoadSlot(c, r, a, k), r)
  {
  }

  lemma FillUnseen(c: Cache, r: Reader, q: Read)
    requires forall a :: NoLeftovers(r, a)
    ensures SameReads(c, Fill(c, r, q), r)
    ensures AnswerOf(c, r, q) == AnswerRef(c, r, q)
  {
    match q {
      case ReadBasic(a) => LoadUnseen(c, r, a);
      case ReadStorage(a, k) =>
        LoadUnseen(c, r, a);
        var c1 := LoadAccount(c, r, a);
        SlotUnseen(c1, r, a, k);
        assert StorageRef(c1, r, a, k) == StorageRef(c, r, a, k);
        SameReadsTransitive(c, c1, LoadSlot(c, r, a, k), r);
      case _ =>
    }
  }

  lemma SameReadsTransitive(c: Cache, c1: Cache, c2: Cache, r: Reader)
    requires SameReads(c, c1, r) && SameReads(c1, c2, r)
    ensures SameReads(c, c2, r)
  {
    forall a, k
      ensures BasicRef(c2, r, a) == BasicRef(c, r, a)
      ensures StorageRef(c2, r, a, k) == StorageRef(c, r, a, k)
    {
      assert BasicRef(c1, r, a) == BasicRef(c, r, a);
      assert StorageRef(c1, r, a, k) == StorageRef(c, r, a, k);
    }
    forall h
      ensures CodeRef(c2, r, h) == CodeRef(c, r, h) && BlockHashRef(c2, r, h) == BlockHashRef(c, r, h)
    {
      assert CodeRef(c1, r, h) == CodeRef(c, r, h) && BlockHashRef(c1, r, h) == BlockHashRef(c, r, h);
    }
  }

  /** Any number of filling reads changes no later answer. */
  lemma {:induction false} ReadsAreTransparent(c: Cache, r: Reader, qs: seq<Read>, q: Read)
    requires forall a :: NoLeftovers(r, a)
    ensures SameReads(c, FillAll(c, r, qs), r)
    ensures AnswerOf(FillAll(c, r, qs), r, q) == AnswerRef(c, r, q)
    decreases |qs|
  {
    if qs == [] {
      FillUnseen(c, r, q);
    } else {
      var c1 := Fill(c, r, qs[0]);
      FillUnseen(c, r, qs[0]);
      ReadsAreTransparent(c1, r, qs[1..], q);
      SameReadsTransitive(c, c1, FillAll(c1, r, qs[1..]), r);
      SameAnswer(c, c1, r, q);
    }
  }

  lemma SameAnswer(c: Cache, c': Cache, r: Reader, q: Read)
    requires SameReads(c, c', r)
    ensures AnswerRef(c', r, q) == AnswerRef(c, r, q)
  {
  }

  // ---------- Committing changes ----------

  /** Code as an account carries it, with its hash. */
  datatype Bytecode = Bytecode(bytes: Code, isEmpty: bool, hash: Hash)

  /** What a transaction did to an account; `storage` holds the present values. */
  datatype Change = Change(
    touched: bool, destroyed: bool, created: bool, info: Info, code: Option<Bytecode>, storage: map<Key, U256>)

  predicate Carries(ch: Change) {
    ch.code.Some? && !ch.code.value.isEmpty
  }

  /** The hash under which carried code is kept. */
  function CodeKey(ch: Change): Hash
    requires Carries(ch)
  {
    if ch.info.code == KECCAK_EMPTY then ch.code.value.hash else ch.info.code
  }

  /** The info with its code hash made good. */
  function Normal(ch: Change): Info {
    var h := if Carries(ch) then CodeKey(ch) else ch.info.code;
    ch.info.(code := if h == ZERO_HASH then KECCAK_EMPTY else h)
  }

  type Changes = map<Address, Change>

  function CommitOne(x: DbAccount, ch: Change): DbAccount {
    if ch.destroyed then DbAccount(EMPTY_INFO, NotExisting, map[])
    else
      var kept := if ch.created then map[] else x.storage;
      var state := if ch.created || x.state.StorageCleared? then StorageCleared else Touched;
      DbAccount(Normal(ch), state, kept + ch.storage)
  }

  function CommitAt(c: Cache, a: Address, ch: Change): Cache {
    if !ch.touched then c
    else c.(accounts := c.accounts[a := CommitOne(if a in c.accounts then c.accounts[a] else DEFAULT_ACCOUNT, ch)])
  }

  /** The plain replay: untouched stays, destroyed is gone, created starts empty, the rest is overlaid. */
  function ReplayBasic(before: Option<Info>, ch: Change): Option<Info> {
    if !ch.touched then before else if ch.destroyed then None else Some(Normal(ch))
  }

  function ReplayStorage(before: U256, ch: Change, k: Key): U256 {
    if !ch.touched then before
    else if ch.destroyed then 0
    else if k in ch.storage then ch.storage[k]
    else if ch.created then 0
    else before
  }

  /** Touching an account that is cached as not existing, without creating it, asks the database again:
      it must hold nothing for the slots that neither the cache nor the change has. */
  ghost predicate NothingReturns(c: Cache, r: Reader, a: Address, ch: Change) {
    ch.touched && !ch.destroyed && !ch.created && a in c.accounts && c.accounts[a].state.NotExisting? ==>
      forall k :: k in c.accounts[a].storage || k in ch.storage || r.storage(a, k) == 0
  }

  /** Committing is replaying exactly under that condition. */
  lemma CommitReplays(c: Cache, r: Reader, a: Address, ch: Change)
    ensures BasicRef(CommitAt(c, a, ch), r, a) == ReplayBasic(BasicRef(c, r, a), ch)
    ensures (forall k :: StorageRef(CommitAt(c, a, ch), r, a, k) == ReplayStorage(StorageRef(c, r, a, k), ch, k))
            <==> NothingReturns(c, r, a, ch)
  {
    if !NothingReturns(c, r, a, ch) {
      var k :| k !in c.accounts[a].storage && k !in ch.storage && r.storage(a, k) != 0;
      assert StorageRef(CommitAt(c, a, ch), r, a, k) != ReplayStorage(StorageRef(c, r, a, k), ch, k);
    }
  }

  // ---------- Whole commits ----------

  ghost predicate Hits(chs: Changes, a: Address) {
    a in chs && chs[a].touched
  }

  predicate Adds(chs: Changes, a: Address) {
    a in chs && chs[a].touched && !chs[a].destroyed && Carries(chs[a])
  }

  /** `m'` is `m` with the code carried by the changes to `done`; what a hash has already stays. */
  ghost predicate CodeCommitted(m: map<Hash, Code>, chs: Changes, done: set<Address>, m': map<Hash, Code>) {
    && (forall h :: h in m ==> h in m' && m'[h] == m[h])
    && (forall a :: a in done && Adds(chs, a) ==> CodeKey(chs[a]) in m')
    && (forall h :: h in m' && h !in m ==>
          exists a :: a in done && Adds(chs, a) && CodeKey(chs[a]) == h && m'[h] == chs[a].code.value.bytes)
  }

  ghost predicate AccountsCommitted(c: Cache, chs: Changes, done: set<Address>, c': Cache) {
    forall a :: if a in done && Hits(chs, a) then
                  a in c'.accounts && c'.accounts[a] == CommitAt(c, a, chs[a]).accounts[a]
                else (a in c'.accounts <==> a in c.accounts) && (a in c.accounts ==> c'.accounts[a] == c.accounts[a])
  }

  /** `c'` is `c` with the changes to the addresses of `done` committed. */
  ghost predicate Committed(c: Cache, chs: Changes, done: set<Address>, c': Cache) {
    && c'.blockHashes == c.blockHashes
    && CodeCommitted(c.contracts, chs, done, c'.contracts)
    && AccountsCommitted(c, chs, done, c')
  }

  lemma CommittedReads(c: Cache, chs: Changes, c': Cache, r: Reader, a: Address, k: Key)
    requires Committed(c, chs, chs.Keys, c')
    ensures var one := if a in chs then CommitAt(c, a, chs[a]) else c;
            BasicRef(c', r, a) == BasicRef(one, r, a) && StorageRef(c', r, a, k) == StorageRef(one, r, a, k)
  {
  }

  lemma CodeStep(m: map<Hash, Code>, chs: Changes, done: set<Address>, m': map<Hash, Code>, a: Address)
    requires CodeCommitted(m, chs, done, m') && Adds(chs, a)
    ensures var h := CodeKey(chs[a]);
            CodeCommitted(m, chs, done + {a}, if h in m' then m' else m'[h := chs[a].code.value.bytes])
  {
    var h := CodeKey(chs[a]);
    var m'' := if h in m' then m' else m'[h := chs[a].code.value.bytes];
    forall g | g in m'' && g !in m
      ensures exists b :: b in done + {a} && Adds(chs, b) && CodeKey(chs[b]) == g && m''[g] == chs[b].code.value.bytes
    {
      if g in m' {
        var b :| b in done && Adds(chs, b) && CodeKey(chs[b]) == g && m'[g] == chs[b].code.value.bytes;
        assert b in done + {a};
      } else {
        assert a in done + {a} && CodeKey(chs[a]) == g;
      }
    }
  }

  lemma CodeSkips(m: map<Hash, Code>, chs: Changes, done: set<Address>, m': map<Hash, Code>, a: Address)
    requires CodeCommitted(m, chs, done, m') && !Adds(chs, a)
    ensures CodeCommitted(m, chs, done + {a}, m')
  {
    forall g | g in m' && g !in m
      ensures exists b :: b in done + {a} && Adds(chs, b) && CodeKey(chs[b]) == g && m'[g] == chs[b].code.value.bytes
    {
      var b :| b in done && Adds(chs, b) && CodeKey(chs[b]) == g && m'[g] == chs[b].code.value.bytes;
      assert b in done + {a};
    }
  }

  /** `codes` is what each hash stands for. */
  ghost predicate Honest(m: map<Hash, Code>, codes: Hash -> Code) {
    forall h :: h in m ==> m[h] == codes(h)
  }

  /** Where hashes stand for their code, whatever a commit brings can be read back by its hash, and what
      could be read before still can. */
  lemma CodeReadBack(c: Cache, chs: Changes, c': Cache, r: Reader, codes: Hash -> Code, a: Address)
    requires Committed(c, chs, chs.Keys, c') && Honest(c.contracts, codes)
    requires forall b :: Adds(chs, b) ==> chs[b].code.value.bytes == codes(CodeKey(chs[b]))
    ensures Honest(c'.contracts, codes)
    ensures Adds(chs, a) ==> CodeRef(c', r, CodeKey(chs[a])) == chs[a].code.value.bytes
    ensures forall h :: CodeRef(c, r, h) == codes(h) ==> CodeRef(c', r, h) == codes(h)
  {
    forall h | h in c'.contracts
      ensures c'.contracts[h] == codes(h)
    {
      if h !in c.contracts {
        var b :| b in chs.Keys && Adds(chs, b) && CodeKey(chs[b]) == h && c'.contracts[h] == chs[b].code.value.bytes;
      }
    }
  }

  /** A run of commits: `cs[i + 1]` is `cs[i]` after committing `list[i]`. */
  ghost predicate CommitRun(cs: seq<Cache>, list: seq<Changes>) {
    && |cs| == |list| + 1
    && forall i :: 0 <= i < |list| ==> Committed(cs[i], list[i], list[i].Keys, cs[i + 1])
  }

  ghost predicate Quiet(cs: seq<Cache>, list: seq<Changes>, r: Reader, a: Address)
    requires |cs| == |list| + 1
  {
    forall i :: 0 <= i < |list| && a in list[i] ==> NothingReturns(cs[i], r, a, list[i][a])
  }

  function ReplayedBasic(before: Option<Info>, list: seq<Changes>, a: Address): Option<Info>
    decreases |list|
  {
    if list == [] then before
    else
      var b := ReplayedBasic(before, list[..|list| - 1], a);
      var last := list[|list| - 1];
      if a in last then ReplayBasic(b, last[a]) else b
  }

  function ReplayedStorage(before: U256, list: seq<Changes>, a: Address, k: Key): U256
    decreases |list|
  {
    if list == [] then before
    else
      var b := ReplayedStorage(before, list[..|list| - 1], a, k);
      var last := list[|list| - 1];
      if a in last then ReplayStorage(b, last[a], k) else b
  }

  /** After any sequence of commits every read gives what the plain replay gives. */
  lemma {:induction false} CommitsReplay(cs: seq<Cache>, list: seq<Changes>, r: Reader, a: Address, k: Key)
    requires CommitRun(cs, list) && Quiet(cs, list, r, a)
    ensures BasicRef(cs[|list|], r, a) == ReplayedBasic(BasicRef(cs[0], r, a), list, a)
    ensures StorageRef(cs[|list|], r, a, k) == ReplayedStorage(StorageRef(cs[0], r, a, k), list, a, k)
    decreases |list|
  {
    if list != [] {
      var n := |list| - 1;
      CommitsReplay(cs[..n + 1], list[..n], r, a, k);
      CommittedReads(cs[n], list[n], cs[n + 1], r, a, k);
      if a in list[n] {
        CommitReplays(cs[n], r, a, list[n][a]);
      }
    }
  }

  // ---------- Flattening ----------

  function Flatten(outer: Cache, inner: Cache): Cache {
    Cache(inner.accounts + outer.accounts, inner.contracts + outer.contracts, inner.blockHashes + outer.blockHashes)
  }

  /** An outer account that still asks below skips the inner entry once flattened: the inner entry must
      hold nothing that the database below does not also answer. */
  ghost predicate Covered(outer: Cache, inner: Cache, r: Reader, a: Address) {
    a in outer.accounts && !Shut(outer.accounts[a]) && a in inner.accounts ==>
      var i := inner.accounts[a];
      forall k :: || k in outer.accounts[a].storage
                  || (if k in i.storage then i.storage[k] == r.storage(a, k) else Shut(i) ==> r.storage(a, k) == 0)
  }

  lemma FlattenAt(outer: Cache, inner: Cache, r: Reader, a: Address)
    ensures BasicRef(Flatten(outer, inner), r, a) == BasicRef(outer, Over(inner, r), a)
    ensures (forall k :: StorageRef(Flatten(outer, inner), r, a, k) == StorageRef(outer, Over(inner, r), a, k))
            <==> Covered(outer, inner, r, a)
  {
    if !Covered(outer, inner, r, a) {
      var i := inner.accounts[a];
      var k :| k !in outer.accounts[a].storage
               && !(if k in i.storage then i.storage[k] == r.storage(a, k) else Shut(i) ==> r.storage(a, k) == 0);
      assert StorageRef(Flatten(outer, inner), r, a, k) != StorageRef(outer, Over(inner, r), a, k);
    }
  }

  lemma FlattenCode(outer: Cache, inner: Cache, r: Reader, h: Hash, n: nat)
    ensures CodeRef(Flatten(outer, inner), r, h) == CodeRef(outer, Over(inner, r), h)
    ensures BlockHashRef(Flatten(outer, inner), r, n) == BlockHashRef(outer, Over(inner, r), n)
  {
  }

  /** The flattened cache answers every read as the nested pair exactly when every account is covered. */
  lemma FlattenSame(outer: Cache, inner: Cache, r: Reader)
    ensures (forall q :: AnswerRef(Flatten(outer, inner), r, q) == AnswerRef(outer, Over(inner, r), q))
            <==> forall a :: Covered(outer, inner, r, a)
  {
    var f := Flatten(outer, inner);
    if forall a :: Covered(outer, inner, r, a) {
      forall q
        ensures AnswerRef(f, r, q) == AnswerRef(outer, Over(inner, r), q)
      {
        match q
        case ReadBasic(a) => FlattenAt(outer, inner, r, a);
        case ReadStorage(a, k) => FlattenAt(outer, inner, r, a);
        case ReadCode(h) => FlattenCode(outer, inner, r, h, 0);
        case ReadHash(n) => FlattenCode(outer, inner, r, 0, n);
      }
    } else {
      var a :| !Covered(outer, inner, r, a);
      FlattenAt(outer, inner, r, a);
      var k :| StorageRef(f, r, a, k) != StorageRef(outer, Over(inner, r), a, k);
      assert AnswerRef(f, r, ReadStorage(a, k)) != AnswerRef(outer, Over(inner, r), ReadStorage(a, k));
    }
  }

  // ---------- As the source runs it ----------

  class CacheDB {
    var accounts: map<Address, DbAccount>
    var contracts: map<Hash, Code>
    var blockHashes: map<nat, Hash>
    const db: Reader

    constructor (db: Reader)
      ensures this.db == db && Contents() == Cache(map[], map[], map[])
    {
      this.db := db;
      accounts, contracts, blockHashes := map[], map[], map[];
    }

    function Contents(): Cache
      reads this
    {
      Cache(accounts, contracts, blockHashes)
    }

    method Basic(a: Address) returns (info: Option<Info>)
      modifies this`accounts
      ensures Contents() == Fill(old(Contents()), db, ReadBasic(a))
      ensures AnInfo(info) == AnswerOf(old(Contents()), db, ReadBasic(a))
    {
      if a !in accounts {
        accounts := accounts[a := FromInfo(db.basic(a))];
      }
      info := InfoOf(accounts[a]);
    }

    method Storage(a: Address, k: Key) returns (value: U256)
      modifies this`accounts
      ensures Contents() == Fill(old(Contents()), db, ReadStorage(a, k))
      ensures AValue(value) == AnswerOf(old(Contents()), db, ReadStorage(a, k))
    {
      if a in accounts {
        var x := accounts[a];
        if k in x.storage {
          value := x.storage[k];
        } else if x.state.StorageCleared? || x.state.NotExisting? {
          value := 0;
        } else {
          value := db.storage(a, k);
          accounts := accounts[a := x.(storage := x.storage[k := value])];
        }
      } else {
        var info := db.basic(a);
        if info.Some? {
          value := db.storage(a, k);
          accounts := accounts[a := DbAccount(info.value, Untouched, map[k := value])];
        } else {
          value := 0;
          accounts := accounts[a := FromInfo(info)];
        }
      }
    }

    method CodeByHash(h: Hash) returns (code: Code)
      modifies this`contracts
      ensures Contents() == Fill(old(Contents()), db, ReadCode(h))
      ensures ACode(code) == AnswerOf(old(Contents()), db, ReadCode(h))
    {
      if h !in contracts {
        contracts := contracts[h := db.code(h)];
      } else {
        assert contracts[h := contracts[h]] == contracts;
      }
      code := contracts[h];
    }

    method BlockHash(n: nat) returns (hash: Hash)
      modifies this`blockHashes
      ensures Contents() == Fill(old(Contents()), db, ReadHash(n))
      ensures AHash(hash) == AnswerOf(old(Contents()), db, ReadHash(n))
    {
      if n !in blockHashes {
        blockHashes := blockHashes[n := db.blockHash(n)];
      } else {
        assert blockHashes[n := blockHashes[n]] == blockHashes;
      }
      hash := blockHashes[n];
    }

    /** Code that an account carries is kept under its hash. */
    method InsertContract(ch: Change) returns (info: Info)
      modifies this`contracts
      ensures info == Normal(ch)
      ensures contracts == if Carries(ch) && CodeKey(ch) !in old(contracts)
                           then old(contracts)[CodeKey(ch) := ch.code.value.bytes] else old(contracts)
    {
      info := ch.info;
      if ch.code.Some? && !ch.code.value.isEmpty {
        if info.code == KECCAK_EMPTY {
          info := info.(code := ch.code.value.hash);
        }
        if info.code !in contracts {
          contracts := contracts[info.code := ch.code.value.bytes];
        }
      }
      if info.code == ZERO_HASH {
        info := info.(code := KECCAK_EMPTY);
      }
    }

    method CommitChange(a: Address, ch: Change)
      modifies this`accounts, this`contracts
      ensures accounts == CommitAt(old(Contents()), a, ch).accounts
      ensures contracts == if ch.touched && !ch.destroyed && Carries(ch) && CodeKey(ch) !in old(contracts)
                           then old(contracts)[CodeKey(ch) := ch.code.value.bytes] else old(contracts)
    {
      if !ch.touched {
        return;
      }
      var x := if a in accounts then accounts[a] else DEFAULT_ACCOUNT;
      if ch.destroyed {
        x := DbAccount(EMPTY_INFO, NotExisting, map[]);
      } else {
        var info := InsertContract(ch);
        x := x.(info := info);
        if ch.created {
          x := x.(storage := map[], state := StorageCleared);
        } else if !x.state.StorageCleared? {
          x := x.(state := Touched);
        }
        x := x.(storage := x.storage + ch.storage);
      }
      accounts := accounts[a := x];
    }

    /** The changes come in no particular order. */
    method Commit(chs: Changes)
      modifies this`accounts, this`contracts
      ensures Committed(old(Contents()), chs, chs.Keys, Contents())
    {
      var rest := chs.Keys;
      NothingCommitted(Contents(), chs, rest);
      while rest != {}
        invariant rest <= chs.Keys && blockHashes == old(blockHashes)
        invariant Committed(old(Contents()), chs, chs.Keys - rest, Contents())
        decreases |rest|
      {
        var a :| a in rest;
        OneLess(chs.Keys, rest, a);
        ghost var was := Contents();
        CommitChange(a, chs[a]);
        CommittedStep(old(Contents()), chs, chs.Keys - rest, was, Contents(), a);
        rest := rest - {a};
      }
      assert chs.Keys - rest == chs.Keys;
    }
  }

  lemma NothingCommitted(c: Cache, chs: Changes, rest: set<Address>)
    requires rest == chs.Keys
    ensures Committed(c, chs, chs.Keys - rest, c)
  {
  }

  lemma CommittedStep(c: Cache, chs: Changes, done: set<Address>, was: Cache, now: Cache, a: Address)
    requires Committed(c, chs, done, was) && a in chs && a !in done && now.blockHashes == was.blockHashes
    requires now.accounts == CommitAt(was, a, chs[a]).accounts
    requires now.contracts == if Adds(chs, a) && CodeKey(chs[a]) !in was.contracts
                              then was.contracts[CodeKey(chs[a]) := chs[a].code.value.bytes] else was.contracts
    ensures Committed(c, chs, done + {a}, now)
  {
    AccountsStep(c, chs, done, was, now, a);
    if Adds(chs, a) {
      CodeStep(c.contracts, chs, done, was.contracts, a);
    } else {
      CodeSkips(c.contracts, chs, done, was.contracts, a);
    }
  }

  lemma AccountsStep(c: Cache, chs: Changes, done: set<Address>, was: Cache, now: Cache, a: Address)
    requires AccountsCommitted(c, chs, done, was) && a in chs && a !in done
    requires now.accounts == CommitAt(was, a, chs[a]).accounts
    ensures AccountsCommitted(c, chs, done + {a}, now)
  {
  }
}
