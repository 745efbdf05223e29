/** Committing a block access list to the flat database and reading through the diffs it returns
    (crates/librocksdb/src/store.rs, crates/state/src/bal/writes.rs, crates/flatdb/src/mtcache.rs). */
module Bal {
  import opened Wrappers
  import opened Journal

  // ---------- Writes ----------

  type Writes<T> = seq<(nat, T)>

  ghost predicate Sorted<T>(w: Writes<T>) {
    forall i, k :: 0 <= i < k < |w| ==> w[i].0 <= w[k].0
  }

  /** The value of the last write before `index`. */
  function LastBelow<T>(w: Writes<T>, index: nat): Option<T>
    decreases |w|
  {
    if w == [] then None
    else if w[|w| - 1].0 < index then Some(w[|w| - 1].1)
    else LastBelow(w[..|w| - 1], index)
  }

  lemma {:induction false} LastBelowCut<T>(w: Writes<T>, index: nat, n: nat)
    requires n <= |w| && forall i :: n <= i < |w| ==> w[i].0 >= index
    ensures LastBelow(w, index) == LastBelow(w[..n], index)
    decreases |w|
  {
    if n < |w| {
      assert w[..|w| - 1][..n] == w[..n];
      LastBelowCut(w[..|w| - 1], index, n);
    } else {
      assert w[..n] == w;
    }
  }

  lemma LastBelowAt<T>(w: Writes<T>, index: nat, n: nat)
    requires n <= |w| && (forall i :: n <= i < |w| ==> w[i].0 >= index) && (n > 0 ==> w[n - 1].0 < index)
    ensures LastBelow(w, index) == if n == 0 then None else Some(w[n - 1].1)
  {
    LastBelowCut(w, index, n);
  }

  /** What stands right before the first write at `index` or above. */
  function BeforeFirst<T>(w: Writes<T>, index: nat): Option<T>
    decreases |w|
  {
    if w == [] || w[0].0 >= index then None
    else if BeforeFirst(w[1..], index).None? then Some(w[0].1)
    else BeforeFirst(w[1..], index)
  }

  lemma {:induction false} BeforeFirstAt<T>(w: Writes<T>, index: nat, n: nat)
    requires n <= |w| && (forall i :: 0 <= i < n ==> w[i].0 < index) && (n < |w| ==> w[n].0 >= index)
    ensures BeforeFirst(w, index) == if n == 0 then None else Some(w[n - 1].1)
    decreases n
  {
    if n > 0 {
      BeforeFirstAt(w[1..], index, n - 1);
    }
  }

  ghost predicate AllBelow<T>(w: Writes<T>, index: nat) {
    forall i :: 0 <= i < |w| ==> w[i].0 < index
  }

  ghost predicate NoRepeat<T>(w: Writes<T>, index: nat) {
    forall i, k :: 0 <= i < k < |w| ==> w[i].0 != index || w[k].0 != index
  }

  method GetLinear<T>(w: Writes<T>, index: nat) returns (r: Option<T>)
    ensures r == BeforeFirst(w, index)
    ensures Sorted(w) ==> r == LastBelow(w, index)
  {
    r := None;
    for n := 0 to |w|
      invariant AllBelow(w[..n], index)
      invariant r == if n == 0 then None else Some(w[n - 1].1)
    {
      assert forall i :: 0 <= i < n ==> w[i] == w[..n][i];
      if w[n].0 >= index {
        BeforeFirstAt(w, index, n);
        if Sorted(w) {
          LastBelowAt(w, index, n);
        }
        return;
      }
      r := Some(w[n].1);
    }
    assert w[..|w|] == w;
    BeforeFirstAt(w, index, |w|);
    LastBelowAt(w, index, |w|);
  }

  /** Where the halving stops on a list in order: at a write with this index, or where one would go. */
  ghost predicate Cut<T>(w: Writes<T>, index: nat, found: bool, at: nat)
    requires at <= |w|
  {
    if found then at < |w| && w[at].0 == index
    else (forall i :: 0 <= i < at ==> w[i].0 < index) && (forall i :: at <= i < |w| ==> w[i].0 > index)
  }

  method BinarySearch<T>(w: Writes<T>, index: nat) returns (found: bool, at: nat)
    ensures at <= |w| && (found ==> at < |w| && w[at].0 == index)
    ensures Sorted(w) || AllBelow(w, index) ==> Cut(w, index, found, at)
  {
    var low, high := 0, |w|;
    while low < high
      invariant 0 <= low <= high <= |w|
      invariant Sorted(w) || AllBelow(w, index) ==> forall i :: 0 <= i < low ==> w[i].0 < index
      invariant Sorted(w) || AllBelow(w, index) ==> forall i :: high <= i < |w| ==> w[i].0 > index
    {
      var mid := (low + high) / 2;
      if w[mid].0 < index {
        low := mid + 1;
      } else if w[mid].0 > index {
        high := mid;
      } else {
        return true, mid;
      }
    }
    found, at := false, low;
  }

  lemma CutIsLast<T>(w: Writes<T>, index: nat, found: bool, at: nat)
    requires at <= |w| && Cut(w, index, found, at) && Sorted(w) && NoRepeat(w, index)
    ensures LastBelow(w, index) == if at == 0 then None else Some(w[at - 1].1)
  {
    LastBelowAt(w, index, at);
  }

  /** Short lists are searched from the front, long ones by halving.  On a list in order this is the
      last write before `index`, provided the index does not occur twice; on any list it is the last
      write of all if every index is below. */
  method Get<T>(w: Writes<T>, index: nat) returns (r: Option<T>)
    ensures r.Some? ==> exists i :: 0 <= i < |w| && w[i].1 == r.value
    ensures |w| < 5 ==> r == BeforeFirst(w, index)
    ensures Sorted(w) && NoRepeat(w, index) ==> r == LastBelow(w, index)
    ensures AllBelow(w, index) ==> r == if w == [] then None else Some(w[|w| - 1].1)
  {
    if |w| < 5 {
      r := GetLinear(w, index);
      BeforeFirstWritten(w, index);
      if AllBelow(w, index) {
        BeforeFirstAt(w, index, |w|);
      }
      return;
    }
    var found, at := BinarySearch(w, index);
    r := if at == 0 then None else Some(w[at - 1].1);
    if Sorted(w) && NoRepeat(w, index) {
      CutIsLast(w, index, found, at);
    }
  }

  lemma {:induction false} BeforeFirstWritten<T>(w: Writes<T>, index: nat)
    ensures BeforeFirst(w, index).Some? ==> exists i :: 0 <= i < |w| && w[i].1 == BeforeFirst(w, index).value
    decreases |w|
  {
    if w != [] && w[0].0 < index {
      BeforeFirstWritten(w[1..], index);
      if BeforeFirst(w[1..], index).Some? {
        var i :| 0 <= i < |w[1..]| && w[1..][i].1 == BeforeFirst(w[1..], index).value;
        assert w[i + 1].1 == BeforeFirst(w, index).value;
      }
    }
  }

  // ---------- The access list and the database ----------

  type Code = nat

  /** New code comes with its hash. */
  datatype Bytecode = Bytecode(hash: Hash, bytes: Code)

  datatype AccountBal = AccountBal(
    nonce: Writes<U64>, balance: Writes<U256>, code: Writes<Bytecode>, storage: map<Key, Writes<U256>>)

  type AccessList = map<Address, AccountBal>

  datatype Flat = Flat(accounts: map<Address, Info>, storage: map<(Address, Key), U256>, codes: map<Hash, Code>)

  /** What a block leaves of an account: no info means it was deleted for being empty. */
  datatype PlainAccount = PlainAccount(info: Option<Info>, storage: map<Key, U256>)

  type Diff = map<Address, PlainAccount>

  function BasicRef(db: Flat, a: Address): Option<Info> {
    if a in db.accounts then Some(db.accounts[a]) else None
  }

  function StorageRef(db: Flat, a: Address, k: Key): U256 {
    if (a, k) in db.storage then db.storage[(a, k)] else 0
  }

  function LastOr<T>(w: Writes<T>, prev: T): T {
    if w == [] then prev else w[|w| - 1].1
  }

  /** The last write of each field. */
  function FinalInfo(prev: Info, b: AccountBal): Info {
    Info(LastOr(b.balance, prev.balance), LastOr(b.nonce, prev.nonce), LastOr(b.code, Bytecode(prev.code, 0)).hash)
  }

  function PrevInfo(db: Flat, a: Address): Info {
    if a in db.accounts then db.accounts[a] else EMPTY_INFO
  }

  /** Slots that were only read have no writes. */
  function FinalSlots(b: AccountBal): map<Key, U256> {
    map k | k in b.storage && b.storage[k] != [] :: b.storage[k][|b.storage[k]| - 1].1
  }

  function DiffAt(db: Flat, a: Address, b: AccountBal): PlainAccount {
    var info := FinalInfo(PrevInfo(db, a), b);
    PlainAccount(if IsEmptyInfo(info) then None else Some(info), FinalSlots(b))
  }

  function DiffOf(db: Flat, bal: AccessList): Diff {
    map a | a in bal :: DiffAt(db, a, bal[a])
  }

  /** The last code that the list has for an account. */
  predicate Brings(bal: AccessList, a: Address, h: Hash, bytes: Code) {
    a in bal && bal[a].code != [] && bal[a].code[|bal[a].code| - 1].1 == Bytecode(h, bytes)
  }

  /** The code table after a block: what the list brings last for some account, and what it had before
      under every other hash. */
  ghost predicate CodeAdded(m: map<Hash, Code>, bal: AccessList, m': map<Hash, Code>) {
    && (forall h :: h in m ==> h in m')
    && (forall a, h, bytes :: Brings(bal, a, h, bytes) ==> h in m')
    && (forall h :: h in m' ==> (h in m && m'[h] == m[h]) || exists a :: Brings(bal, a, h, m'[h]))
  }

  /** Where hashes stand for their code, all of it can be read back, and what was there stays. */
  lemma CodeReadBack(m: map<Hash, Code>, bal: AccessList, m': map<Hash, Code>, codes: Hash -> Code)
    requires CodeAdded(m, bal, m')
    requires forall h :: h in m ==> m[h] == codes(h)
    requires forall a, h, bytes :: Brings(bal, a, h, bytes) ==> bytes == codes(h)
    ensures forall h :: h in m' ==> m'[h] == codes(h)
    ensures forall a, h, bytes :: Brings(bal, a, h, bytes) ==> h in m' && m'[h] == bytes
  {
    forall h | h in m'
      ensures m'[h] == codes(h)
    {
      if !(h in m && m'[h] == m[h]) {
        var a :| Brings(bal, a, h, m'[h]);
      }
    }
  }

  /** The database after the diff of a block. */
  ghost predicate AppliedTo(db: Flat, d: Diff, db': Flat) {
    && (forall a :: BasicRef(db', a) == if a in d then d[a].info else BasicRef(db, a))
    && (forall a, k :: StorageRef(db', a, k)
                       == if a in d && k in d[a].storage then d[a].storage[k] else StorageRef(db, a, k))
  }

  // ---------- Reading through the diffs ----------

  /** Newest first; the first block that has the account decides. */
  function LayeredBasic(diffs: seq<Diff>, db: Flat, a: Address): Option<Info>
    decreases |diffs|
  {
    if diffs == [] then BasicRef(db, a)
    else if a in diffs[0] then diffs[0][a].info
    else LayeredBasic(diffs[1..], db, a)
  }

  /** Newest first; the first block that has the slot decides. */
  function LayeredStorage(diffs: seq<Diff>, db: Flat, a: Address, k: Key): U256
    decreases |diffs|
  {
    if diffs == [] then StorageRef(db, a, k)
    else if a in diffs[0] && k in diffs[0][a].storage then diffs[0][a].storage[k]
    else LayeredStorage(diffs[1..], db, a, k)
  }

  /** `dbs[i + 1]` is `dbs[i]` after the commit that returned `diffs[i]`. */
  ghost predicate CommitRun(dbs: seq<Flat>, diffs: seq<Diff>) {
    && |dbs| == |diffs| + 1
    && forall i :: 0 <= i < |diffs| ==> AppliedTo(dbs[i], diffs[i], dbs[i + 1])
  }

  function NewestFirst(diffs: seq<Diff>): seq<Diff>
    decreases |diffs|
  {
    if diffs == [] then [] else [diffs[|diffs| - 1]] + NewestFirst(diffs[..|diffs| - 1])
  }

  lemma LayerStep(d: Diff, rest: seq<Diff>, first: Flat, db: Flat, db': Flat, a: Address, k: Key)
    requires AppliedTo(db, d, db')
    requires LayeredBasic(rest, first, a) == BasicRef(db, a)
    requires LayeredStorage(rest, first, a, k) == StorageRef(db, a, k)
    ensures LayeredBasic([d] + rest, first, a) == BasicRef(db', a)
    ensures LayeredStorage([d] + rest, first, a, k) == StorageRef(db', a, k)
  {
    assert ([d] + rest)[1..] == rest;
  }

  /** Reading through all diffs over the database before is reading the database after. */
  lemma {:induction false} LayersAgree(dbs: seq<Flat>, diffs: seq<Diff>, a: Address, k: Key)
    requires CommitRun(dbs, diffs)
    ensures LayeredBasic(NewestFirst(diffs), dbs[0], a) == BasicRef(dbs[|diffs|], a)
    ensures LayeredStorage(NewestFirst(diffs), dbs[0], a, k) == StorageRef(dbs[|diffs|], a, k)
    decreases |diffs|
  {
    if diffs != [] {
      var n := |diffs| - 1;
      LayersAgree(dbs[..n + 1], diffs[..n], a, k);
      LayerStep(diffs[n], NewestFirst(diffs[..n]), dbs[0], dbs[n], dbs[n + 1], a, k);
    }
  }

  // ---------- As the source runs it ----------

  function NextIndex<T>(w: Writes<T>): nat {
    if w == [] then 0 else w[|w| - 1].0 + 1
  }

  /** One above the greatest of the last indices of the three fields. */
  function Horizon(b: AccountBal): nat {
    var n := if NextIndex(b.nonce) > NextIndex(b.balance) then NextIndex(b.nonce) else NextIndex(b.balance);
    if NextIndex(b.code) > n then NextIndex(b.code) else n
  }

  /** No write lies above all of the last ones, as none does in lists that are in order. */
  ghost predicate Tidy(b: AccountBal) {
    AllBelow(b.nonce, Horizon(b)) && AllBelow(b.balance, Horizon(b)) && AllBelow(b.code, Horizon(b))
  }

  ghost predicate SortedBal(b: AccountBal) {
    Sorted(b.nonce) && Sorted(b.balance) && Sorted(b.code)
  }

  lemma SortedIsTidy(b: AccountBal)
    requires SortedBal(b)
    ensures Tidy(b)
  {
  }

  ghost predicate Written<T>(w: Writes<T>, prev: T, value: T) {
    value == prev || exists i :: 0 <= i < |w| && w[i].1 == value
  }

  /** Each field is the one before or one that the list writes. */
  ghost predicate FromWrites(prev: Info, b: AccountBal, info: Info) {
    && Written(b.balance, prev.balance, info.balance)
    && Written(b.nonce, prev.nonce, info.nonce)
    && (info.code == prev.code || exists i :: 0 <= i < |b.code| && b.code[i].1.hash == info.code)
  }

  method Populate<T>(w: Writes<T>, index: nat, prev: T) returns (value: T)
    ensures Written(w, prev, value)
    ensures AllBelow(w, index) ==> value == LastOr(w, prev)
  {
    var r := Get(w, index);
    value := if r.Some? then r.value else prev;
  }

  /** An index above every write finds the last one of each field. */
  method PopulateInfo(prev: Info, b: AccountBal) returns (info: Info)
    ensures FromWrites(prev, b, info)
    ensures Tidy(b) ==> info == FinalInfo(prev, b)
  {
    info := prev;
    var index := NextIndex(b.balance);
    if NextIndex(b.nonce) > index {
      index := NextIndex(b.nonce);
    }
    if NextIndex(b.code) > index {
      index := NextIndex(b.code);
    }
    if index > 0 {
      var nonce := Populate(b.nonce, index, prev.nonce);
      var balance := Populate(b.balance, index, prev.balance);
      var code := Populate(b.code, index, Bytecode(prev.code, 0));
      info := Info(balance, nonce, code.hash);
    }
  }

  method LatestSlots(b: AccountBal) returns (slots: map<Key, U256>)
    ensures slots == FinalSlots(b)
  {
    slots := map[];
    var rest := b.storage.Keys;
    while rest != {}
      invariant rest <= b.storage.Keys
      invariant forall k :: k in slots <==> k in b.storage && k !in rest && b.storage[k] != []
      invariant forall k :: k in slots ==> slots[k] == b.storage[k][|b.storage[k]| - 1].1
      decreases |rest|
    {
      var k :| k in rest;
      rest := rest - {k};
      var w := b.storage[k];
      if |w| > 0 {
        slots := slots[k := w[|w| - 1].1];
      }
    }
  }

  /** The diff of the addresses so far, and the batches that will write it. */
  datatype Batch = Batch(
    latest: Diff, toDelete: set<Address>, toSet: map<Address, Info>, slots: map<(Address, Key), U256>,
    codes: map<Hash, Code>)

  ghost predicate AccountsCollected(b: Batch) {
    && (forall a :: a in b.toDelete <==> a in b.latest && b.latest[a].info.None?)
    && (forall a :: a in b.toSet <==> a in b.latest && b.latest[a].info.Some?)
    && (forall a :: a in b.toSet ==> b.toSet[a] == b.latest[a].info.value)
  }

  ghost predicate SlotsCollected(b: Batch) {
    && (forall a, k :: (a, k) in b.slots <==> a in b.latest && k in b.latest[a].storage)
    && (forall a, k :: (a, k) in b.slots ==> b.slots[(a, k)] == b.latest[a].storage[k])
  }

  /** The batches say what the diff says. */
  ghost predicate Collected(b: Batch) {
    AccountsCollected(b) && SlotsCollected(b)
  }

  function OwnSlots(a: Address, own: map<Key, U256>): map<(Address, Key), U256> {
    map k | k in own :: (a, k) := own[k]
  }

  function Added(b: Batch, a: Address, p: PlainAccount): Batch {
    Batch(b.latest[a := p],
          if p.info.None? then b.toDelete + {a} else b.toDelete,
          if p.info.Some? then b.toSet[a := p.info.value] else b.toSet,
          b.slots + OwnSlots(a, p.storage),
          b.codes)
  }

  lemma CollectedStep(b: Batch, a: Address, p: PlainAccount)
    requires Collected(b) && a !in b.latest
    ensures Collected(Added(b, a, p))
  {
    AccountsStep(b, a, p);
    SlotsStep(b, a, p);
  }

  lemma AccountsStep(b: Batch, a: Address, p: PlainAccount)
    requires AccountsCollected(b) && a !in b.latest
    ensures AccountsCollected(Added(b, a, p))
  {
  }

  lemma SlotsStep(b: Batch, a: Address, p: PlainAccount)
    requires SlotsCollected(b) && a !in b.latest
    ensures SlotsCollected(Added(b, a, p))
  {
  }

  function Flushed(db: Flat, b: Batch): Flat {
    Flat((db.accounts - b.toDelete) + b.toSet, db.storage + b.slots, db.codes + b.codes)
  }

  lemma BatchesApply(db: Flat, b: Batch)
    requires Collected(b)
    ensures AppliedTo(db, b.latest, Flushed(db, b))
  {
  }

  /** What is returned for one address: the last write of each slot, and fields that come from the list
      or the database, the last ones if the list is tidy. */
  ghost predicate DiffOk(db: Flat, a: Address, b: AccountBal, p: PlainAccount) {
    && p.storage == FinalSlots(b)
    && (p.info.Some? ==> !IsEmptyInfo(p.info.value) && FromWrites(PrevInfo(db, a), b, p.info.value))
    && (Tidy(b) ==> p == DiffAt(db, a, b))
  }

  ghost predicate DiffsOfOnly(db: Flat, bal: AccessList, latest: Diff, done: set<Address>) {
    latest.Keys == done && done <= bal.Keys && forall a :: a in done ==> DiffOk(db, a, bal[a], latest[a])
  }

  lemma DiffStep(db: Flat, bal: AccessList, latest: Diff, done: set<Address>, a: Address, p: PlainAccount)
    requires DiffsOfOnly(db, bal, latest, done) && a in bal && DiffOk(db, a, bal[a], p)
    ensures DiffsOfOnly(db, bal, latest[a := p], done + {a})
  {
  }

  lemma DiffsComplete(db: Flat, bal: AccessList, latest: Diff)
    requires DiffsOfOnly(db, bal, latest, bal.Keys) && forall a :: a in bal ==> Tidy(bal[a])
    ensures latest == DiffOf(db, bal)
  {
    forall a | a in bal
      ensures latest[a] == DiffAt(db, a, bal[a])
    {
      assert DiffOk(db, a, bal[a], latest[a]);
    }
  }

  /** The codes collected from the addresses of `done`. */
  ghost predicate CodesOfOnly(bal: AccessList, m: map<Hash, Code>, done: set<Address>) {
    && (forall a, h, bytes :: a in done && Brings(bal, a, h, bytes) ==> h in m)
    && (forall h :: h in m ==> exists a :: Brings(bal, a, h, m[h]))
  }

  lemma CodesStep(bal: AccessList, m: map<Hash, Code>, done: set<Address>, a: Address)
    requires CodesOfOnly(bal, m, done) && a in bal
    ensures bal[a].code == [] ==> CodesOfOnly(bal, m, done + {a})
    ensures bal[a].code != [] ==>
              var last := bal[a].code[|bal[a].code| - 1].1;
              CodesOfOnly(bal, m[last.hash := last.bytes], done + {a})
  {
    if bal[a].code != [] {
      var last := bal[a].code[|bal[a].code| - 1].1;
      var m' := m[last.hash := last.bytes];
      assert Brings(bal, a, last.hash, last.bytes);
      forall h | h in m'
        ensures exists b :: Brings(bal, b, h, m'[h])
      {
        if h != last.hash {
          var b :| Brings(bal, b, h, m[h]);
          assert Brings(bal, b, h, m'[h]);
        }
      }
    }
  }

  lemma CodesComplete(m: map<Hash, Code>, bal: AccessList, added: map<Hash, Code>)
    requires CodesOfOnly(bal, added, bal.Keys)
    ensures CodeAdded(m, bal, m + added)
  {
    forall h | h in m + added
      ensures (h in m && (m + added)[h] == m[h]) || exists a :: Brings(bal, a, h, (m + added)[h])
    {
      if h in added {
        var a :| Brings(bal, a, h, added[h]);
        assert Brings(bal, a, h, (m + added)[h]);
      }
    }
  }

  ghost predicate Progress(db: Flat, bal: AccessList, b: Batch, done: set<Address>) {
    DiffsOfOnly(db, bal, b.latest, done) && Collected(b) && CodesOfOnly(bal, b.codes, done)
  }

  lemma CodesApart(b: Batch, codes: map<Hash, Code>)
    requires Collected(b)
    ensures Collected(b.(codes := codes))
  {
  }

  lemma ProgressStep(db: Flat, bal: AccessList, b: Batch, done: set<Address>, a: Address, p: PlainAccount,
                     codes: map<Hash, Code>)
    requires a in bal && a !in done && Progress(db, bal, b, done) && DiffOk(db, a, bal[a], p)
    requires var n := |bal[a].code|;
             codes == if n == 0 then b.codes else b.codes[bal[a].code[n - 1].1.hash := bal[a].code[n - 1].1.bytes]
    ensures Progress(db, bal, Added(b, a, p).(codes := codes), done + {a})
  {
    DiffStep(db, bal, b.latest, done, a, p);
    CollectedStep(b, a, p);
    CodesApart(Added(b, a, p), codes);
    CodesStep(bal, b.codes, done, a);
  }

  method LatestAccount(db: Flat, a: Address, b: AccountBal) returns (p: PlainAccount)
    ensures DiffOk(db, a, b, p)
  {
    var prev := if a in db.accounts then db.accounts[a] else EMPTY_INFO;
    var info := PopulateInfo(prev, b);
    var own := LatestSlots(b);
    var kept := None;
    if !IsEmptyInfo(info) {
      kept := Some(info);
    }
    p := PlainAccount(kept, own);
  }

  method LatestCode(b: AccountBal, codes: map<Hash, Code>) returns (codes': map<Hash, Code>)
    ensures var n := |b.code|;
            codes' == if n == 0 then codes else codes[b.code[n - 1].1.hash := b.code[n - 1].1.bytes]
  {
    codes' := codes;
    if |b.code| > 0 {
      var last := b.code[|b.code| - 1].1;
      codes' := codes'[last.hash := last.bytes];
    }
  }

  method CollectOne(db: Flat, bal: AccessList, a: Address, b: Batch, ghost done: set<Address>) returns (b': Batch)
    requires a in bal && a !in done && Progress(db, bal, b, done)
    ensures Progress(db, bal, b', done + {a})
  {
    var codes := LatestCode(bal[a], b.codes);
    var p := LatestAccount(db, a, bal[a]);
    var toDelete, toSet := b.toDelete, b.toSet;
    if p.info.None? {
      toDelete := toDelete + {a};
    } else {
      toSet := toSet[a := p.info.value];
    }
    b' := Batch(b.latest[a := p], toDelete, toSet, b.slots + OwnSlots(a, p.storage), codes);
    ProgressStep(db, bal, b, done, a, p, codes);
  }

  lemma NothingYet(db: Flat, bal: AccessList)
    ensures Progress(db, bal, Batch(map[], {}, map[], map[], map[]), bal.Keys - bal.Keys)
  {
  }

  method CollectAll(db: Flat, bal: AccessList) returns (b: Batch)
    ensures Progress(db, bal, b, bal.Keys)
  {
    b := Batch(map[], {}, map[], map[], map[]);
    var all := bal.Keys;
    var rest := all;
    NothingYet(db, bal);
    while rest != {}
      invariant rest <= all && Progress(db, bal, b, all - rest)
      decreases |rest|
    {
      var a :| a in rest;
      OneLess(all, rest, a);
      b := CollectOne(db, bal, a, b, all - rest);
      rest := rest - {a};
    }
    assert all - rest == all;
  }

  class Store {
    var accounts: map<Address, Info>
    var storage: map<(Address, Key), U256>
    var codes: map<Hash, Code>

    constructor ()
      ensures Contents() == Flat(map[], map[], map[])
    {
      accounts, storage, codes := map[], map[], map[];
    }

    function Contents(): Flat
      reads this
    {
      Flat(accounts, storage, codes)
    }

    /** Collects deletions, accounts, codes and slots of all addresses, then writes them. */
    method CommitBalChanges(bal: AccessList) returns (latest: Diff)
      modifies this
      ensures AppliedTo(old(Contents()), latest, Contents())
      ensures CodeAdded(old(codes), bal, codes)
      ensures DiffsOfOnly(old(Contents()), bal, latest, bal.Keys)
      ensures (forall a :: a in bal ==> Tidy(bal[a])) ==> latest == DiffOf(old(Contents()), bal)
      ensures (forall a :: a in bal ==> SortedBal(bal[a])) ==> latest == DiffOf(old(Contents()), bal)
    {
      if forall a :: a in bal ==> SortedBal(bal[a]) {
        forall a | a in bal {
          SortedIsTidy(bal[a]);
        }
      }
      var b := CollectAll(Contents(), bal);
      if forall a :: a in bal ==> Tidy(bal[a]) {
        DiffsComplete(Contents(), bal, b.latest);
      }
      BatchesApply(Contents(), b);
      accounts := accounts - b.toDelete;
      accounts := accounts + b.toSet;
      CodesComplete(codes, bal, b.codes);
      codes := codes + b.codes;
      storage := storage + b.slots;
      latest := b.latest;
    }
  }
}
