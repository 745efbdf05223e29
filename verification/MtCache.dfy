/** Concurrent readers over one shared cache (crates/flatdb/src/mtcache.rs).  A read looks into the
    in-memory diffs, then into the shared cache, then asks its own database handle without holding a
    lock, and then publishes what it found unless another reader was faster. */
module MtCache {
  import opened Wrappers
  import opened Journal
  import opened Bal

  // ---------- Steps ----------

  datatype CacheKey = AccountKey(a: Address) | CodeKey(h: Hash) | SlotKey(a: Address, k: Key)

  datatype CacheValue = AccountValue(info: Option<Info>) | CodeValue(code: nat) | SlotValue(value: U256)

  datatype Phase = Idle | Missed(key: CacheKey) | Fetched(key: CacheKey, value: CacheValue)

  type Shared = map<CacheKey, CacheValue>

  /** `done` lists the reads that have returned, in any interleaving, with their answers. */
  datatype State = State(shared: Shared, phases: map<nat, Phase>, done: seq<(CacheKey, CacheValue)>)

  /** One atomic step of one reader; `Fetch` brings whatever its database handle answers. */
  datatype Event = Look(r: nat, key: CacheKey) | Fetch(r: nat, value: CacheValue) | Publish(r: nat)

  function PhaseOf(s: State, r: nat): Phase {
    if r in s.phases then s.phases[r] else Idle
  }

  function Return(s: State, r: nat, key: CacheKey, value: CacheValue): State {
    s.(phases := s.phases[r := Idle], done := s.done + [(key, value)])
  }

  /** A step that the reader is not ready for does nothing. */
  function Next(s: State, e: Event): State {
    match e
    case Look(r, key) =>
      if !PhaseOf(s, r).Idle? then s
      else if key in s.shared then Return(s, r, key, s.shared[key])
      else s.(phases := s.phases[r := Missed(key)])
    case Fetch(r, value) =>
      if !PhaseOf(s, r).Missed? then s
      else s.(phases := s.phases[r := Fetched(PhaseOf(s, r).key, value)])
    case Publish(r) =>
      match PhaseOf(s, r)
      case Fetched(key, value) =>
        if key in s.shared then Return(s, r, key, s.shared[key])
        else Return(s.(shared := s.shared[key := value]), r, key, value)
      case _ => s
  }

  function Run(s: State, events: seq<Event>): State
    decreases |events|
  {
    if events == [] then s else Run(Next(s, events[0]), events[1..])
  }

  const START: State := State(map[], map[], [])

  // ---------- Every interleaving ----------

  /** Every answer given so far is what the shared cache holds. */
  ghost predicate Agreed(s: State) {
    forall i :: 0 <= i < |s.done| ==> s.done[i].0 in s.shared && s.shared[s.done[i].0] == s.done[i].1
  }

  ghost predicate Kept(s: State, s': State) {
    && (forall key :: key in s.shared ==> key in s'.shared && s'.shared[key] == s.shared[key])
    && s.done <= s'.done
  }

  /** No step changes an entry of the shared cache, and all answers agree with it. */
  lemma {:induction false} EntriesNeverChange(s: State, events: seq<Event>)
    requires Agreed(s)
    ensures Kept(s, Run(s, events)) && Agreed(Run(s, events))
    decreases |events|
  {
    if events != [] {
      var s1 := Next(s, events[0]);
      assert Kept(s, s1) && Agreed(s1);
      EntriesNeverChange(s1, events[1..]);
    }
  }

  /** All completed reads of a key return the same value, whatever the handles answered. */
  lemma ReadersAgree(events: seq<Event>, i: nat, k: nat)
    requires i < |Run(START, events).done| && k < |Run(START, events).done|
    requires Run(START, events).done[i].0 == Run(START, events).done[k].0
    ensures Run(START, events).done[i].1 == Run(START, events).done[k].1
  {
    EntriesNeverChange(START, events);
  }

  // ---------- One snapshot ----------

  /** Every database handle answers from `snap`. */
  ghost predicate FromSnapshot(s: State, events: seq<Event>, snap: CacheKey -> CacheValue)
    decreases |events|
  {
    events == [] ||
    (&& (events[0].Fetch? && PhaseOf(s, events[0].r).Missed? ==> events[0].value == snap(PhaseOf(s, events[0].r).key))
     && FromSnapshot(Next(s, events[0]), events[1..], snap))
  }

  ghost predicate HoldsSnapshot(s: State, snap: CacheKey -> CacheValue) {
    && (forall key :: key in s.shared ==> s.shared[key] == snap(key))
    && (forall r :: r in s.phases && s.phases[r].Fetched? ==> s.phases[r].value == snap(s.phases[r].key))
    && (forall i :: 0 <= i < |s.done| ==> s.done[i].1 == snap(s.done[i].0))
  }

  /** Then every completed read returns the snapshot's value. */
  lemma {:induction false} ReadersSeeSnapshot(s: State, events: seq<Event>, snap: CacheKey -> CacheValue)
    requires HoldsSnapshot(s, snap) && FromSnapshot(s, events, snap)
    ensures HoldsSnapshot(Run(s, events), snap)
    decreases |events|
  {
    if events != [] {
      ReadersSeeSnapshot(Next(s, events[0]), events[1..], snap);
    }
  }

  // ---------- With the diffs of committed blocks on top ----------

  function Snapshot(db: Flat, codes: Hash -> nat): CacheKey -> CacheValue {
    (key: CacheKey) =>
      match key
      case AccountKey(a) => AccountValue(BasicRef(db, a))
      case CodeKey(h) => CodeValue(codes(h))
      case SlotKey(a, k) => SlotValue(StorageRef(db, a, k))
  }

  function InMemoryBasic(diffs: seq<Diff>, a: Address): Option<Option<Info>>
    decreases |diffs|
  {
    if diffs == [] then None
    else if a in diffs[0] then Some(diffs[0][a].info)
    else InMemoryBasic(diffs[1..], a)
  }

  function InMemoryStorage(diffs: seq<Diff>, a: Address, k: Key): Option<U256>
    decreases |diffs|
  {
    if diffs == [] then None
    else if a in diffs[0] && k in diffs[0][a].storage then Some(diffs[0][a].storage[k])
    else InMemoryStorage(diffs[1..], a, k)
  }

  lemma {:induction false} MemoryOrBelow(diffs: seq<Diff>, db: Flat, a: Address, k: Key)
    ensures LayeredBasic(diffs, db, a)
            == if InMemoryBasic(diffs, a).Some? then InMemoryBasic(diffs, a).value else BasicRef(db, a)
    ensures LayeredStorage(diffs, db, a, k)
            == if InMemoryStorage(diffs, a, k).Some? then InMemoryStorage(diffs, a, k).value else StorageRef(db, a, k)
    decreases |diffs|
  {
    if diffs != [] {
      MemoryOrBelow(diffs[1..], db, a, k);
    }
  }

  /** Readers over the database before a run of blocks, with the blocks' diffs in memory: in every
      interleaving each read returns what the database after the blocks holds. */
  lemma ReadersSeeLatest(dbs: seq<Flat>, diffs: seq<Diff>, codes: Hash -> nat, events: seq<Event>, i: nat)
    requires Bal.CommitRun(dbs, diffs) && FromSnapshot(START, events, Snapshot(dbs[0], codes))
    requires i < |Run(START, events).done|
    ensures var (key, value) := Run(START, events).done[i];
            var memory := NewestFirst(diffs);
            && (key.AccountKey? ==>
                  AccountValue(BasicRef(dbs[|diffs|], key.a))
                  == if InMemoryBasic(memory, key.a).Some? then AccountValue(InMemoryBasic(memory, key.a).value)
                     else value)
            && (key.SlotKey? ==>
                  SlotValue(StorageRef(dbs[|diffs|], key.a, key.k))
                  == if InMemoryStorage(memory, key.a, key.k).Some? then
                       SlotValue(InMemoryStorage(memory, key.a, key.k).value)
                     else value)
  {
    var snap := Snapshot(dbs[0], codes);
    ReadersSeeSnapshot(START, events, snap);
    var (key, value) := Run(START, events).done[i];
    assert value == snap(key);
    match key {
      case AccountKey(a) =>
        LayersAgree(dbs, diffs, a, 0);
        MemoryOrBelow(NewestFirst(diffs), dbs[0], a, 0);
      case SlotKey(a, k) =>
        LayersAgree(dbs, diffs, a, k);
        MemoryOrBelow(NewestFirst(diffs), dbs[0], a, k);
      case CodeKey(_) =>
    }
  }
}
