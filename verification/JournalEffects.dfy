/** What each journal operation does, as seen by later reads: the value written is the value read, wei
    moves without being made or lost, and nothing else changes. */
module JournalEffects {
  import opened Wrappers
  import opened Journal
  import opened JournalOps
  import opened JournalRuns

  // ---------- Loading ----------

  /** A load warms the account and changes nothing else. */
  lemma LoadEffect(db: Db, j: Journal, b: Address, a: Address, k: Key)
    requires Inv(db, j) && LoadOk(j, b)
    ensures var j' := LoadAccount(db, j, b).0;
            && ViewOf(db, j', a)
               == (if a == b then ViewOf(db, j, a).(coldLoad := StaysCold(db, j, b)) else ViewOf(db, j, a))
            && SlotOf(db, j', a, k) == SlotOf(db, j, a, k)
            && j'.transient == j.transient && j'.cfg == j.cfg && Loaded(j', b)
            && (Loaded(j, a) ==> Loaded(j', a))
  {
    LoadedAccount(db, j, b);
    LoadResultEffect(db, j, b, LoadResult(db, j, b), a, k);
  }

  lemma LoadResultEffect(db: Db, j: Journal, b: Address, x: Account, a: Address, k: Key)
    requires !Dormant(j.cfg, b, x)
    requires if b in j.state then
               var y := Seen(j.cfg, b, j.state[b]);
               x == Account(y.info, y.status.(cold := false), j.cfg.txId, y.storage)
             else x == FreshAccount(db, j, b)
    ensures var j' := Put(j, b, x);
            && ViewOf(db, j', a)
               == (if a == b then ViewOf(db, j, a).(coldLoad := StaysCold(db, j, b)) else ViewOf(db, j, a))
            && SlotOf(db, j', a, k) == SlotOf(db, j, a, k)
  {
  }

  /** An existing account that a later transaction takes from the database is cold for the next load too. */
  predicate StaysCold(db: Db, j: Journal, b: Address) {
    b !in j.cfg.warm && b !in j.state && b in db.accounts && j.cfg.txId != 0
  }

  // ---------- Storage ----------

  function Value(db: Db, j: Journal, a: Address, k: Key): U256 {
    SlotOf(db, j, a, k).value
  }

  /** A load answers with the visible value and the visible coldness, and warms only that slot. */
  lemma SloadEffect(db: Db, j: Journal, a: Address, k: Key, b: Address, l: Key)
    requires Loaded(j, a) && SlotOk(db, j, a, k)
    ensures var (j', value, cold) := Sload(db, j, a, k);
            && value == Value(db, j, a, k) && cold == SlotOf(db, j, a, k).cold
            && SlotOf(db, j', b, l) == (if (b, l) == (a, k) then SlotView(value, false) else SlotOf(db, j, b, l))
            && ViewOf(db, j', b) == ViewOf(db, j, b) && j'.transient == j.transient
            && Loaded(j', a)
  {
    var slot := SloadForm(db, j, a, k);
    SlotPutEffect(db, j, a, k, slot, b, l);
  }

  lemma SlotPutEffect(db: Db, j: Journal, a: Address, k: Key, s: Slot, b: Address, l: Key)
    requires Loaded(j, a) && s.txId == j.cfg.txId
    ensures var j' := Put(j, a, j.state[a].(storage := j.state[a].storage[k := s]));
            && SlotOf(db, j', b, l) == (if (b, l) == (a, k) then SlotView(s.present, s.cold) else SlotOf(db, j, b, l))
            && ViewOf(db, j', b) == ViewOf(db, j, b)
  {
  }

  /** A store is seen by every later load of that slot and by no other. */
  lemma SstoreEffect(db: Db, j: Journal, a: Address, k: Key, v: U256, b: Address, l: Key)
    requires Loaded(j, a) && SlotOk(db, j, a, k)
    ensures var j' := Sstore(db, j, a, k, v);
            && SlotOf(db, j', b, l) == (if (b, l) == (a, k) then SlotView(v, false) else SlotOf(db, j, b, l))
            && ViewOf(db, j', b) == ViewOf(db, j, b) && j'.transient == j.transient
  {
    SloadEffect(db, j, a, k, b, l);
    SloadEffect(db, j, a, k, a, k);
    var (j1, present, _) := Sload(db, j, a, k);
    if present != v {
      StoredEffect(db, j1, a, k, v, b, l);
    }
  }

  lemma StoredEffect(db: Db, j: Journal, a: Address, k: Key, v: U256, b: Address, l: Key)
    requires Loaded(j, a) && k in j.state[a].storage
    ensures var x := j.state[a];
            var j' := Put(j, a, x.(storage := x.storage[k := x.storage[k].(present := v)]));
            && SlotOf(db, j', b, l)
               == (if (b, l) == (a, k) then SlotOf(db, j, a, k).(value := v) else SlotOf(db, j, b, l))
            && ViewOf(db, j', b) == ViewOf(db, j, b)
  {
  }

  lemma TstoreEffect(j: Journal, a: Address, k: Key, v: U256, b: Address, l: Key)
    ensures var j' := Tstore(j, a, k, v);
            && TransientOf(j', b, l) == (if (b, l) == (a, k) then v else TransientOf(j, b, l))
            && j'.state == j.state
  {
  }

  // ---------- Moving value ----------

  function Balance(j: Journal, a: Address): int {
    if a in j.state then j.state[a].info.balance else 0
  }

  lemma TouchKeepsInfo(j: Journal, b: Address, a: Address)
    requires b in j.state
    ensures var s := Touch(j, b).state;
            && s.Keys == j.state.Keys
            && (a in j.state ==> s[a].info == j.state[a].info && s[a].storage == j.state[a].storage
                                 && s[a].txId == j.state[a].txId)
            && (a in j.state && a != b ==> s[a] == j.state[a])
  {
  }

  /** A transfer fails exactly for lack of funds or for overflow of the receiver. */
  lemma TransferFails(j: Journal, from: Address, to: Address, v: U256)
    requires from in j.state && to in j.state
    ensures TransferLoaded(j, from, to, v).1 == Some(OutOfFunds) <==> v > Balance(j, from)
    ensures TransferLoaded(j, from, to, v).1 == Some(OverflowPayment)
            <==> from != to && v <= Balance(j, from) && Balance(j, to) + v >= U256_MODULUS
  {
    OverflowCase(j, from, to, v);
    TouchKeepsInfo(j, from, from);
  }

  /** A successful transfer moves exactly `v`, and nothing else changes but touched marks. */
  lemma TransferEffect(j: Journal, from: Address, to: Address, v: U256, a: Address)
    requires from in j.state && to in j.state && TransferLoaded(j, from, to, v).1.None?
    ensures var j' := TransferLoaded(j, from, to, v).0;
            && Balance(j', a) == Balance(j, a) - (if a == from then v else 0) + (if a == to then v else 0)
            && j'.state.Keys == j.state.Keys && j'.cfg == j.cfg
            && (a in j.state ==> j'.state[a].info == j.state[a].info.(balance := j'.state[a].info.balance)
                                 && j'.state[a].storage == j.state[a].storage && j'.state[a].txId == j.state[a].txId)
            && (a in j.state && a != from && a != to ==> j'.state[a] == j.state[a])
  {
    TransferFails(j, from, to, v);
    TouchKeepsInfo(j, to, a);
    if from != to && v != 0 {
      TransferParts(j, from, to, v);
      var j1 := Touch(j, from);
      TouchKeepsInfo(j, from, a);
      TouchKeepsInfo(j, from, to);
      TouchKeepsInfo(j, from, from);
      TouchKeepsInfo(j1, to, a);
      TouchKeepsInfo(j1, to, to);
      TouchKeepsInfo(j1, to, from);
      MovedEffect(Touch(j1, to), from, to, v, a);
    }
  }

  lemma MovedEffect(j: Journal, from: Address, to: Address, v: U256, a: Address)
    requires from in j.state && to in j.state && from != to
    requires v <= j.state[from].info.balance && j.state[to].info.balance + v < U256_MODULUS
    ensures var s := AddTo(SubFrom(j.state, from, v), to, v);
            && s.Keys == j.state.Keys
            && (a in s ==> s[a] == j.state[a].(info := j.state[a].info.(balance := s[a].info.balance))
                           && s[a].info.balance
                              == j.state[a].info.balance - (if a == from then v else 0) + (if a == to then v else 0))
  {
  }

  // ---------- Creation ----------

  lemma MarkedEffect(j: Journal, target: Address, a: Address)
    requires target in j.state
    ensures var j1 := Touch(MarkCreated(j, target), target);
            && j1.state.Keys == j.state.Keys
            && Balance(j1, a) == Balance(j, a)
            && j1.state[target].status.createdLocal
            && j1.state[target].info.nonce == if j.cfg.spuriousDragon then 1 else j.state[target].info.nonce
  {
  }

  /** A creation fails exactly for a collision or an overflow; it moves the endowment and marks the
      account, with nonce one from Spurious Dragon on. */
  lemma CreateEffect(j: Journal, caller: Address, target: Address, v: U256, a: Address)
    requires caller in j.state && target in j.state && v <= Balance(j, caller)
    ensures var (j', _, err) := CreateAccountCheckpoint(j, caller, target, v);
            && (err == Some(CreateCollision) <==> Collides(j, target))
            && (err == Some(OverflowPayment) <==> !Collides(j, target) && Balance(j, target) + v >= U256_MODULUS)
            && (err.None? ==>
                  && j'.state.Keys == j.state.Keys
                  && Balance(j', a) == Balance(j, a) - (if a == caller then v else 0) + (if a == target then v else 0)
                  && target in j'.state && j'.state[target].status.createdLocal
                  && (j.cfg.spuriousDragon ==> j'.state[target].info.nonce == 1))
  {
    var j0 := TakeCheckpoint(j).0;
    MarkedEffect(j0, target, target);
    MarkedEffect(j0, target, caller);
    MarkedEffect(j0, target, a);
  }

  // ---------- Selfdestruct ----------

  predicate Destroys(db: Db, j: Journal, a: Address) {
    ViewOf(db, j, a).status.createdLocal || !j.cfg.cancun
  }

  /** The balance a selfdestruct leaves: the target gets all of it; to itself it is kept, or lost if the
      account goes. */
  function AfterSelfdestruct(db: Db, j: Journal, a: Address, target: Address, b: Address): Info {
    var i := ViewOf(db, j, b).info;
    if b == a && (a != target || Destroys(db, j, a)) then i.(balance := 0)
    else if b == target && a != target then i.(balance := WrapAdd(i.balance, ViewOf(db, j, a).info.balance))
    else i
  }

  lemma PutInfo(db: Db, j: Journal, a: Address, x: Account, b: Address)
    requires !Dormant(j.cfg, a, x)
    ensures ViewOf(db, Put(j, a, x), b).info == if b == a then x.info else ViewOf(db, j, b).info
  {
  }

  lemma AddInfo(db: Db, j: Journal, t: Address, v: U256, b: Address)
    requires Loaded(j, t)
    ensures ViewOf(db, j.(state := AddTo(j.state, t, v)), b).info
            == (var i := ViewOf(db, j, b).info; if b == t then i.(balance := WrapAdd(i.balance, v)) else i)
  {
  }

  /** After the target has been loaded and touched. */
  lemma EmptiedEffect(db: Db, j: Journal, a: Address, target: Address, st: Status, b: Address)
    requires Loaded(j, a) && Loaded(j, target)
    ensures var had := j.state[a].info.balance;
            var j3 := if a == target then j else j.(state := AddTo(j.state, target, had));
            var x := j3.state[a];
            ViewOf(db, Put(j3, a, x.(status := st, info := x.info.(balance := 0))), b).info
            == (var i := ViewOf(db, j, b).info;
                if b == a then i.(balance := 0) else if b == target then i.(balance := WrapAdd(i.balance, had)) else i)
  {
    var had := j.state[a].info.balance;
    var j3 := if a == target then j else j.(state := AddTo(j.state, target, had));
    AddInfo(db, j, target, had, b);
    AddInfo(db, j, target, had, a);
    PutInfo(db, j3, a, j3.state[a].(status := st, info := j3.state[a].info.(balance := 0)), b);
  }

  /** The accounts of a selfdestruct from the journal `j2` in which the target is loaded and touched. */
  lemma SelfdestructForm(db: Db, j: Journal, a: Address, target: Address, j2: Journal)
    requires a in j.state
    requires j2 == (var j1 := LoadAccount(db, j, target).0; if a == target then j1 else Touch(j1, target))
    ensures a in j2.state && target in j2.state
    ensures var j3 := if a == target then j2 else j2.(state := AddTo(j2.state, target, j2.state[a].info.balance));
            var x := j3.state[a];
            var r := Selfdestruct(db, j, a, target).state;
            if x.status.createdLocal || !j.cfg.cancun then
              r == Put(j3, a, x.(status := x.status.(destroyed := true, destroyedLocal := true),
                                 info := x.info.(balance := 0))).state
            else if a != target then r == Put(j3, a, x.(status := x.status, info := x.info.(balance := 0))).state
            else r == j3.state
  {
  }

  lemma SelfdestructEffect(db: Db, j: Journal, a: Address, target: Address, b: Address)
    requires Inv(db, j) && Loaded(j, a) && LoadOk(j, target)
    ensures ViewOf(db, Selfdestruct(db, j, a, target), b).info == AfterSelfdestruct(db, j, a, target, b)
  {
    var j1 := LoadAccount(db, j, target).0;
    var j2 := if a == target then j1 else Touch(j1, target);
    ReadyViews(db, j, a, target, a);
    ReadyViews(db, j, a, target, b);
    SelfdestructForm(db, j, a, target, j2);
    var st := j2.state[a].status;
    EmptiedEffect(db, j2, a, target, st, b);
    EmptiedEffect(db, j2, a, target, st.(destroyed := true, destroyedLocal := true), b);
  }

  lemma ReadyViews(db: Db, j: Journal, a: Address, target: Address, b: Address)
    requires Inv(db, j) && Loaded(j, a) && LoadOk(j, target)
    ensures var j1 := LoadAccount(db, j, target).0;
            var j2 := if a == target then j1 else Touch(j1, target);
            && Loaded(j1, target) && Loaded(j2, a) && Loaded(j2, target)
            && ViewOf(db, j2, b).info == ViewOf(db, j, b).info
            && ViewOf(db, j2, b).status.createdLocal == ViewOf(db, j, b).status.createdLocal
  {
    LoadEffect(db, j, target, b, 0);
  }
}
