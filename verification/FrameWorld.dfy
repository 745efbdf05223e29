/** A frame that fails hands its parent exactly the world of its own checkpoint. */
module FrameWorld {
  import opened Wrappers
  import opened Journal
  import opened JournalOps
  import opened JournalRuns
  import opened JournalEffects
  import opened Frames
  import opened FrameShape

  // ---------- Accounts under construction ----------

  /** An account that this transaction created and whose code is not installed yet. */
  ghost predicate Pending(db: Db, j: Journal, a: Address) {
    ViewOf(db, j, a).status.createdLocal && ViewOf(db, j, a).info.code == KECCAK_EMPTY
  }

  /** Nothing about the creation of `a` changes. */
  ghost predicate SameBirth(s: Accounts, s': Accounts, a: Address) {
    a in s ==>
      && a in s' && s'[a].txId == s[a].txId
      && s'[a].info.code == s[a].info.code && s'[a].status.createdLocal == s[a].status.createdLocal
  }

  lemma PendingBirth(db: Db, j: Journal, j': Journal, a: Address)
    requires Pending(db, j, a) && j'.cfg == j.cfg && SameBirth(j.state, j'.state, a)
    ensures Pending(db, j', a)
  {
  }

  lemma TouchBirth(j: Journal, b: Address, a: Address)
    requires b in j.state
    ensures SameBirth(j.state, Touch(j, b).state, a)
  {
  }

  lemma BalanceBirth(s: Accounts, from: Address, to: Address, v: U256, a: Address)
    requires from in s && to in s
    ensures SameBirth(s, SubFrom(s, from, v), a) && SameBirth(s, AddTo(s, to, v), a)
  {
  }

  lemma LoadPending(db: Db, j: Journal, b: Address, a: Address)
    requires LoadOk(j, b) && Pending(db, j, a)
    ensures Pending(db, LoadAccount(db, j, b).0, a)
  {
  }

  /** The last step of a selfdestruct. */
  lemma EmptiedBirth(s: Accounts, b: Address, st: Status, a: Address)
    requires b in s && st.createdLocal == s[b].status.createdLocal
    ensures SameBirth(s, s[b := s[b].(status := st, info := s[b].info.(balance := 0))], a)
  {
  }

  lemma SelfdestructBirth(db: Db, j: Journal, b: Address, target: Address, j2: Journal, a: Address)
    requires b in j.state
    requires j2 == (var j1 := LoadAccount(db, j, target).0; if b == target then j1 else Touch(j1, target))
    ensures SameBirth(j2.state, Selfdestruct(db, j, b, target).state, a)
  {
    SelfdestructForm(db, j, b, target, j2);
    var s := if b == target then j2.state else AddTo(j2.state, target, j2.state[b].info.balance);
    BalanceBirth(j2.state, b, target, j2.state[b].info.balance, a);
    EmptiedBirth(s, b, s[b].status, a);
    EmptiedBirth(s, b, s[b].status.(destroyed := true, destroyedLocal := true), a);
  }

  lemma SelfdestructPending(db: Db, j: Journal, b: Address, target: Address, a: Address)
    requires b in j.state && LoadOk(j, target) && Pending(db, j, a)
    ensures Pending(db, Selfdestruct(db, j, b, target), a)
  {
    LoadPending(db, j, target, a);
    var j1 := LoadAccount(db, j, target).0;
    var j2 := if b == target then j1 else Touch(j1, target);
    if b != target {
      TouchBirth(j1, target, a);
    }
    PendingBirth(db, j1, j2, a);
    SelfdestructBirth(db, j, b, target, j2, a);
    PendingBirth(db, j2, Selfdestruct(db, j, b, target), a);
  }

  lemma StoragePending(db: Db, j: Journal, op: HostOp, a: Address)
    requires Pending(db, j, a) && (op.OpSload? || op.OpSstore?) && Enabled(db, j, op)
    ensures Pending(db, Perform(db, j, op), a)
  {
    assert SameBirth(j.state, Sload(db, j, op.a, op.k).0.state, a);
    PendingBirth(db, j, Perform(db, j, op), a);
  }

  lemma PerformPending(db: Db, j: Journal, op: HostOp, a: Address)
    requires Inv(db, j) && SoundOp(db, j, op) && Pending(db, j, a)
    ensures Pending(db, Perform(db, j, op), a)
  {
    if Enabled(db, j, op) {
      match op
      case OpLoad(b) =>
        LoadableOk(db, j, b);
        LoadPending(db, j, b, a);
      case OpSelfdestruct(b, target) =>
        LoadableOk(db, j, target);
        SelfdestructPending(db, j, b, target, a);
      case OpTstore(_, _, _) => PendingBirth(db, j, Perform(db, j, op), a);
      case OpLog(_) => PendingBirth(db, j, Perform(db, j, op), a);
      case _ => StoragePending(db, j, op, a);
    }
  }

  lemma TransferPending(db: Db, j: Journal, from: Address, to: Address, v: U256, a: Address)
    requires from in j.state && to in j.state && Pending(db, j, a) && TransferLoaded(j, from, to, v).1.None?
    ensures Pending(db, TransferLoaded(j, from, to, v).0, a)
  {
    TouchBirth(j, to, a);
    if from != to && v != 0 {
      TransferParts(j, from, to, v);
      var j1, j2 := Touch(j, from), Touch(Touch(j, from), to);
      TouchBirth(j, from, a);
      TouchBirth(j1, to, a);
      PendingBirth(db, j, j2, a);
      MovedPending(db, j2, from, to, v, a);
    } else if from != to {
      PendingBirth(db, j, Touch(j, to), a);
    }
  }

  lemma MovedPending(db: Db, j: Journal, from: Address, to: Address, v: U256, a: Address)
    requires from in j.state && to in j.state && Pending(db, j, a)
    ensures Pending(db, Push(j.(state := AddTo(SubFrom(j.state, from, v), to, v)), BalanceTransfer(from, to, v)), a)
  {
    BalanceBirth(j.state, from, to, v, a);
    BalanceBirth(SubFrom(j.state, from, v), from, to, v, a);
  }

  lemma BumpPending(db: Db, j: Journal, b: Address, a: Address)
    requires b in j.state && Pending(db, j, a)
    ensures Pending(db, BumpNonce(j, b).0, a)
  {
    assert Pending(db, Touch(j, b), a);
  }

  /** A creation makes its own address pending and leaves the others pending. */
  lemma CreatePending(db: Db, j: Journal, caller: Address, target: Address, v: U256, a: Address)
    requires caller in j.state && Loaded(j, target) && (Pending(db, j, a) || a == target)
    requires CreateAccountCheckpoint(j, caller, target, v).2.None?
    ensures Pending(db, CreateAccountCheckpoint(j, caller, target, v).0, a)
  {
    var j0 := TakeCheckpoint(j).0;
    assert a == target || Pending(db, j0, a);
    assert Pending(db, MarkCreated(j0, target), a);
    var j1 := Touch(MarkCreated(j0, target), target);
    assert Pending(db, j1, a);
  }

  lemma InstallPending(db: Db, j: Journal, b: Address, code: Hash, a: Address)
    requires Pending(db, j, a) && a != b
    ensures Pending(db, Install(j, b, code), a)
  {
  }

  // ---------- Since a checkpoint ----------

  /** Everything that happened since `b` can be taken back, whatever the call depth. */
  ghost predicate Since(db: Db, b: Journal, j: Journal) {
    Undoes(db, b, j.(depth := b.depth))
  }

  lemma SinceInv(db: Db, b: Journal, j: Journal)
    requires Since(db, b, j)
    ensures Inv(db, j)
  {
    InvFrame(db, j.(depth := b.depth), j);
  }

  lemma SinceTransitive(db: Db, b: Journal, j: Journal, j': Journal)
    requires Inv(db, b) && Since(db, b, j) && Since(db, j, j')
    ensures Since(db, b, j')
  {
    UndoesDepth(db, j, j'.(depth := j.depth), b.depth);
    assert j'.(depth := j.depth).(depth := b.depth) == j'.(depth := b.depth);
    UndoesTransitive(db, b, j.(depth := b.depth), j'.(depth := b.depth));
  }

  lemma SinceUndoes(db: Db, j: Journal, j': Journal)
    requires Undoes(db, j, j')
    ensures Since(db, j, j')
  {
    assert j'.(depth := j.depth) == j';
  }

  /** The call depth does not matter on either side. */
  lemma SinceDepth(db: Db, b: Journal, j: Journal, d: nat, e: nat)
    requires Since(db, b, j)
    ensures Since(db, b.(depth := d), j.(depth := e))
  {
    UndoesDepth(db, b, j.(depth := b.depth), d);
    assert j.(depth := b.depth).(depth := d) == j.(depth := e).(depth := d);
  }

  lemma SinceRestored(db: Db, b: Journal, r: Journal)
    requires Inv(db, b) && Restored(db, b, r)
    ensures Since(db, b, r)
  {
    var r' := r.(depth := b.depth);
    SameWorldEntries(db, b, r, b, r');
    InvFrame(db, r, r');
  }

  // ---------- The worlds along the stack ----------

  /** `b` is the journal in which `f` took its checkpoint and `j` the one above it. */
  ghost predicate Level(db: Db, f: Frame, b: Journal, j: Journal) {
    && Inv(db, b)
    && Since(db, b, j)
    && f.checkpoint == Checkpoint(|b.logs|, |b.entries|)
    && (f.kind.CreateFrame? ==> !ViewOf(db, b, f.kind.address).status.createdLocal)
  }

  ghost predicate LevelAt(db: Db, frames: seq<Frame>, marks: seq<Journal>, i: nat)
    requires i < |frames| < |marks|
  {
    Level(db, frames[i], marks[i], marks[i + 1])
  }

  ghost predicate Awaited(db: Db, f: Frame, j: Journal) {
    f.kind.CreateFrame? ==> Pending(db, j, f.kind.address)
  }

  ghost predicate AllAwaited(db: Db, frames: seq<Frame>, n: nat, j: Journal)
    requires n <= |frames|
  {
    forall i :: 0 <= i < n ==> Awaited(db, frames[i], j)
  }

  /** `marks[i]` is the journal at the checkpoint of frame `i`; the last one is the current journal. */
  ghost predicate World(db: Db, frames: seq<Frame>, marks: seq<Journal>) {
    && |marks| == |frames| + 1
    && Inv(db, marks[|frames|])
    && (forall i :: 0 <= i < |frames| ==> LevelAt(db, frames, marks, i))
    && (forall k :: 0 <= k <= |frames| ==> AllAwaited(db, frames, k, marks[k]))
  }

  ghost predicate SamePlaces(frames: seq<Frame>, frames': seq<Frame>) {
    && |frames'| == |frames|
    && forall i :: 0 <= i < |frames| ==>
         frames'[i].kind == frames[i].kind && frames'[i].checkpoint == frames[i].checkpoint
  }

  lemma SinceAwaited(db: Db, frames: seq<Frame>, n: nat, j: Journal, j': Journal)
    requires n <= |frames| && AllAwaited(db, frames, n, j) && SameWorld(db, j, j')
    ensures AllAwaited(db, frames, n, j')
  {
    forall i | 0 <= i < n
      ensures Awaited(db, frames[i], j')
    {
      assert Awaited(db, frames[i], j);
      if frames[i].kind.CreateFrame? {
        assert ViewOf(db, j, frames[i].kind.address) == ViewOf(db, j', frames[i].kind.address);
      }
    }
  }

  /** The running frame changes the journal. */
  lemma WorldTop(db: Db, frames: seq<Frame>, marks: seq<Journal>, frames': seq<Frame>, marks': seq<Journal>, j: Journal)
    requires World(db, frames, marks) && SamePlaces(frames, frames') && marks' == marks[|frames| := j]
    requires Since(db, marks[|frames|], j) && AllAwaited(db, frames, |frames|, j)
    ensures World(db, frames', marks')
  {
    var n := |frames|;
    SinceInv(db, marks[n], j);
    forall i | 0 <= i < n
      ensures LevelAt(db, frames', marks', i)
    {
      assert LevelAt(db, frames, marks, i);
      if i + 1 == n {
        SinceTransitive(db, marks[i], marks[n], j);
      }
    }
    forall k | 0 <= k <= n
      ensures AllAwaited(db, frames', k, marks'[k])
    {
      assert AllAwaited(db, frames, k, marks[k]);
      AwaitedSame(db, frames, frames', k, marks'[k]);
    }
  }

  lemma AwaitedSame(db: Db, frames: seq<Frame>, frames': seq<Frame>, n: nat, j: Journal)
    requires n <= |frames| && n <= |frames'| && AllAwaited(db, frames, n, j)
    requires forall i :: 0 <= i < n ==> frames'[i].kind == frames[i].kind
    ensures AllAwaited(db, frames', n, j)
  {
    forall i | 0 <= i < n
      ensures Awaited(db, frames'[i], j)
    {
      assert Awaited(db, frames[i], j);
    }
  }

  /** A frame is entered: the current journal becomes its mark. */
  lemma WorldPush(db: Db, frames: seq<Frame>, marks: seq<Journal>, f: Frame, j: Journal)
    requires World(db, frames, marks) && Level(db, f, marks[|frames|], j)
    requires AllAwaited(db, frames, |frames|, j) && Awaited(db, f, j)
    ensures World(db, frames + [f], marks + [j])
  {
    var n := |frames|;
    var frames', marks' := frames + [f], marks + [j];
    SinceInv(db, marks[n], j);
    forall i | 0 <= i < |frames'|
      ensures LevelAt(db, frames', marks', i)
    {
      if i < n {
        assert LevelAt(db, frames, marks, i);
      }
    }
    forall k | 0 <= k <= |frames'|
      ensures AllAwaited(db, frames', k, marks'[k])
    {
      if k <= n {
        assert AllAwaited(db, frames, k, marks[k]);
        AwaitedSame(db, frames, frames', k, marks'[k]);
      }
    }
  }

  /** The running frame is left with the journal `j`: whatever is known of its mark carries over. */
  lemma WorldPop(db: Db, frames: seq<Frame>, marks: seq<Journal>, j: Journal)
    requires World(db, frames, marks) && frames != []
    requires Since(db, marks[|frames| - 1], j) && AllAwaited(db, frames, |frames| - 1, j)
    ensures World(db, frames[..|frames| - 1], marks[..|frames| - 1] + [j])
  {
    var n := |frames| - 1;
    var below, marks0 := frames[..n], marks[..n + 1];
    assert World(db, below, marks0) by {
      assert LevelAt(db, frames, marks, n);
      forall i | 0 <= i < n
        ensures LevelAt(db, below, marks0, i)
      {
        assert LevelAt(db, frames, marks, i);
      }
      forall k | 0 <= k <= n
        ensures AllAwaited(db, below, k, marks0[k])
      {
        assert AllAwaited(db, frames, k, marks[k]);
        AwaitedSame(db, frames, below, k, marks0[k]);
      }
    }
    AwaitedSame(db, frames, below, n, j);
    assert marks0[n := j] == marks[..n] + [j];
    WorldTop(db, below, marks0, below, marks0[n := j], j);
  }

  // ---------- One effect ----------

  lemma PerformAwaited(db: Db, frames: seq<Frame>, j: Journal, op: HostOp)
    requires Inv(db, j) && SoundOp(db, j, op) && AllAwaited(db, frames, |frames|, j)
    ensures AllAwaited(db, frames, |frames|, Perform(db, j, op))
  {
    forall i | 0 <= i < |frames|
      ensures Awaited(db, frames[i], Perform(db, j, op))
    {
      assert Awaited(db, frames[i], j);
      if frames[i].kind.CreateFrame? {
        PerformPending(db, j, op, frames[i].kind.address);
      }
    }
  }

  lemma {:induction false} PerformAllAwaited(db: Db, frames: seq<Frame>, j: Journal, ops: seq<HostOp>)
    requires Inv(db, j) && SoundOps(db, j, ops) && AllAwaited(db, frames, |frames|, j)
    ensures AllAwaited(db, frames, |frames|, PerformAll(db, j, ops))
    decreases |ops|
  {
    if ops != [] {
      PerformUndoes(db, j, ops[0]);
      PerformAwaited(db, frames, j, ops[0]);
      PerformAllAwaited(db, frames, Perform(db, j, ops[0]), ops[1..]);
    }
  }

  /** What an effect does to the journal, as host operations; loading a callee is one. */
  function EffectOps(db: Db, rules: Rules, s: State, e: Effect): seq<HostOp>
    requires s.frames != []
  {
    match e
    case Access(op) => [op]
    case SubCall(_, _, _, _, _, _, _) => CallLoads(db, rules, s, e)
    case _ => []
  }

  lemma ExecJournal(db: Db, rules: Rules, s: State, e: Effect)
    requires s.frames != []
    ensures var s' := Exec(db, rules, s, e).0;
            && SamePlaces(s.frames, s'.frames)
            && s'.journal == PerformAll(db, s.journal, EffectOps(db, rules, s, e))
  {
  }

  ghost predicate SoundEffect(db: Db, rules: Rules, s: State, e: Effect)
    requires s.frames != []
  {
    SoundOps(db, s.journal, EffectOps(db, rules, s, e))
  }

  /** Every effect of the running frame, until it sets an action or the script ends, is sound. */
  ghost predicate SoundTop(db: Db, rules: Rules, s: State, script: seq<Effect>)
    requires s.frames != []
    decreases |script|
  {
    script != [] ==>
      && SoundEffect(db, rules, s, script[0])
      && var (s1, action) := Exec(db, rules, s, script[0]);
         action.None? ==> SoundTop(db, rules, s1, script[1..])
  }

  lemma ExecWorld(db: Db, rules: Rules, s: State, e: Effect, marks: seq<Journal>)
    requires s.frames != [] && World(db, s.frames, marks) && marks[|s.frames|] == s.journal
    requires SoundEffect(db, rules, s, e)
    ensures var s' := Exec(db, rules, s, e).0;
            World(db, s'.frames, marks[|s.frames| := s'.journal]) && |s'.frames| == |s.frames|
  {
    ExecJournal(db, rules, s, e);
    var s' := Exec(db, rules, s, e).0;
    assert AllAwaited(db, s.frames, |s.frames|, s.journal);
    var ops := EffectOps(db, rules, s, e);
    PerformAllUndoes(db, s.journal, ops);
    PerformAllAwaited(db, s.frames, s.journal, ops);
    SinceUndoes(db, s.journal, s'.journal);
    WorldTop(db, s.frames, marks, s'.frames, marks[|s.frames| := s'.journal], s'.journal);
  }

  lemma {:induction false} RunTopWorld(db: Db, rules: Rules, s: State, script: seq<Effect>, marks: seq<Journal>)
    requires s.frames != [] && World(db, s.frames, marks) && marks[|s.frames|] == s.journal
    requires SoundTop(db, rules, s, script)
    ensures var s' := RunTop(db, rules, s, script).0;
            World(db, s'.frames, marks[|s.frames| := s'.journal]) && |s'.frames| == |s.frames|
    decreases |script|
  {
    var n := |s.frames|;
    if script == [] {
      assert marks[n := s.journal] == marks;
    } else {
      ExecWorld(db, rules, s, script[0], marks);
      var (s1, a) := Exec(db, rules, s, script[0]);
      if a.None? {
        var marks1 := marks[n := s1.journal];
        RunTopWorld(db, rules, s1, script[1..], marks1);
        var s' := RunTop(db, rules, s1, script[1..]).0;
        assert marks1[n := s'.journal] == marks[n := s'.journal];
      }
    }
  }

  // ---------- Closing a checkpoint ----------

  lemma CloseSince(db: Db, b: Journal, j: Journal, cp: Checkpoint, ok: bool)
    requires Inv(db, b) && Since(db, b, j) && cp == Checkpoint(|b.logs|, |b.entries|)
    ensures Since(db, b, Close(j, cp, ok))
    ensures !ok ==> Restored(db, b, Close(j, cp, ok))
  {
    if ok {
      SinceDepth(db, b, j, b.depth, CommitCheckpoint(j).depth);
    } else {
      RevertRestores(db, b, j, cp);
      SinceRestored(db, b, Close(j, cp, ok));
    }
  }

  lemma AwaitedFrame(db: Db, frames: seq<Frame>, n: nat, j: Journal, depth: nat)
    requires n <= |frames| && AllAwaited(db, frames, n, j)
    ensures AllAwaited(db, frames, n, j.(depth := depth))
  {
    forall i | 0 <= i < n
      ensures Awaited(db, frames[i], j.(depth := depth))
    {
      assert Awaited(db, frames[i], j);
    }
  }

  lemma CloseAwaited(db: Db, frames: seq<Frame>, n: nat, b: Journal, j: Journal, cp: Checkpoint, ok: bool)
    requires n <= |frames| && AllAwaited(db, frames, n, b) && AllAwaited(db, frames, n, j)
    requires !ok ==> Restored(db, b, Close(j, cp, ok))
    ensures AllAwaited(db, frames, n, Close(j, cp, ok))
  {
    if ok {
      AwaitedFrame(db, frames, n, j, CommitCheckpoint(j).depth);
    } else {
      SinceAwaited(db, frames, n, b, Close(j, cp, ok));
    }
  }

  // ---------- Entering a frame ----------

  /** The create is refused before its checkpoint. */
  predicate Early(db: Db, j: Journal, i: FrameInput)
    requires i.CreateInput?
  {
    var j0 := LoadAccount(db, j, i.caller).0;
    j0.state[i.caller].info.balance < i.endowment || !BumpNonce(j0, i.caller).1
  }

  /** The loads that a call or a create performs take no marks away, and before Spurious Dragon no
      account is created twice in one transaction. */
  ghost predicate SoundEntry(db: Db, j: Journal, i: FrameInput) {
    match i
    case CallInput(caller, target, value, _, codeOf, precompile, _) =>
      var (j1, err) := Move(TakeCheckpoint(j).0, caller, target, value);
      codeOf.Some? && precompile.None? && err.None? ==> Loadable(j1, codeOf.value)
    case CreateInput(caller, address, _, _) =>
      && Loadable(j, caller)
      && (!Early(db, j, i) ==>
            var b := CreateBase(db, j, caller, address);
            && Loadable(BumpNonce(LoadAccount(db, j, caller).0, caller).0, address)
            && (j.cfg.spuriousDragon || Collides(b, address) || !b.state[address].status.createdLocal))
  }

  /** Besides, the value moved by a call fits its receiver. */
  ghost predicate SoundInput(db: Db, j: Journal, i: FrameInput) {
    && SoundEntry(db, j, i)
    && (i.CallInput? && i.value.Some? && Loaded(j, i.caller) && Loaded(j, i.target) ==>
          !Overflows(j, i.caller, i.target, i.value.value))
  }

  lemma MoveSince(db: Db, j: Journal, i: FrameInput)
    requires Inv(db, j) && i.CallInput? && SoundInput(db, j, i)
    ensures Since(db, j, Move(TakeCheckpoint(j).0, i.caller, i.target, i.value).0)
  {
    var j0 := TakeCheckpoint(j).0;
    var j1 := Move(j0, i.caller, i.target, i.value).0;
    InvFrame(db, j, j0);
    if i.value.None? || !Loaded(j, i.caller) || !Loaded(j, i.target) {
      UndoesReflexive(db, j0);
    } else {
      OverflowCase(j0, i.caller, i.target, i.value.value);
      TransferUndoes(db, j0, i.caller, i.target, i.value.value);
    }
    SinceUndoes(db, j0, j1);
    SinceDepth(db, j0, j1, j.depth, j1.depth);
    assert j0.(depth := j.depth) == j;
  }

  lemma MoveAwaited(db: Db, frames: seq<Frame>, j: Journal, i: FrameInput)
    requires i.CallInput? && AllAwaited(db, frames, |frames|, j)
    requires Move(TakeCheckpoint(j).0, i.caller, i.target, i.value).1.None?
    ensures AllAwaited(db, frames, |frames|, Move(TakeCheckpoint(j).0, i.caller, i.target, i.value).0)
  {
    var j0 := TakeCheckpoint(j).0;
    AwaitedFrame(db, frames, |frames|, j, j0.depth);
    forall k | 0 <= k < |frames|
      ensures Awaited(db, frames[k], Move(j0, i.caller, i.target, i.value).0)
    {
      assert Awaited(db, frames[k], j0);
      if frames[k].kind.CreateFrame? && i.value.Some? && Loaded(j, i.caller) && Loaded(j, i.target) {
        TransferPending(db, j0, i.caller, i.target, i.value.value, frames[k].kind.address);
      }
    }
  }

  /** A step of the journal that can be taken back and leaves accounts under construction alone. */
  ghost predicate SafeStep(db: Db, frames: seq<Frame>, j: Journal, j': Journal) {
    && Since(db, j, j')
    && Inv(db, j')
    && (AllAwaited(db, frames, |frames|, j) ==> AllAwaited(db, frames, |frames|, j'))
  }

  lemma SafeTransitive(db: Db, frames: seq<Frame>, j: Journal, j': Journal, j'': Journal)
    requires Inv(db, j) && SafeStep(db, frames, j, j') && SafeStep(db, frames, j', j'')
    ensures SafeStep(db, frames, j, j'')
  {
    SinceTransitive(db, j, j', j'');
  }

  lemma SafeWorld(db: Db, frames: seq<Frame>, marks: seq<Journal>, j: Journal)
    requires World(db, frames, marks) && SafeStep(db, frames, marks[|frames|], j)
    ensures World(db, frames, marks[|frames| := j])
  {
    assert AllAwaited(db, frames, |frames|, marks[|frames|]);
    WorldTop(db, frames, marks, frames, marks[|frames| := j], j);
  }

  lemma LoadSafe(db: Db, frames: seq<Frame>, j: Journal, a: Address)
    requires Inv(db, j) && Loadable(j, a)
    ensures SafeStep(db, frames, j, LoadAccount(db, j, a).0) && Loaded(LoadAccount(db, j, a).0, a)
  {
    PerformUndoes(db, j, OpLoad(a));
    SinceUndoes(db, j, LoadAccount(db, j, a).0);
    LoadableOk(db, j, a);
    LoadAccountUndoes(db, j, a);
    if AllAwaited(db, frames, |frames|, j) {
      PerformAwaited(db, frames, j, OpLoad(a));
    }
  }

  /** The move of a call that goes through. */
  lemma MoveSafe(db: Db, frames: seq<Frame>, j: Journal, i: FrameInput)
    requires Inv(db, j) && i.CallInput? && SoundInput(db, j, i)
    requires Move(TakeCheckpoint(j).0, i.caller, i.target, i.value).1.None?
    ensures SafeStep(db, frames, j, Move(TakeCheckpoint(j).0, i.caller, i.target, i.value).0)
  {
    MoveSince(db, j, i);
    SinceInv(db, j, Move(TakeCheckpoint(j).0, i.caller, i.target, i.value).0);
    if AllAwaited(db, frames, |frames|, j) {
      MoveAwaited(db, frames, j, i);
    }
  }

  /** And the load of its code, unless a precompile answers. */
  lemma CodeSafe(db: Db, frames: seq<Frame>, j: Journal, i: FrameInput)
    requires Inv(db, j) && i.CallInput? && SoundInput(db, j, i) && i.precompile.None?
    requires Move(TakeCheckpoint(j).0, i.caller, i.target, i.value).1.None?
    ensures SafeStep(db, frames, j, LoadCode(db, Move(TakeCheckpoint(j).0, i.caller, i.target, i.value).0, i.codeOf))
  {
    MoveSafe(db, frames, j, i);
    var j1 := Move(TakeCheckpoint(j).0, i.caller, i.target, i.value).0;
    if i.codeOf.Some? {
      LoadSafe(db, frames, j1, i.codeOf.value);
      SafeTransitive(db, frames, j, j1, LoadCode(db, j1, i.codeOf));
    }
  }

  lemma CallFrameWorld(db: Db, s: State, i: FrameInput, marks: seq<Journal>)
    requires i.CallInput? && World(db, s.frames, marks) && marks[|s.frames|] == s.journal
    requires SoundInput(db, s.journal, i)
    ensures var (s', r) := MakeCallFrame(db, s, i);
            && (r.None? ==> World(db, s'.frames, marks + [s'.journal]))
            && (r.Some? ==> s'.frames == s.frames && World(db, s'.frames, marks[|s.frames| := s'.journal]))
            && (r.Some? && !r.value.result.Success? ==> Restored(db, s.journal, s'.journal))
  {
    var j := s.journal;
    var n := |s.frames|;
    if NextDepth(s) > CALL_STACK_LIMIT {
      assert marks[n := j] == marks;
    } else {
      var (j1, err) := Move(TakeCheckpoint(j).0, i.caller, i.target, i.value);
      var j2 := LoadCode(db, j1, i.codeOf);
      CallFrameCases(db, s, i, j1, j2);
      var (s', r) := MakeCallFrame(db, s, i);
      MoveSince(db, j, i);
      if err.None? {
        MoveSafe(db, s.frames, j, i);
        if i.precompile.None? {
          CodeSafe(db, s.frames, j, i);
        }
      }
      CallMadeWorld(db, s, i, j1, j2, s', r, marks);
    }
  }

  lemma CallMadeWorld(db: Db, s: State, i: FrameInput, j1: Journal, j2: Journal, s': State, r: Option<FrameResult>,
                      marks: seq<Journal>)
    requires i.CallInput? && World(db, s.frames, marks) && marks[|s.frames|] == s.journal
    requires Since(db, s.journal, j1) && CallMade(s, i, j1, j2, s', r)
    requires r.None? || r.value.result.Success? ==>
               SafeStep(db, s.frames, s.journal, if i.precompile.None? then j2 else j1)
    requires r.None? ==> i.precompile.None?
    ensures r.None? ==> World(db, s'.frames, marks + [s'.journal])
    ensures r.Some? ==> s'.frames == s.frames && World(db, s'.frames, marks[|s.frames| := s'.journal])
    ensures r.Some? && !r.value.result.Success? ==> Restored(db, s.journal, s'.journal)
  {
    var j := s.journal;
    var n := |s.frames|;
    assert AllAwaited(db, s.frames, n, j);
    if r.None? {
      WorldPush(db, s.frames, marks, Top(s'), j2);
    } else {
      var ok := r.value.result.Success?;
      var cp := TakeCheckpoint(j).1;
      var last := if i.precompile.None? && ok then j2 else j1;
      CloseSince(db, j, last, cp, ok);
      if ok {
        AwaitedFrame(db, s.frames, n, last, s'.journal.depth);
      } else {
        SinceAwaited(db, s.frames, n, j, s'.journal);
      }
      WorldTop(db, s.frames, marks, s.frames, marks[n := s'.journal], s'.journal);
    }
  }

  lemma BumpSafe(db: Db, frames: seq<Frame>, j: Journal, a: Address)
    requires Inv(db, j) && Loaded(j, a)
    ensures SafeStep(db, frames, j, BumpNonce(j, a).0) && KeepsLoaded(j, BumpNonce(j, a).0)
  {
    var j' := BumpNonce(j, a).0;
    BumpGrows(j, a);
    BumpNonceUndoes(db, j, a);
    SinceUndoes(db, j, j');
    if AllAwaited(db, frames, |frames|, j) {
      forall k | 0 <= k < |frames|
        ensures Awaited(db, frames[k], j')
      {
        assert Awaited(db, frames[k], j);
        if frames[k].kind.CreateFrame? {
          BumpPending(db, j, a, frames[k].kind.address);
        }
      }
    }
  }

  lemma CallerSafe(db: Db, frames: seq<Frame>, j: Journal, caller: Address)
    requires Inv(db, j) && Loadable(j, caller)
    ensures var j0 := LoadAccount(db, j, caller).0;
            && Loaded(j0, caller)
            && SafeStep(db, frames, j, j0)
            && SafeStep(db, frames, j, BumpNonce(j0, caller).0)
            && Loaded(BumpNonce(j0, caller).0, caller)
  {
    var j0 := LoadAccount(db, j, caller).0;
    LoadSafe(db, frames, j, caller);
    BumpSafe(db, frames, j0, caller);
    SafeTransitive(db, frames, j, j0, BumpNonce(j0, caller).0);
  }

  lemma CreateBaseSafe(db: Db, frames: seq<Frame>, j: Journal, caller: Address, address: Address)
    requires Inv(db, j) && Loadable(j, caller)
    requires Loadable(BumpNonce(LoadAccount(db, j, caller).0, caller).0, address)
    ensures var b := CreateBase(db, j, caller, address);
            SafeStep(db, frames, j, b) && Loaded(b, caller) && Loaded(b, address)
  {
    CallerSafe(db, frames, j, caller);
    var j1 := BumpNonce(LoadAccount(db, j, caller).0, caller).0;
    LoadSafe(db, frames, j1, address);
    LoadGrows(db, j1, address);
    SafeTransitive(db, frames, j, j1, LoadAccount(db, j1, address).0);
  }

  lemma LoadedMarkable(db: Db, j: Journal, a: Address)
    requires Inv(db, j) && LoadOk(j, a)
    ensures Markable(db, LoadAccount(db, j, a).0, a)
  {
    LoadEffect(db, j, a, a, 0);
  }

  lemma CreatedAwaited(db: Db, frames: seq<Frame>, j: Journal, caller: Address, target: Address, v: U256)
    requires caller in j.state && Loaded(j, target) && AllAwaited(db, frames, |frames|, j)
    requires CreateAccountCheckpoint(j, caller, target, v).2.None?
    ensures AllAwaited(db, frames, |frames|, CreateAccountCheckpoint(j, caller, target, v).0)
    ensures Pending(db, CreateAccountCheckpoint(j, caller, target, v).0, target)
  {
    var j' := CreateAccountCheckpoint(j, caller, target, v).0;
    CreatePending(db, j, caller, target, v, target);
    forall k | 0 <= k < |frames|
      ensures Awaited(db, frames[k], j')
    {
      assert Awaited(db, frames[k], j);
      if frames[k].kind.CreateFrame? {
        CreatePending(db, j, caller, target, v, frames[k].kind.address);
      }
    }
  }

  /** The journal whose world a failing create hands back. */
  function CreateMark(db: Db, s: State, i: FrameInput): Journal
    requires i.CreateInput?
  {
    var j0 := LoadAccount(db, s.journal, i.caller).0;
    if NextDepth(s) > CALL_STACK_LIMIT then s.journal
    else if j0.state[i.caller].info.balance < i.endowment then j0
    else CreateBase(db, s.journal, i.caller, i.address)
  }

  /** From the journal `b` in which the checkpoint is taken. */
  lemma CreateAtBase(db: Db, s: State, i: FrameInput, b: Journal, marks: seq<Journal>)
    requires i.CreateInput? && World(db, s.frames, marks) && marks[|s.frames|] == b
    requires Loaded(b, i.caller) && Loaded(b, i.address) && (Collides(b, i.address) || Creatable(db, b, i.address))
    ensures var (j, cp, err) := CreateAccountCheckpoint(b, i.caller, i.address, i.endowment);
            var s' := PushFrame(s, j, CreateFrame(i.address), i.address, cp, i.gasLimit);
            && (err.None? ==> World(db, s'.frames, marks + [j]))
            && (err.Some? ==> Restored(db, b, j) && World(db, s.frames, marks[|s.frames| := j]))
  {
    var n := |s.frames|;
    var (j, cp, err) := CreateAccountCheckpoint(b, i.caller, i.address, i.endowment);
    CreateAccountRestores(db, b, i.caller, i.address, i.endowment);
    assert AllAwaited(db, s.frames, n, b);
    if err.None? {
      NotYetCreated(db, b, i.address);
      CreatedAwaited(db, s.frames, b, i.caller, i.address, i.endowment);
      WorldPush(db, s.frames, marks, Top(PushFrame(s, j, CreateFrame(i.address), i.address, cp, i.gasLimit)), j);
    } else {
      SinceRestored(db, b, j);
      SinceAwaited(db, s.frames, n, b, j);
      WorldTop(db, s.frames, marks, s.frames, marks[n := j], j);
    }
  }

  lemma NotYetCreated(db: Db, b: Journal, a: Address)
    requires Inv(db, b) && a in b.state && !Collides(b, a) && Creatable(db, b, a)
    ensures !ViewOf(db, b, a).status.createdLocal
  {
    assert FlagsOk(b.cfg, a, ViewOf(db, b, a));
  }

  /** The two kinds of outcome, with `b` for the journal in which the checkpoint is taken. */
  lemma CreateCases(db: Db, s: State, i: FrameInput, b: Journal)
    requires i.CreateInput? && NextDepth(s) <= CALL_STACK_LIMIT && b == CreateBase(db, s.journal, i.caller, i.address)
    requires s.journal.cfg.leftover <= s.journal.state.Keys
    ensures i.caller in b.state && i.address in b.state
    ensures var (s', r) := MakeCreateFrame(db, s, i);
            var (j, cp, err) := CreateAccountCheckpoint(b, i.caller, i.address, i.endowment);
            if Early(db, s.journal, i) then
              && s' == s.(journal := s'.journal) && r.Some?
              && (!r.value.result.Success? ==> s'.journal == CreateMark(db, s, i))
            else
              && CreateMark(db, s, i) == b
              && (err.Some? ==> s' == s.(journal := j) && r.Some? && !r.value.result.Success?)
              && (err.None? ==> s' == PushFrame(s, j, CreateFrame(i.address), i.address, cp, i.gasLimit) && r.None?)
  {
    CreateBaseGrows(db, s.journal, i.caller, i.address);
  }

  lemma EarlySafe(db: Db, s: State, i: FrameInput)
    requires i.CreateInput? && NextDepth(s) <= CALL_STACK_LIMIT && Inv(db, s.journal) && Early(db, s.journal, i)
    requires Loadable(s.journal, i.caller)
    ensures SafeStep(db, s.frames, s.journal, MakeCreateFrame(db, s, i).0.journal)
  {
    CallerSafe(db, s.frames, s.journal, i.caller);
  }

  lemma BaseReady(db: Db, frames: seq<Frame>, j: Journal, i: FrameInput)
    requires i.CreateInput? && Inv(db, j) && SoundEntry(db, j, i) && !Early(db, j, i)
    ensures var b := CreateBase(db, j, i.caller, i.address);
            && Loaded(b, i.caller) && Loaded(b, i.address)
            && SafeStep(db, frames, j, b)
            && (Collides(b, i.address) || Creatable(db, b, i.address))
  {
    var j1 := BumpNonce(LoadAccount(db, j, i.caller).0, i.caller).0;
    CallerSafe(db, frames, j, i.caller);
    CreateBaseSafe(db, frames, j, i.caller, i.address);
    LoadableOk(db, j1, i.address);
    LoadedMarkable(db, j1, i.address);
  }

  lemma CreateReachedWorld(db: Db, s: State, i: FrameInput, b: Journal, marks: seq<Journal>)
    requires i.CreateInput? && World(db, s.frames, marks)
    requires Loaded(b, i.caller) && Loaded(b, i.address) && (Collides(b, i.address) || Creatable(db, b, i.address))
    requires SafeStep(db, s.frames, marks[|s.frames|], b)
    ensures var n := |s.frames|;
            var (j, cp, err) := CreateAccountCheckpoint(b, i.caller, i.address, i.endowment);
            var s' := PushFrame(s, j, CreateFrame(i.address), i.address, cp, i.gasLimit);
            && (err.None? ==> World(db, s'.frames, marks[n := b] + [j]))
            && (err.Some? ==> Restored(db, b, j) && World(db, s.frames, marks[n := j]))
  {
    var n := |s.frames|;
    SafeWorld(db, s.frames, marks, b);
    CreateAtBase(db, s, i, b, marks[n := b]);
    var j := CreateAccountCheckpoint(b, i.caller, i.address, i.endowment).0;
    assert marks[n := b][n := j] == marks[n := j];
  }

  lemma CreateFrameWorld(db: Db, s: State, i: FrameInput, marks: seq<Journal>)
    requires i.CreateInput? && World(db, s.frames, marks) && marks[|s.frames|] == s.journal
    requires SoundInput(db, s.journal, i)
    ensures var (s', r) := MakeCreateFrame(db, s, i);
            && (r.None? ==> World(db, s'.frames, marks[|s.frames| := CreateMark(db, s, i)] + [s'.journal]))
            && (r.Some? ==> s'.frames == s.frames && World(db, s'.frames, marks[|s.frames| := s'.journal]))
            && (r.Some? && !r.value.result.Success? ==> Restored(db, CreateMark(db, s, i), s'.journal))
  {
    var n := |s.frames|;
    if NextDepth(s) > CALL_STACK_LIMIT {
      assert marks[n := s.journal] == marks;
    } else {
      var b := CreateBase(db, s.journal, i.caller, i.address);
      CreateCases(db, s, i, b);
      if Early(db, s.journal, i) {
        EarlySafe(db, s, i);
        SafeWorld(db, s.frames, marks, MakeCreateFrame(db, s, i).0.journal);
      } else {
        BaseReady(db, s.frames, s.journal, i);
        CreateReachedWorld(db, s, i, b, marks);
      }
    }
  }

  function MarkOf(db: Db, s: State, i: FrameInput): Journal {
    if i.CallInput? then s.journal else CreateMark(db, s, i)
  }

  lemma FrameInitWorld(db: Db, s: State, i: FrameInput, marks: seq<Journal>)
    requires World(db, s.frames, marks) && marks[|s.frames|] == s.journal && SoundInput(db, s.journal, i)
    ensures var (s', r) := FrameInit(db, s, i);
            && (r.None? ==> World(db, s'.frames, marks[|s.frames| := MarkOf(db, s, i)] + [s'.journal]))
            && (r.Some? ==> s'.frames == s.frames && World(db, s'.frames, marks[|s.frames| := s'.journal]))
            && (r.Some? && !r.value.result.Success? ==> Restored(db, MarkOf(db, s, i), s'.journal))
  {
    if i.CallInput? {
      CallFrameWorld(db, s, i, marks);
      assert marks[|s.frames| := s.journal] == marks;
    } else {
      CreateFrameWorld(db, s, i, marks);
    }
  }

  // ---------- Leaving a frame ----------

  /** The code of an account under construction is installed once, so the step can be taken back. */
  lemma InstallSince(db: Db, j: Journal, a: Address, code: Hash)
    requires Inv(db, j) && Pending(db, j, a)
    ensures Since(db, j, Install(j, a, code))
  {
    SetCodeUndoes(db, j, a, code);
    SinceUndoes(db, j, Install(j, a, code));
  }

  lemma InstallAwaited(db: Db, frames: seq<Frame>, n: nat, b: Journal, j: Journal, a: Address, code: Hash)
    requires n <= |frames| && AllAwaited(db, frames, n, b) && AllAwaited(db, frames, n, j)
    requires !ViewOf(db, b, a).status.createdLocal
    ensures AllAwaited(db, frames, n, Install(j, a, code))
  {
    forall i | 0 <= i < n
      ensures Awaited(db, frames[i], Install(j, a, code))
    {
      assert Awaited(db, frames[i], b) && Awaited(db, frames[i], j);
      if frames[i].kind.CreateFrame? {
        InstallPending(db, j, a, code, frames[i].kind.address);
      }
    }
  }

  /** What the journal is when the top frame ends with `j`, seen from its mark `b`. */
  ghost predicate Left(db: Db, b: Journal, j: Journal, r: FrameResult) {
    Since(db, b, j) && (!r.result.Success? ==> Restored(db, b, j))
  }

  lemma ReturnCreateWorld(db: Db, rules: Rules, frames: seq<Frame>, b: Journal, j: Journal, result: InstructionResult,
                          output: Output)
    requires frames != [] && frames[|frames| - 1].kind.CreateFrame? && Level(db, frames[|frames| - 1], b, j)
    requires AllAwaited(db, frames, |frames| - 1, b) && AllAwaited(db, frames, |frames|, j)
    ensures var (j', r) := ReturnCreate(rules, j, frames[|frames| - 1], result, output);
            Left(db, b, j', r) && AllAwaited(db, frames, |frames| - 1, j')
  {
    var n := |frames| - 1;
    var f := frames[n];
    var (j', r) := ReturnCreate(rules, j, f, result, output);
    assert Awaited(db, f, j) && AllAwaited(db, frames, n, j);
    CloseSince(db, b, j, f.checkpoint, r.result.Success?);
    CloseAwaited(db, frames, n, b, j, f.checkpoint, r.result.Success?);
    if r.result.Success? {
      var j1 := CommitCheckpoint(j);
      var code := DepositedCode(rules, f.gas, output).hash;
      SinceInv(db, b, j1);
      PendingBirth(db, j, j1, f.kind.address);
      InstallSince(db, j1, f.kind.address, code);
      SinceTransitive(db, b, j1, Install(j1, f.kind.address, code));
      InstallAwaited(db, frames, n, b, j1, f.kind.address, code);
    }
  }

  /** The frame below is handed the world of the mark if the frame failed, and otherwise one from
      which the mark can still be reached. */
  lemma FinishWorld(db: Db, rules: Rules, s: State, result: InstructionResult, output: Output, marks: seq<Journal>)
    requires s.frames != [] && World(db, s.frames, marks) && marks[|s.frames|] == s.journal
    ensures var n := |s.frames| - 1;
            var (s', r) := FinishFrame(rules, s, result, output);
            && Left(db, marks[n], s'.journal, r)
            && World(db, s.frames[..n], marks[..n] + [s'.journal])
  {
    var n := |s.frames| - 1;
    var f := Top(s);
    var b := marks[n];
    assert LevelAt(db, s.frames, marks, n);
    assert AllAwaited(db, s.frames, n + 1, marks[n + 1]) && AllAwaited(db, s.frames, n, marks[n]);
    var (s', r) := FinishFrame(rules, s, result, output);
    if f.kind.CallFrame? {
      CloseSince(db, b, s.journal, f.checkpoint, result.Success?);
      CloseAwaited(db, s.frames, n, b, s.journal, f.checkpoint, result.Success?);
    } else {
      ReturnCreateWorld(db, rules, s.frames, b, s.journal, result, output);
    }
    WorldPop(db, s.frames, marks, s'.journal);
  }
}
