/** What every reachable state of the execution loop looks like: open checkpoints, memory contexts and
    gas along the stack of frames. */
module FrameShape {
  import opened Wrappers
  import opened Journal
  import opened JournalOps
  import opened JournalRuns
  import opened Frames

  // ---------- The journal only grows between checkpoints ----------

  /** What is loaded stays loaded. */
  ghost predicate KeepsLoaded(j: Journal, j': Journal) {
    && j'.cfg == j.cfg
    && j.state.Keys <= j'.state.Keys
    && forall a :: Loaded(j, a) ==> Loaded(j', a)
  }

  ghost predicate Grown(j: Journal, j': Journal) {
    && j'.depth == j.depth
    && |j.entries| <= |j'.entries|
    && |j.logs| <= |j'.logs|
    && KeepsLoaded(j, j')
  }

  lemma PerformGrows(db: Db, j: Journal, op: HostOp)
    ensures Grown(j, Perform(db, j, op))
  {
    if Enabled(db, j, op) && op.OpSelfdestruct? {
      SelfdestructGrows(db, j, op.a, op.target);
    } else if Enabled(db, j, op) && op.OpSstore? {
      assert Grown(j, Sload(db, j, op.a, op.k).0);
    }
  }

  lemma {:induction false} PerformAllGrows(db: Db, j: Journal, ops: seq<HostOp>)
    ensures Grown(j, PerformAll(db, j, ops))
    ensures j.cfg.leftover <= j.state.Keys && ops != [] && ops[0].OpLoad? ==> Loaded(PerformAll(db, j, ops), ops[0].a)
    decreases |ops|
  {
    if ops != [] {
      var j1 := Perform(db, j, ops[0]);
      PerformGrows(db, j, ops[0]);
      PerformAllGrows(db, j1, ops[1..]);
      if j.cfg.leftover <= j.state.Keys && ops[0].OpLoad? {
        LoadGrows(db, j, ops[0].a);
      }
    }
  }

  lemma SelfdestructGrows(db: Db, j: Journal, a: Address, target: Address)
    requires a in j.state
    ensures Grown(j, Selfdestruct(db, j, a, target))
  {
    var j1 := LoadAccount(db, j, target).0;
    assert Grown(j, j1);
    var j2 := if a == target then j1 else Touch(j1, target);
    assert Grown(j1, j2);
    var j3 := if a == target then j2 else j2.(state := AddTo(j2.state, target, j2.state[a].info.balance));
    assert Grown(j2, j3);
  }

  lemma TransferGrows(j: Journal, from: Address, to: Address, v: U256)
    requires from in j.state && to in j.state
    ensures Grown(j, TransferLoaded(j, from, to, v).0)
  {
    if from != to && v != 0 {
      var j1 := Touch(j, from);
      assert Grown(j, j1);
      if j1.state[from].info.balance >= v {
        var j2 := Touch(j1.(state := SubFrom(j1.state, from, v)), to);
        assert Grown(j1, j2);
      }
    }
  }

  lemma MoveGrows(j: Journal, from: Address, to: Address, v: Option<U256>)
    ensures Grown(j, Move(j, from, to, v).0)
  {
    if v.Some? && Loaded(j, from) && Loaded(j, to) {
      TransferGrows(j, from, to, v.value);
    }
  }

  lemma BumpGrows(j: Journal, a: Address)
    requires a in j.state
    ensures Grown(j, BumpNonce(j, a).0)
    ensures BumpNonce(j, a).1 ==> |j.entries| < |BumpNonce(j, a).0.entries|
  {
    assert Grown(j, Touch(j, a));
  }

  lemma InstallGrows(j: Journal, a: Address, code: Hash)
    ensures Grown(j, Install(j, a, code))
  {
    if a in j.state {
      assert Grown(j, Touch(j, a));
    }
  }

  lemma {:induction false} RevertKeepsLoaded(j: Journal, n: nat)
    ensures KeepsLoaded(j, RevertEntries(j, n))
    decreases |j.entries|
  {
    if |j.entries| > n {
      var last := |j.entries| - 1;
      var r := RevertEntry(j.entries[last], j.(entries := j.entries[..last]));
      assert KeepsLoaded(j, r);
      RevertKeepsLoaded(r, n);
    }
  }

  /** A checkpoint that lies in the past of `j`. */
  ghost predicate Past(cp: Checkpoint, j: Journal) {
    cp.logIndex <= |j.logs| && cp.journalIndex <= |j.entries|
  }

  lemma CloseShape(j: Journal, cp: Checkpoint, ok: bool)
    requires Past(cp, j) && j.depth > 0
    ensures var r := Close(j, cp, ok);
            && r.depth == j.depth - 1 && KeepsLoaded(j, r) && Past(cp, r)
  {
    if !ok {
      var j2 := CommitCheckpoint(j).(logs := if cp.logIndex < |j.logs| then j.logs[..cp.logIndex] else j.logs);
      RevertKeepsLoaded(j2, cp.journalIndex);
    }
  }

  /** One more checkpoint is open than in `j`. */
  ghost predicate Within(j: Journal, j': Journal) {
    j'.depth == j.depth + 1 && Grown(j.(depth := j'.depth), j')
  }

  lemma CloseWithin(j: Journal, j': Journal, ok: bool)
    requires Within(j, j')
    ensures Grown(j, Close(j', Checkpoint(|j.logs|, |j.entries|), ok))
    ensures Past(Checkpoint(|j.logs|, |j.entries|), j')
  {
    CloseShape(j', Checkpoint(|j.logs|, |j.entries|), ok);
  }

  /** A failed creation closes its own checkpoint, a successful one leaves it open. */
  lemma CreateShape(j: Journal, caller: Address, target: Address, v: U256)
    requires caller in j.state && target in j.state
    ensures var (j', cp, err) := CreateAccountCheckpoint(j, caller, target, v);
            && cp == Checkpoint(|j.logs|, |j.entries|)
            && (err.None? ==> Within(j, j'))
            && (err.Some? ==> Grown(j, j'))
  {
    var (j0, cp) := TakeCheckpoint(j);
    if Collides(j0, target) {
      CloseShape(j0, cp, false);
    } else {
      var j1 := Touch(MarkCreated(j0, target), target);
      assert Grown(j0, MarkCreated(j0, target));
      assert Grown(j0, j1);
      if j1.state[target].info.balance + v >= U256_MODULUS {
        CloseShape(j1, cp, false);
      }
    }
  }

  // ---------- The shape of a state ----------

  function SumRemaining(frames: seq<Frame>): nat
    decreases |frames|
  {
    if frames == [] then 0 else SumRemaining(frames[..|frames| - 1]) + frames[|frames| - 1].gas.remaining
  }

  ghost predicate FrameOk(f: Frame, i: nat, j: Journal) {
    && !f.isFinished
    && f.depth == i <= CALL_STACK_LIMIT
    && f.gas.remaining <= f.gas.limit <= U64_MAX
    && Loaded(j, f.target)
  }

  /** A frame and the one it waits for: the child context begins where the child's memory does, the
      checkpoints are in order, and the whole limit of the child has been set aside. */
  ghost predicate Linked(f: Frame, g: Frame) {
    && f.child == Some(g.start)
    && f.start <= g.start
    && f.checkpoint.logIndex <= g.checkpoint.logIndex
    && f.checkpoint.journalIndex <= g.checkpoint.journalIndex
    && f.gas.remaining + g.gas.limit <= f.gas.limit
  }

  ghost predicate LinkedAt(frames: seq<Frame>, i: nat)
    requires 0 < i < |frames|
  {
    Linked(frames[i - 1], frames[i])
  }

  /** The running frame; `inflight` is gas on its way to or from a child. */
  ghost predicate TopOk(f: Frame, j: Journal, buffer: nat, inflight: nat, open: bool) {
    && Past(f.checkpoint, j)
    && f.start <= buffer
    && f.child.Some? == open
    && (open ==> f.start <= f.child.value <= buffer)
    && f.gas.remaining + inflight <= f.gas.limit
  }

  /** `depth` checkpoints were open and `total` gas was at hand before the first frame. */
  ghost predicate Shape(s: State, depth: nat, total: nat, inflight: nat, open: bool) {
    && s.journal.depth == depth + |s.frames|
    && s.journal.cfg.leftover <= s.journal.state.Keys
    && s.burned >= 0
    && SumRemaining(s.frames) + inflight + s.burned == total
    && (forall i :: 0 <= i < |s.frames| ==> FrameOk(s.frames[i], i, s.journal))
    && (forall i :: 0 < i < |s.frames| ==> LinkedAt(s.frames, i))
    && (s.frames != [] ==> TopOk(Top(s), s.journal, s.buffer, inflight, open))
  }

  ghost predicate SameSlot(f: Frame, f': Frame) {
    f'.kind == f.kind && f'.target == f.target && f'.depth == f.depth && f'.checkpoint == f.checkpoint
    && f'.start == f.start && f'.isFinished == f.isFinished && f'.gas.limit == f.gas.limit
  }

  lemma LinkedTop(frames: seq<Frame>, frames': seq<Frame>, f': Frame)
    requires frames != [] && SameSlot(frames[|frames| - 1], f') && frames' == frames[|frames| - 1 := f']
    requires forall i :: 0 < i < |frames| ==> LinkedAt(frames, i)
    ensures forall i :: 0 < i < |frames'| ==> LinkedAt(frames', i)
  {
    forall i | 0 < i < |frames'|
      ensures LinkedAt(frames', i)
    {
      assert LinkedAt(frames, i);
    }
  }

  lemma SumTop(frames: seq<Frame>, f': Frame)
    requires frames != []
    ensures SumRemaining(frames[|frames| - 1 := f'])
            == SumRemaining(frames) - frames[|frames| - 1].gas.remaining + f'.gas.remaining
  {
    var n := |frames| - 1;
    assert frames[n := f'][..n] == frames[..n];
  }

  /** A step of the running frame. */
  lemma ShapeTop(s: State, s': State, f': Frame, depth: nat, total: nat, inflight: nat, open: bool, inflight': nat,
                 open': bool)
    requires Shape(s, depth, total, inflight, open) && s.frames != []
    requires s'.frames == s.frames[|s.frames| - 1 := f'] && SameSlot(Top(s), f') && Grown(s.journal, s'.journal)
    requires TopOk(f', s'.journal, s'.buffer, inflight', open')
    requires f'.gas.remaining + inflight' + s'.burned == Top(s).gas.remaining + inflight + s.burned && s'.burned >= 0
    ensures Shape(s', depth, total, inflight', open')
  {
    LinkedTop(s.frames, s'.frames, f');
    SumTop(s.frames, f');
    forall i | 0 <= i < |s'.frames|
      ensures FrameOk(s'.frames[i], i, s'.journal)
    {
      assert FrameOk(s.frames[i], i, s.journal);
    }
  }

  // ---------- One effect ----------

  function Inflight(a: Option<Action>): nat {
    if a.Some? && a.value.NewFrame? then a.value.input.gasLimit else 0
  }

  /** The accounts between which the new frame moves value are loaded. */
  ghost predicate InputOk(j: Journal, i: FrameInput) {
    && Loaded(j, i.caller)
    && i.gasLimit <= U64_MAX
    && (i.CallInput? ==> Loaded(j, i.target))
  }

  ghost predicate ActionOk(j: Journal, a: Option<Action>) {
    a.Some? && a.value.NewFrame? ==> InputOk(j, a.value.input)
  }

  lemma GasStep(s: State, j: Journal, g: Gas, kept: nat, depth: nat, total: nat)
    requires Shape(s, depth, total, 0, false) && s.frames != [] && Grown(s.journal, j)
    requires g.limit == Top(s).gas.limit && g.remaining + kept <= Top(s).gas.remaining
    ensures Shape(SetGas(s.(journal := j), g, kept), depth, total, kept, false)
  {
    assert FrameOk(Top(s), |s.frames| - 1, s.journal);
    ShapeTop(s, SetGas(s.(journal := j), g, kept), Top(s).(gas := g), depth, total, 0, false, kept, false);
  }

  /** The wrapped value of an underflow never stays: either there was no underflow or all gas goes. */
  lemma StepShape(s: State, cost: nat, depth: nat, total: nat)
    requires Shape(s, depth, total, 0, false) && s.frames != []
    ensures Shape(StepTop(s, cost).0, depth, total, 0, false)
    ensures StepTop(s, cost) == ChargeTop(s, cost)
  {
    assert FrameOk(Top(s), |s.frames| - 1, s.journal);
    var g := Top(s).gas;
    if cost <= g.remaining {
      assert RecordCostUnsafe(g, cost).0 == g.(remaining := g.remaining - cost);
      GasStep(s, s.journal, g.(remaining := g.remaining - cost), 0, depth, total);
    } else {
      GasStep(s, s.journal, SpendAll(g), 0, depth, total);
    }
  }

  lemma GrantFits(rules: Rules, transfers: bool, before: nat, after: nat, limit: nat)
    requires after + CallStatic(rules, transfers) <= before <= U64_MAX && limit <= after
    ensures after - limit + WithStipend(limit, transfers) <= before
  {
  }

  /** The ways a call can go once the callee is loaded in `j`: refused by the static charge, refused
      later, or granted after spending `cost`. */
  ghost predicate CallCase(s: State, e: Effect, j: Journal, cost: nat, granted: nat, out: (State, Option<Action>))
    requires s.frames != [] && e.SubCall?
  {
    var g := Top(s).gas;
    || out == OutOfGas(s)
    || out == OutOfGas(s.(journal := j))
    || (cost <= g.remaining && granted <= cost
        && out == (SetGas(s.(journal := j), g.(remaining := g.remaining - cost), granted),
                   Some(NewFrame(CallInputOf(Top(s).target, e, granted)))))
  }

  /** What a call loads, once its static charge is paid. */
  function CallLoads(db: Db, rules: Rules, s: State, e: Effect): seq<HostOp>
    requires s.frames != [] && e.SubCall?
  {
    var base := CallStatic(rules, Transfers(e.scheme, e.value));
    if Top(s).gas.remaining < base then []
    else LoadDelegated(db, rules, s.journal, Top(s).gas.remaining - base, e).loads
  }

  function CalleeLoaded(db: Db, rules: Rules, s: State, e: Effect): Journal
    requires s.frames != [] && e.SubCall?
  {
    PerformAll(db, s.journal, CallLoads(db, rules, s, e))
  }

  lemma CallLoadedCases(rules: Rules, s: State, e: Effect, j: Journal, g: Gas, dynamic: Option<nat>)
    returns (cost: nat, granted: nat)
    requires s.frames != [] && e.SubCall? && Top(s).gas.remaining <= U64_MAX
    requires var base := CallStatic(rules, Transfers(e.scheme, e.value));
             base <= Top(s).gas.remaining && g == Top(s).gas.(remaining := Top(s).gas.remaining - base)
    ensures CallCase(s, e, j, cost, granted, CallLoaded(rules, s.(journal := j), e, g, dynamic))
  {
    var r := Top(s).gas.remaining;
    cost, granted := r - g.remaining, 0;
    if dynamic.Some? && dynamic.value <= g.remaining {
      cost := cost + dynamic.value;
      var limit := ChildLimit(rules, r - cost, e.stackGas);
      if limit <= r - cost {
        GrantFits(rules, Transfers(e.scheme, e.value), r, r - cost, limit);
        cost, granted := cost + limit, WithStipend(limit, Transfers(e.scheme, e.value));
      }
    }
  }

  lemma CallCases(db: Db, rules: Rules, s: State, e: Effect) returns (cost: nat, granted: nat)
    requires s.frames != [] && e.SubCall? && Top(s).gas.remaining <= U64_MAX
    ensures CallCase(s, e, CalleeLoaded(db, rules, s, e), cost, granted, CallTop(db, rules, s, e))
  {
    var (g, ok) := RecordCost(Top(s).gas, CallStatic(rules, Transfers(e.scheme, e.value)));
    cost, granted := 0, 0;
    if ok {
      var look := LoadDelegated(db, rules, s.journal, g.remaining, e);
      cost, granted := CallLoadedCases(rules, s, e, CalleeLoaded(db, rules, s, e), g, look.cost);
    }
  }

  lemma OutOfGasShape(s: State, j: Journal, depth: nat, total: nat)
    requires Shape(s, depth, total, 0, false) && s.frames != [] && Grown(s.journal, j)
    ensures Shape(OutOfGas(s.(journal := j)).0, depth, total, 0, false)
  {
    GasStep(s, j, SpendAll(Top(s).gas), 0, depth, total);
  }

  lemma GrantedShape(s: State, e: Effect, j: Journal, cost: nat, granted: nat, depth: nat, total: nat)
    requires Shape(s, depth, total, 0, false) && s.frames != [] && e.SubCall? && Grown(s.journal, j) && Loaded(j, e.to)
    requires granted <= cost <= Top(s).gas.remaining
    ensures var g := Top(s).gas;
            Shape(SetGas(s.(journal := j), g.(remaining := g.remaining - cost), granted), depth, total, granted, false)
    ensures InputOk(j, CallInputOf(Top(s).target, e, granted))
  {
    assert FrameOk(Top(s), |s.frames| - 1, s.journal);
    GasStep(s, j, Top(s).gas.(remaining := Top(s).gas.remaining - cost), granted, depth, total);
  }

  lemma CallCaseShape(s: State, e: Effect, j: Journal, cost: nat, granted: nat, out: (State, Option<Action>),
                      depth: nat, total: nat)
    requires Shape(s, depth, total, 0, false) && s.frames != [] && e.SubCall? && CallCase(s, e, j, cost, granted, out)
    requires Grown(s.journal, j) && (out.1 != OutOfGas(s).1 ==> Loaded(j, e.to))
    ensures Shape(out.0, depth, total, Inflight(out.1), false) && ActionOk(out.0.journal, out.1)
  {
    if out.1 == OutOfGas(s).1 {
      OutOfGasShape(s, s.journal, depth, total);
      OutOfGasShape(s, j, depth, total);
    } else {
      GrantedShape(s, e, j, cost, granted, depth, total);
    }
  }

  lemma LoadGrows(db: Db, j: Journal, a: Address)
    requires j.cfg.leftover <= j.state.Keys
    ensures Grown(j, LoadAccount(db, j, a).0) && Loaded(LoadAccount(db, j, a).0, a)
  {
  }

  lemma LoadDelegatedGrows(db: Db, rules: Rules, s: State, e: Effect)
    requires s.frames != [] && e.SubCall? && s.journal.cfg.leftover <= s.journal.state.Keys
    ensures Grown(s.journal, CalleeLoaded(db, rules, s, e))
    ensures CallTop(db, rules, s, e).1 == OutOfGas(s).1 || Loaded(CalleeLoaded(db, rules, s, e), e.to)
  {
    PerformAllGrows(db, s.journal, CallLoads(db, rules, s, e));
  }

  /** What a call hands to its child comes out of the caller's remaining gas: the stipend is less
      than the charge for transferring value. */
  lemma CallShape(db: Db, rules: Rules, s: State, e: Effect, depth: nat, total: nat)
    requires Shape(s, depth, total, 0, false) && s.frames != [] && e.SubCall?
    ensures var (s', a) := CallTop(db, rules, s, e);
            Shape(s', depth, total, Inflight(a), false) && ActionOk(s'.journal, a)
  {
    assert FrameOk(Top(s), |s.frames| - 1, s.journal);
    var cost, granted := CallCases(db, rules, s, e);
    LoadDelegatedGrows(db, rules, s, e);
    CallCaseShape(s, e, CalleeLoaded(db, rules, s, e), cost, granted, CallTop(db, rules, s, e), depth, total);
  }

  lemma CreateTopShape(rules: Rules, s: State, e: Effect, depth: nat, total: nat)
    requires Shape(s, depth, total, 0, false) && s.frames != [] && e.SubCreate?
    ensures var (s', a) := CreateTop(rules, s, e);
            Shape(s', depth, total, Inflight(a), false) && ActionOk(s'.journal, a)
  {
    var g := Top(s).gas;
    assert FrameOk(Top(s), |s.frames| - 1, s.journal);
    var limit := if rules.tangerine then AllButOne64th(g.remaining) else g.remaining;
    GasStep(s, s.journal, g.(remaining := g.remaining - limit), limit, depth, total);
  }

  lemma AccessShape(db: Db, rules: Rules, s: State, e: Effect, depth: nat, total: nat)
    requires Shape(s, depth, total, 0, false) && s.frames != [] && e.Access?
    ensures Exec(db, rules, s, e).1.None? && Shape(Exec(db, rules, s, e).0, depth, total, 0, false)
  {
    PerformGrows(db, s.journal, e.op);
    ShapeTop(s, s.(journal := Perform(db, s.journal, e.op)), Top(s), depth, total, 0, false, 0, false);
  }

  lemma RefundShape(db: Db, rules: Rules, s: State, e: Effect, depth: nat, total: nat)
    requires Shape(s, depth, total, 0, false) && s.frames != [] && e.Refund?
    ensures Exec(db, rules, s, e).1.None? && Shape(Exec(db, rules, s, e).0, depth, total, 0, false)
  {
    var f := Top(s);
    var f' := f.(gas := f.gas.(refunded := f.gas.refunded + e.amount));
    ShapeTop(s, SetTop(s, f'), f', depth, total, 0, false, 0, false);
  }

  lemma ExecShape(db: Db, rules: Rules, s: State, e: Effect, depth: nat, total: nat)
    requires Shape(s, depth, total, 0, false) && s.frames != []
    ensures var (s', a) := Exec(db, rules, s, e);
            Shape(s', depth, total, Inflight(a), false) && ActionOk(s'.journal, a)
  {
    match e {
      case Step(cost) => StepShape(s, cost, depth, total);
      case Charge(cost) => StepShape(s, cost, depth, total);
      case SubCall(_, _, _, _, _, _, _) => CallShape(db, rules, s, e, depth, total);
      case SubCreate(_, _) => CreateTopShape(rules, s, e, depth, total);
      case Access(_) => AccessShape(db, rules, s, e, depth, total);
      case Refund(_) => RefundShape(db, rules, s, e, depth, total);
      case Grow(bytes) => ShapeTop(s, s.(buffer := s.buffer + bytes), Top(s), depth, total, 0, false, 0, false);
      case End(_, _, _) =>
    }
  }

  lemma {:induction false} RunTopShape(db: Db, rules: Rules, s: State, script: seq<Effect>, depth: nat, total: nat)
    requires Shape(s, depth, total, 0, false) && s.frames != []
    ensures var (s', a, _) := RunTop(db, rules, s, script);
            Shape(s', depth, total, Inflight(a), false) && ActionOk(s'.journal, a)
    decreases |script|
  {
    if script != [] {
      ExecShape(db, rules, s, script[0], depth, total);
      var (s1, a) := Exec(db, rules, s, script[0]);
      if a.None? {
        RunTopShape(db, rules, s1, script[1..], depth, total);
      }
    }
  }

  // ---------- Entering a frame ----------

  lemma OpenShape(s: State, depth: nat, total: nat, inflight: nat)
    requires Shape(s, depth, total, inflight, false) && s.frames != []
    ensures Shape(OpenChild(s), depth, total, inflight, true)
  {
    ShapeTop(s, OpenChild(s), Top(s).(child := Some(s.buffer)), depth, total, inflight, false, inflight, true);
  }

  /** No frame was entered: the journal is as deep as before and the result carries the gas. */
  lemma ShapeStays(s: State, j: Journal, burned: int, depth: nat, total: nat, inflight: nat, inflight': nat)
    requires Shape(s, depth, total, inflight, true) && Grown(s.journal, j)
    requires inflight' <= inflight && burned - s.burned == inflight - inflight'
    ensures Shape(s.(journal := j, burned := burned), depth, total, inflight', true)
  {
    if s.frames != [] {
      ShapeTop(s, s.(journal := j, burned := burned), Top(s), depth, total, inflight, true, inflight', true);
    }
  }

  lemma ShapePush(s: State, j: Journal, kind: FrameKind, target: Address, cp: Checkpoint, depth: nat, total: nat,
                  limit: nat)
    requires Shape(s, depth, total, limit, true) && (s.frames != [] ==> Top(s).child == Some(s.buffer))
    requires limit <= U64_MAX && NextDepth(s) <= CALL_STACK_LIMIT
    requires Within(s.journal, j) && Loaded(j, target)
    requires Past(cp, j) && |s.journal.logs| <= cp.logIndex && |s.journal.entries| <= cp.journalIndex
    ensures Shape(PushFrame(s, j, kind, target, cp, limit), depth, total, 0, false)
  {
    var s' := PushFrame(s, j, kind, target, cp, limit);
    var n := |s.frames|;
    assert s'.frames[..n] == s.frames;
    if n > 0 {
      assert FrameOk(s.frames[n - 1], n - 1, s.journal);
    }
    forall i | 0 <= i < |s'.frames|
      ensures FrameOk(s'.frames[i], i, s'.journal)
    {
      if i < n {
        assert FrameOk(s.frames[i], i, s.journal);
      }
    }
    forall i | 0 < i < |s'.frames|
      ensures LinkedAt(s'.frames, i)
    {
      if i < n {
        assert LinkedAt(s.frames, i);
      }
    }
  }

  lemma LoadCodeGrows(db: Db, j: Journal, codeOf: Option<Address>)
    requires j.cfg.leftover <= j.state.Keys
    ensures Grown(j, LoadCode(db, j, codeOf))
  {
    if codeOf.Some? {
      LoadGrows(db, j, codeOf.value);
    }
  }

  lemma MoveWithin(db: Db, j: Journal, i: FrameInput)
    requires i.CallInput? && j.cfg.leftover <= j.state.Keys
    ensures var j1 := Move(TakeCheckpoint(j).0, i.caller, i.target, i.value).0;
            Within(j, j1) && Within(j, LoadCode(db, j1, i.codeOf))
  {
    var j0 := TakeCheckpoint(j).0;
    MoveGrows(j0, i.caller, i.target, i.value);
    LoadCodeGrows(db, Move(j0, i.caller, i.target, i.value).0, i.codeOf);
  }

  /** The ways a call frame can be made, with the journal after the move and the one in which the code
      is loaded: the checkpoint is closed, or a frame is pushed. */
  ghost predicate CallMade(s: State, i: FrameInput, j1: Journal, j2: Journal, s': State, r: Option<FrameResult>)
    requires i.CallInput?
  {
    var cp := TakeCheckpoint(s.journal).1;
    if r.None? then s' == PushFrame(s, j2, CallFrame, i.target, cp, i.gasLimit)
    else
      var ok := r.value.result.Success?;
      && s'.journal == Close(if i.precompile.None? && ok then j2 else j1, cp, ok)
      && s' == s.(journal := s'.journal, burned := s.burned + i.gasLimit - r.value.gas.remaining)
      && r.value.gas.remaining <= i.gasLimit
  }

  lemma CallFrameCases(db: Db, s: State, i: FrameInput, j1: Journal, j2: Journal)
    requires i.CallInput? && NextDepth(s) <= CALL_STACK_LIMIT
    requires j1 == Move(TakeCheckpoint(s.journal).0, i.caller, i.target, i.value).0 && j2 == LoadCode(db, j1, i.codeOf)
    ensures var (s', r) := MakeCallFrame(db, s, i);
            && CallMade(s, i, j1, j2, s', r)
            && (r.None? || r.value.result.Success? ==>
                  Move(TakeCheckpoint(s.journal).0, i.caller, i.target, i.value).1.None?)
  {
  }

  lemma CallFrameShape(db: Db, s: State, i: FrameInput, depth: nat, total: nat)
    requires i.CallInput? && InputOk(s.journal, i) && Shape(s, depth, total, i.gasLimit, true)
    requires s.frames != [] ==> Top(s).child == Some(s.buffer)
    ensures var (s', r) := MakeCallFrame(db, s, i);
            && (r.None? ==> |s'.frames| == |s.frames| + 1 && Shape(s', depth, total, 0, false))
            && (r.Some? ==> s'.frames == s.frames && Shape(s', depth, total, r.value.gas.remaining, true))
  {
    if NextDepth(s) <= CALL_STACK_LIMIT {
      var (j0, cp) := TakeCheckpoint(s.journal);
      var j1 := Move(j0, i.caller, i.target, i.value).0;
      var j2 := LoadCode(db, j1, i.codeOf);
      MoveWithin(db, s.journal, i);
      CallFrameCases(db, s, i, j1, j2);
      CallMadeShape(s, i, j1, j2, MakeCallFrame(db, s, i).0, MakeCallFrame(db, s, i).1, depth, total);
    }
  }

  lemma CallMadeShape(s: State, i: FrameInput, j1: Journal, j2: Journal, s': State, r: Option<FrameResult>,
                      depth: nat, total: nat)
    requires i.CallInput? && InputOk(s.journal, i) && Shape(s, depth, total, i.gasLimit, true)
    requires s.frames != [] ==> Top(s).child == Some(s.buffer)
    requires NextDepth(s) <= CALL_STACK_LIMIT && Within(s.journal, j1) && Within(s.journal, j2)
    requires CallMade(s, i, j1, j2, s', r)
    ensures r.None? ==> |s'.frames| == |s.frames| + 1 && Shape(s', depth, total, 0, false)
    ensures r.Some? ==> s'.frames == s.frames && Shape(s', depth, total, r.value.gas.remaining, true)
  {
    var cp := TakeCheckpoint(s.journal).1;
    CloseWithin(s.journal, j2, true);
    if r.None? {
      ShapePush(s, j2, CallFrame, i.target, cp, depth, total, i.gasLimit);
    } else {
      CloseWithin(s.journal, j1, r.value.result.Success?);
      ShapeStays(s, s'.journal, s'.burned, depth, total, i.gasLimit, r.value.gas.remaining);
    }
  }

  lemma CreateBaseGrows(db: Db, j: Journal, caller: Address, address: Address)
    requires j.cfg.leftover <= j.state.Keys
    ensures var j0 := LoadAccount(db, j, caller).0;
            && Loaded(j0, caller)
            && Grown(j, j0)
            && Grown(j, BumpNonce(j0, caller).0)
            && (BumpNonce(j0, caller).1 ==> |j.entries| < |CreateBase(db, j, caller, address).entries|)
    ensures var b := CreateBase(db, j, caller, address);
            Grown(j, b) && Loaded(b, caller) && Loaded(b, address)
  {
    var j0 := LoadAccount(db, j, caller).0;
    LoadGrows(db, j, caller);
    BumpGrows(j0, caller);
    LoadGrows(db, BumpNonce(j0, caller).0, address);
  }

  lemma CreateRefused(db: Db, s: State, i: FrameInput)
    requires i.CreateInput? && NextDepth(s) <= CALL_STACK_LIMIT && MakeCreateFrame(db, s, i).1.Some?
    requires s.journal.cfg.leftover <= s.journal.state.Keys
    ensures var (s', r) := MakeCreateFrame(db, s, i);
            && s' == s.(journal := s'.journal)
            && Grown(s.journal, s'.journal)
            && r.value.gas.remaining == i.gasLimit
  {
    CreateBaseGrows(db, s.journal, i.caller, i.address);
    CreateShape(CreateBase(db, s.journal, i.caller, i.address), i.caller, i.address, i.endowment);
  }

  lemma CreateEntered(db: Db, s: State, i: FrameInput)
    requires i.CreateInput? && MakeCreateFrame(db, s, i).1.None? && s.journal.cfg.leftover <= s.journal.state.Keys
    ensures var b := CreateBase(db, s.journal, i.caller, i.address);
            && i.caller in b.state && i.address in b.state
            && var (j, cp, _) := CreateAccountCheckpoint(b, i.caller, i.address, i.endowment);
               && MakeCreateFrame(db, s, i).0 == PushFrame(s, j, CreateFrame(i.address), i.address, cp, i.gasLimit)
               && Within(s.journal, j) && Loaded(j, i.address) && Past(cp, j)
               && |s.journal.logs| <= cp.logIndex && |s.journal.entries| < cp.journalIndex
  {
    CreateBaseGrows(db, s.journal, i.caller, i.address);
    CreateShape(CreateBase(db, s.journal, i.caller, i.address), i.caller, i.address, i.endowment);
  }

  lemma CreateFrameShape(db: Db, s: State, i: FrameInput, depth: nat, total: nat)
    requires i.CreateInput? && InputOk(s.journal, i) && Shape(s, depth, total, i.gasLimit, true)
    requires s.frames != [] ==> Top(s).child == Some(s.buffer)
    ensures var (s', r) := MakeCreateFrame(db, s, i);
            && (r.None? ==> |s'.frames| == |s.frames| + 1 && Shape(s', depth, total, 0, false))
            && (r.Some? ==> s'.frames == s.frames && Shape(s', depth, total, r.value.gas.remaining, true))
  {
    if MakeCreateFrame(db, s, i).1.None? {
      CreateEntered(db, s, i);
      var b := CreateBase(db, s.journal, i.caller, i.address);
      var (j, cp, _) := CreateAccountCheckpoint(b, i.caller, i.address, i.endowment);
      ShapePush(s, j, CreateFrame(i.address), i.address, cp, depth, total, i.gasLimit);
    } else if NextDepth(s) <= CALL_STACK_LIMIT {
      CreateRefused(db, s, i);
      var s' := MakeCreateFrame(db, s, i).0;
      ShapeStays(s, s'.journal, s'.burned, depth, total, i.gasLimit, i.gasLimit);
    }
  }

  lemma FrameInitShape(db: Db, s: State, i: FrameInput, depth: nat, total: nat)
    requires InputOk(s.journal, i) && Shape(s, depth, total, i.gasLimit, true)
    requires s.frames != [] ==> Top(s).child == Some(s.buffer)
    ensures var (s', r) := FrameInit(db, s, i);
            && (r.None? ==> |s'.frames| == |s.frames| + 1 && Shape(s', depth, total, 0, false))
            && (r.Some? ==> s'.frames == s.frames && Shape(s', depth, total, r.value.gas.remaining, true))
  {
    if i.CallInput? {
      CallFrameShape(db, s, i, depth, total);
    } else {
      CreateFrameShape(db, s, i, depth, total);
    }
  }

  // ---------- Leaving a frame ----------

  /** A finished frame on top of a stack that is still in shape. */
  ghost predicate FinishedShape(s: State, r: FrameResult, depth: nat, total: nat) {
    && s.frames != []
    && Top(s).isFinished
    && Shape(PopFinished(s), depth, total, r.gas.remaining, true)
  }

  lemma ShapePop(s: State, j: Journal, burned: int, r: FrameResult, depth: nat, total: nat)
    requires Shape(s, depth, total, 0, false) && s.frames != []
    requires j.depth == s.journal.depth - 1 && KeepsLoaded(s.journal, j) && Past(Top(s).checkpoint, j)
    requires r.gas.remaining <= Top(s).gas.remaining && burned == s.burned + Top(s).gas.remaining - r.gas.remaining
    ensures Shape(s.(frames := s.frames[..|s.frames| - 1], journal := j, burned := burned), depth, total,
                  r.gas.remaining, true)
  {
    var n := |s.frames| - 1;
    var s' := s.(frames := s.frames[..n], journal := j, burned := burned);
    assert FrameOk(Top(s), n, s.journal);
    forall i | 0 <= i < n
      ensures FrameOk(s'.frames[i], i, s'.journal)
    {
      assert FrameOk(s.frames[i], i, s.journal);
    }
    forall i | 0 < i < n
      ensures LinkedAt(s'.frames, i)
    {
      assert LinkedAt(s.frames, i);
    }
    if n > 0 {
      assert LinkedAt(s.frames, n);
    }
  }

  lemma ReturnCreateShape(rules: Rules, j: Journal, f: Frame, result: InstructionResult, output: Output)
    requires f.kind.CreateFrame? && Past(f.checkpoint, j) && j.depth > 0
    ensures var (j', r) := ReturnCreate(rules, j, f, result, output);
            && j'.depth == j.depth - 1 && KeepsLoaded(j, j') && Past(f.checkpoint, j')
            && r.gas.remaining <= f.gas.remaining
  {
    CloseShape(j, f.checkpoint, false);
    InstallGrows(CommitCheckpoint(j), f.kind.address, DepositedCode(rules, f.gas, output).hash);
  }

  lemma FinishShape(rules: Rules, s: State, result: InstructionResult, output: Output, depth: nat, total: nat)
    requires Shape(s, depth, total, 0, false) && s.frames != []
    ensures var (s', r) := FinishFrame(rules, s, result, output);
            FinishedShape(s', r, depth, total) && |s'.frames| == |s.frames|
  {
    var f := Top(s);
    var n := |s.frames| - 1;
    CloseShape(s.journal, f.checkpoint, result.Success?);
    if f.kind.CreateFrame? {
      ReturnCreateShape(rules, s.journal, f, result, output);
    }
    var (s', r) := FinishFrame(rules, s, result, output);
    ShapePop(s, s'.journal, s'.burned, r, depth, total);
    assert s'.frames[..n] == s.frames[..n];
    assert PopFinished(s') == s.(frames := s.frames[..n], journal := s'.journal, burned := s'.burned);
  }

  /** The memory of the child is gone and the gas is back. */
  lemma GiveBackShape(s: State, r: FrameResult, depth: nat, total: nat)
    requires Shape(s, depth, total, r.gas.remaining, true) && s.frames != []
    ensures Shape(GiveBack(s, r), depth, total, 0, false)
    ensures GiveBack(s, r).buffer == Top(s).child.value
  {
    var f' := Top(s).(child := None, gas := GasAfter(Top(s).gas, r));
    ShapeTop(s, GiveBack(s, r), f', depth, total, r.gas.remaining, true, 0, false);
  }

  // ---------- Every run ----------

  ghost predicate EndShape(s: State, r: Option<FrameResult>, depth: nat, total: nat) {
    if r.None? then s.frames != [] && Shape(s, depth, total, 0, false)
    else
      && s.frames == []
      && s.journal.depth == depth
      && s.burned >= 0
      && r.value.gas.remaining + s.burned == total
  }

  lemma AdvanceShape(db: Db, rules: Rules, s: State, a: Action, depth: nat, total: nat)
    requires Shape(s, depth, total, Inflight(Some(a)), false) && s.frames != [] && ActionOk(s.journal, Some(a))
    ensures var (s', r) := Advance(db, rules, s, a);
            && (r.None? ==> s'.frames != [] && Shape(s', depth, total, 0, false))
            && (r.Some? && a.Return? ==> FinishedShape(s', r.value, depth, total))
            && (r.Some? && a.NewFrame? ==> !Top(s').isFinished && Shape(s', depth, total, r.value.gas.remaining, true))
  {
    if a.NewFrame? {
      OpenShape(s, depth, total, a.input.gasLimit);
      FrameInitShape(db, OpenChild(s), a.input, depth, total);
      var n := |s.frames| - 1;
      assert FrameOk(s.frames[n], n, s.journal);
    } else {
      FinishShape(rules, s, a.result, a.output, depth, total);
    }
  }

  lemma {:induction false} RunLoopShape(db: Db, rules: Rules, s: State, script: seq<Effect>, depth: nat, total: nat)
    requires Shape(s, depth, total, 0, false) && s.frames != []
    ensures var (s', r) := RunLoop(db, rules, s, script);
            EndShape(s', r, depth, total)
    decreases |script|
  {
    var (s1, a, rest) := RunTop(db, rules, s, script);
    RunTopShape(db, rules, s, script, depth, total);
    if a.Some? {
      AdvanceShape(db, rules, s1, a.value, depth, total);
      var (s2, r) := Advance(db, rules, s1, a.value);
      if r.None? {
        RunLoopShape(db, rules, s2, rest, depth, total);
      } else {
        var p := PopFinished(s2);
        if p.frames != [] {
          GiveBackShape(p, r.value, depth, total);
          RunLoopShape(db, rules, GiveBack(p, r.value), rest, depth, total);
        }
      }
    }
  }

  /** For every first frame and every program: until the first frame returns the state is in shape;
      when it returns, the stack is empty, every checkpoint is closed and no gas is unaccounted for. */
  lemma RunExecShape(db: Db, rules: Rules, s: State, first: FrameInput, script: seq<Effect>)
    requires s.frames == [] && s.burned == 0 && InputOk(s.journal, first)
    requires s.journal.cfg.leftover <= s.journal.state.Keys
    ensures var (s', r) := RunExec(db, rules, s, first, script);
            EndShape(s', r, s.journal.depth, first.gasLimit)
  {
    FrameInitShape(db, s, first, s.journal.depth, first.gasLimit);
    var (s1, r) := FrameInit(db, s, first);
    if r.None? {
      RunLoopShape(db, rules, s1, script, s.journal.depth, first.gasLimit);
    }
  }

  /** Checkpoints need not be strictly ordered: a call that follows its caller's checkpoint without
      any entry or log in between takes the same one.  A create is always strictly above. */
  lemma EnteredCheckpoint(db: Db, s: State, i: FrameInput, depth: nat, total: nat)
    requires InputOk(s.journal, i) && Shape(s, depth, total, i.gasLimit, true) && s.frames != []
    requires FrameInit(db, s, i).1.None?
    ensures FrameInit(db, s, i).0.frames != []
    ensures var above, below := Top(FrameInit(db, s, i).0).checkpoint, Top(s).checkpoint;
            && (i.CreateInput? ==> below.journalIndex < above.journalIndex)
            && (i.CallInput? ==>
                  (above == below <==> |s.journal.entries| == below.journalIndex && |s.journal.logs| == below.logIndex))
  {
    if i.CreateInput? {
      CreateEntered(db, s, i);
    }
  }
}
