/** The execution loop as the source runs it: one journal, one memory buffer and a pool of frame slots
    whose upper part holds what earlier frames left there. */
module ExecLoop {
  import opened Wrappers
  import opened Journal
  import opened JournalOps
  import opened JournalRuns
  import opened Frames
  import opened FrameShape

  class Evm {
    var journal: Journal
    var slots: seq<Frame>
    var index: Option<nat>
    var buffer: nat
    ghost var burned: int

    constructor (journal: Journal)
      ensures Valid() && Live() == State(journal, [], 0, 0)
    {
      this.journal := journal;
      slots, index, buffer, burned := [], None, 0, 0;
    }

    ghost predicate Valid()
      reads this
    {
      index.Some? ==> index.value < |slots|
    }

    /** The state without the stale slots. */
    ghost function Live(): State
      requires Valid()
      reads this
    {
      State(journal, if index.None? then [] else slots[..index.value + 1], buffer, burned)
    }

    ghost predicate Running()
      reads this
    {
      Valid() && index.Some?
    }

    // ---------- Frame slots ----------

    /** Takes the slot above the running frame; a stale frame in it is overwritten as a whole. */
    method Push(kind: FrameKind, target: Address, checkpoint: Checkpoint, limit: nat)
      requires Valid()
      modifies this`slots, this`index
      ensures Running()
      ensures Live() == PushFrame(old(Live()), journal, kind, target, checkpoint, limit)
    {
      var depth := if index.None? then 0 else slots[index.value].depth + 1;
      var f := Frame(kind, target, depth, checkpoint, NewGas(limit), buffer, None, false);
      var at := if index.None? then 0 else index.value + 1;
      ghost var live := Live().frames;
      slots := if at < |slots| then slots[at := f] else slots + [f];
      index := Some(at);
      assert slots[..at + 1] == live + [f];
    }

    method Pop()
      requires Running()
      modifies this`index
      ensures Valid()
      ensures Live() == old(Live()).(frames := old(Live()).frames[..|old(Live()).frames| - 1])
    {
      ghost var live := Live().frames;
      index := if index.value == 0 then None else Some(index.value - 1);
      assert Live().frames == live[..|live| - 1];
    }

    method Put(f: Frame)
      requires Running()
      modifies this`slots
      ensures Running() && Live() == SetTop(old(Live()), f)
    {
      ghost var live := Live().frames;
      slots := slots[index.value := f];
      assert Live().frames == live[|live| - 1 := f];
    }

    // ---------- Running a frame ----------

    method SetGas(g: Gas, ghost kept: nat)
      requires Running()
      modifies this`slots, this`burned
      ensures Running() && Live() == Frames.SetGas(old(Live()), g, kept)
    {
      var f := slots[index.value];
      burned := burned + f.gas.remaining - g.remaining - kept;
      Put(f.(gas := g));
    }

    method HaltOutOfGas() returns (a: Option<Action>)
      requires Running()
      modifies this`slots, this`burned
      ensures Running() && (Live(), a) == OutOfGas(old(Live()))
    {
      SetGas(SpendAll(slots[index.value].gas), 0);
      a := Some(Return(Halted, NO_OUTPUT));
    }

    /** The cost of the loads, or none if a cold account was not loaded for lack of gas. */
    method LoadAccountDelegated(db: Db, rules: Rules, remaining: nat, e: Effect) returns (cost: Option<nat>)
      requires Valid() && e.SubCall?
      modifies this`journal
      ensures var look := LoadDelegated(db, rules, old(journal), remaining, e);
              journal == PerformAll(db, old(journal), look.loads) && cost == look.cost
    {
      ghost var was := journal;
      var paid := 0;
      var (loaded, cold) := LoadAccount(db, journal, e.to);
      if rules.berlin && cold && remaining < COLD_ACCESS_ADDITIONAL {
        return None;
      }
      journal := loaded;
      ghost var callee := [OpLoad(e.to)];
      assert callee[1..] == [] && journal == PerformAll(db, was, callee);
      if rules.berlin && cold {
        paid := paid + COLD_ACCESS_ADDITIONAL;
      }
      var sd := journal.cfg.spuriousDragon;
      if e.scheme.Call? && IsEmptyAccount(sd, journal.state[e.to]) {
        return Some(paid + NewAccountCost(sd, Transfers(e.scheme, e.value)));
      }
      if e.delegate.None? {
        return Some(paid);
      }
      paid := paid + WARM_READ;
      if paid > remaining {
        return None;
      }
      var (delegated, coldToo) := LoadAccount(db, journal, e.delegate.value);
      if coldToo && remaining < paid + COLD_ACCESS_ADDITIONAL {
        return None;
      }
      journal := delegated;
      ghost var both := [OpLoad(e.to), OpLoad(e.delegate.value)];
      assert both[1..] == [OpLoad(e.delegate.value)] && both[1..][1..] == [];
      assert PerformAll(db, loaded, both[1..]) == journal;
      if coldToo {
        paid := paid + COLD_ACCESS_ADDITIONAL;
      }
      cost := Some(paid);
    }

    /** Static gas, load of the callee, dynamic gas, the gas of the callee. */
    method LoadAccountAndCalcGas(db: Db, rules: Rules, e: Effect) returns (a: Option<Action>)
      requires Running() && e.SubCall?
      modifies this`journal, this`slots, this`burned
      ensures Running() && (Live(), a) == CallTop(db, rules, old(Live()), e)
    {
      var f := slots[index.value];
      var transfers := Transfers(e.scheme, e.value);
      var (g, ok) := RecordCost(f.gas, CallStatic(rules, transfers));
      if !ok {
        a := HaltOutOfGas();
        return;
      }
      var cost := LoadAccountDelegated(db, rules, g.remaining, e);
      if cost.None? {
        a := HaltOutOfGas();
        return;
      }
      var (g2, ok2) := RecordCost(g, cost.value);
      if !ok2 {
        a := HaltOutOfGas();
        return;
      }
      var limit := ChildLimit(rules, g2.remaining, e.stackGas);
      var (g3, ok3) := RecordCost(g2, limit);
      if !ok3 {
        a := HaltOutOfGas();
        return;
      }
      var granted := WithStipend(limit, transfers);
      SetGas(g3, granted);
      a := Some(NewFrame(CallInputOf(f.target, e, granted)));
    }

    /** What is set aside for the new contract is never more than what remains. */
    method ReserveForCreate(rules: Rules, e: Effect) returns (a: Option<Action>)
      requires Running() && e.SubCreate?
      modifies this`slots, this`burned
      ensures Running() && (Live(), a) == CreateTop(rules, old(Live()), e)
    {
      var f := slots[index.value];
      var limit := f.gas.remaining;
      if rules.tangerine {
        limit := AllButOne64th(limit);
      }
      var (g, ok) := RecordCost(f.gas, limit);
      assert ok;
      SetGas(g, limit);
      a := Some(NewFrame(CreateInput(f.target, e.address, e.value, limit)));
    }

    method Step(db: Db, rules: Rules, e: Effect) returns (a: Option<Action>)
      requires Running()
      modifies this`journal, this`slots, this`buffer, this`burned
      ensures Running() && (Live(), a) == Exec(db, rules, old(Live()), e)
    {
      a := None;
      var f := slots[index.value];
      match e {
        case Step(cost) =>
          var (g, oog) := RecordCostUnsafe(f.gas, cost);
          if oog {
            SetGas(SpendAll(g), 0);
            a := Some(Return(Halted, NO_OUTPUT));
          } else {
            SetGas(g, 0);
          }
        case Charge(cost) =>
          var (g, ok) := RecordCost(f.gas, cost);
          if ok {
            SetGas(g, 0);
          } else {
            a := HaltOutOfGas();
          }
        case Refund(amount) => Put(f.(gas := f.gas.(refunded := f.gas.refunded + amount)));
        case Access(op) => journal := Perform(db, journal, op);
        case Grow(bytes) => buffer := buffer + bytes;
        case End(result, output, _) => a := Some(Return(result, output));
        case SubCall(_, _, _, _, _, _, _) => a := LoadAccountAndCalcGas(db, rules, e);
        case SubCreate(_, _) => a := ReserveForCreate(rules, e);
      }
    }

    method RunPlain(db: Db, rules: Rules, script: seq<Effect>) returns (a: Option<Action>, rest: seq<Effect>)
      requires Running()
      modifies this`journal, this`slots, this`buffer, this`burned
      ensures Running() && (Live(), a, rest) == RunTop(db, rules, old(Live()), script)
    {
      a, rest := None, script;
      while a.None? && rest != []
        invariant Running()
        invariant RunTop(db, rules, old(Live()), script)
                  == if a.None? then RunTop(db, rules, Live(), rest) else (Live(), a, rest)
        decreases |rest|
      {
        a := Step(db, rules, rest[0]);
        rest := rest[1..];
      }
    }

    // ---------- Entering a frame ----------

    method MakeCallFrame(db: Db, i: FrameInput) returns (r: Option<FrameResult>)
      requires Valid() && i.CallInput?
      modifies this`journal, this`slots, this`index, this`burned
      ensures Valid() && (Live(), r) == Frames.MakeCallFrame(db, old(Live()), i)
    {
      var depth := if index.None? then 0 else slots[index.value].depth + 1;
      if depth > CALL_STACK_LIMIT {
        return Some(FrameResult(Reverted, NewGas(i.gasLimit)));
      }
      var (j, checkpoint) := TakeCheckpoint(journal);
      var (moved, err) := Move(j, i.caller, i.target, i.value);
      journal := moved;
      r := DecideCall(db, i, checkpoint, err);
    }

    method DecideCall(db: Db, i: FrameInput, checkpoint: Checkpoint, err: Option<TransferError>)
      returns (r: Option<FrameResult>)
      requires Valid() && i.CallInput?
      modifies this`journal, this`slots, this`index, this`burned
      ensures Valid() && (Live(), r) == CallMoved(db, old(Live()), i, checkpoint, err)
    {
      if err.Some? {
        journal := RevertToCheckpoint(journal, checkpoint);
        return Some(FrameResult(ErrorResult(err.value), NewGas(i.gasLimit)));
      }
      if i.precompile.Some? {
        var result := PrecompileResult(i.precompile.value, i.gasLimit);
        if result.result.Success? {
          journal := CommitCheckpoint(journal);
        } else {
          journal := RevertToCheckpoint(journal, checkpoint);
        }
        burned := burned + i.gasLimit - result.gas.remaining;
        return Some(result);
      }
      r := EnterCode(db, i, checkpoint);
    }

    method EnterCode(db: Db, i: FrameInput, checkpoint: Checkpoint) returns (r: Option<FrameResult>)
      requires Valid() && i.CallInput?
      modifies this`journal, this`slots, this`index
      ensures Valid() && (Live(), r) == Frames.EnterCode(db, old(Live()), i, checkpoint)
    {
      if i.codeOf.Some? {
        journal := LoadAccount(db, journal, i.codeOf.value).0;
      }
      if !i.hasCode {
        journal := CommitCheckpoint(journal);
        return Some(FrameResult(Success, NewGas(i.gasLimit)));
      }
      Push(CallFrame, i.target, checkpoint, i.gasLimit);
      r := None;
    }

    method MakeCreateFrame(db: Db, i: FrameInput) returns (r: Option<FrameResult>)
      requires Valid() && i.CreateInput?
      modifies this`journal, this`slots, this`index
      ensures Valid() && (Live(), r) == Frames.MakeCreateFrame(db, old(Live()), i)
    {
      var depth := if index.None? then 0 else slots[index.value].depth + 1;
      if depth > CALL_STACK_LIMIT {
        return Some(FrameResult(Reverted, NewGas(i.gasLimit)));
      }
      journal := LoadAccount(db, journal, i.caller).0;
      if journal.state[i.caller].info.balance < i.endowment {
        return Some(FrameResult(Reverted, NewGas(i.gasLimit)));
      }
      var (bumped, ok) := BumpNonce(journal, i.caller);
      journal := bumped;
      if !ok {
        return Some(FrameResult(Success, NewGas(i.gasLimit)));
      }
      journal := LoadAccount(db, journal, i.address).0;
      var (created, checkpoint, err) := CreateAccountCheckpoint(journal, i.caller, i.address, i.endowment);
      journal := created;
      if err.Some? {
        return Some(FrameResult(ErrorResult(err.value), NewGas(i.gasLimit)));
      }
      Push(CreateFrame(i.address), i.address, checkpoint, i.gasLimit);
      r := None;
    }

    method FrameInit(db: Db, i: FrameInput) returns (r: Option<FrameResult>)
      requires Valid()
      modifies this`journal, this`slots, this`index, this`burned
      ensures Valid() && (Live(), r) == Frames.FrameInit(db, old(Live()), i)
    {
      if i.CallInput? {
        r := MakeCallFrame(db, i);
      } else {
        r := MakeCreateFrame(db, i);
      }
    }

    // ---------- Leaving a frame ----------

    method ReturnCreate(rules: Rules, f: Frame, result: InstructionResult, output: Output) returns (r: FrameResult)
      requires Valid() && f.kind.CreateFrame?
      modifies this`journal
      ensures (journal, r) == Frames.ReturnCreate(rules, old(journal), f, result, output)
    {
      if !result.Success? {
        journal := RevertToCheckpoint(journal, f.checkpoint);
        return FrameResult(result, f.gas);
      }
      if !rules.allowEF && rules.london && output.startsWithEF {
        journal := RevertToCheckpoint(journal, f.checkpoint);
        return FrameResult(Halted, f.gas);
      }
      if journal.cfg.spuriousDragon && output.length > rules.maxCodeSize {
        journal := RevertToCheckpoint(journal, f.checkpoint);
        return FrameResult(Halted, f.gas);
      }
      var code := output;
      var (g, paid) := RecordCost(f.gas, output.length * CODE_DEPOSIT);
      if !paid {
        if rules.homestead {
          journal := RevertToCheckpoint(journal, f.checkpoint);
          return FrameResult(Halted, f.gas);
        }
        code := NO_OUTPUT;
      }
      journal := CommitCheckpoint(journal);
      journal := Install(journal, f.kind.address, code.hash);
      r := FrameResult(Success, g);
    }

    /** Returns a new frame to enter, or a result; a frame that has a result is marked finished. */
    method ProcessNextAction(rules: Rules, a: Action) returns (init: Option<FrameInput>, r: Option<FrameResult>)
      requires Running()
      modifies this`journal, this`slots, this`burned
      ensures Running()
      ensures a.NewFrame? ==> init == Some(a.input) && r.None? && Live() == OpenChild(old(Live()))
      ensures a.Return? ==> init.None? && r.Some?
                            && (Live(), r.value) == FinishFrame(rules, old(Live()), a.result, a.output)
    {
      var f := slots[index.value];
      if a.NewFrame? {
        Put(f.(child := Some(buffer)));
        return Some(a.input), None;
      }
      var result := FrameResult(a.result, f.gas);
      if f.kind.CallFrame? {
        if a.result.Success? {
          journal := CommitCheckpoint(journal);
        } else {
          journal := RevertToCheckpoint(journal, f.checkpoint);
        }
      } else {
        result := ReturnCreate(rules, f, a.result, a.output);
      }
      burned := burned + f.gas.remaining - result.gas.remaining;
      Put(f.(isFinished := true));
      return None, Some(result);
    }

    method FrameReturnResult(r: FrameResult) returns (done: Option<FrameResult>)
      requires Running()
      modifies this`slots, this`index, this`buffer, this`burned
      ensures Valid() && (Live(), done) == ReturnResult(old(Live()), r)
      ensures done.None? ==> Running()
    {
      if slots[index.value].isFinished {
        Pop();
      }
      if index.None? {
        return Some(r);
      }
      var f := slots[index.value];
      if f.child.Some? {
        buffer := f.child.value;
      }
      var g := f.gas;
      if r.result.Halted? {
        burned := burned + r.gas.remaining;
      } else {
        g := EraseCost(g, r.gas.remaining);
      }
      if r.result.Success? {
        g := g.(refunded := g.refunded + r.gas.refunded);
      }
      Put(f.(child := None, gas := g));
      done := None;
    }

    // ---------- The loop ----------

    /** Runs a transaction's first frame and all frames below it.  Without a result the script ended
        while frames were still running. */
    method RunExecLoop(db: Db, rules: Rules, first: FrameInput, script: seq<Effect>) returns (r: Option<FrameResult>)
      requires Valid() && index.None? && burned == 0 && InputOk(journal, first)
      requires journal.cfg.leftover <= journal.state.Keys
      modifies this
      ensures Valid() && (Live(), r) == RunExec(db, rules, old(Live()), first, script)
      ensures EndShape(Live(), r, old(journal.depth), first.gasLimit)
    {
      RunExecShape(db, rules, old(Live()), first, script);
      r := FrameInit(db, first);
      if r.Some? || index.None? {
        return;
      }
      var rest := script;
      while true
        invariant Running()
        invariant RunExec(db, rules, old(Live()), first, script) == RunLoop(db, rules, Live(), rest)
        decreases |rest|
      {
        var a;
        a, rest := RunPlain(db, rules, rest);
        if a.None? {
          return None;
        }
        var init, result := ProcessNextAction(rules, a.value);
        if init.Some? {
          result := FrameInit(db, init.value);
          if result.None? {
            continue;
          }
        }
        var done := FrameReturnResult(result.value);
        if done.Some? {
          return done;
        }
      }
    }
  }
}
