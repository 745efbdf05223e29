/** The wei a run of frames can reach: entering, running and leaving frames never makes any. */
module FrameWealth {
  import opened Wrappers
  import opened Journal
  import opened JournalOps
  import opened JournalRuns
  import opened JournalEffects
  import opened Frames
  import opened FrameShape
  import opened FrameWorld
  import opened Wealth

  /** A journal that keeps its invariant and whose wei is in range. */
  ghost predicate Rich(cap: nat, db: Db, j: Journal) {
    Inv(db, j) && InRange(cap, db, j)
  }

  lemma {:induction false} PerformAllRich(cap: nat, db: Db, j: Journal, ops: seq<HostOp>)
    requires Rich(cap, db, j) && SoundOps(db, j, ops)
    ensures Rich(cap, db, PerformAll(db, j, ops))
    decreases |ops|
  {
    if ops != [] {
      PerformUndoes(db, j, ops[0]);
      PerformWealth(cap, db, j, ops[0]);
      PerformAllRich(cap, db, Perform(db, j, ops[0]), ops[1..]);
    }
  }

  lemma {:induction false} RunTopRich(cap: nat, db: Db, rules: Rules, s: State, script: seq<Effect>)
    requires s.frames != [] && Rich(cap, db, s.journal) && SoundTop(db, rules, s, script)
    ensures Rich(cap, db, RunTop(db, rules, s, script).0.journal)
    decreases |script|
  {
    if script != [] {
      ExecJournal(db, rules, s, script[0]);
      PerformAllRich(cap, db, s.journal, EffectOps(db, rules, s, script[0]));
      var (s1, a) := Exec(db, rules, s, script[0]);
      if a.None? {
        RunTopRich(cap, db, rules, s1, script[1..]);
      }
    }
  }

  lemma RestoredRich(cap: nat, db: Db, b: Journal, j: Journal)
    requires Rich(cap, db, b) && Restored(db, b, j)
    ensures Rich(cap, db, j)
  {
    WealthSameWorld(db, b, j);
  }

  // ---------- Entering ----------

  lemma RichIsSound(cap: nat, db: Db, j: Journal, i: FrameInput)
    requires InRange(cap, db, j) && SoundEntry(db, j, i)
    ensures SoundInput(db, j, i)
  {
    if i.CallInput? && i.value.Some? && Loaded(j, i.caller) && Loaded(j, i.target) {
      NoOverflow(cap, db, j, i.caller, i.target, i.value.value);
    }
  }

  lemma MoveRich(cap: nat, db: Db, j: Journal, i: FrameInput)
    requires Rich(cap, db, j) && i.CallInput? && Move(TakeCheckpoint(j).0, i.caller, i.target, i.value).1.None?
    requires SoundInput(db, j, i)
    ensures var j1 := Move(TakeCheckpoint(j).0, i.caller, i.target, i.value).0;
            && InRange(cap, db, j1)
            && (i.precompile.None? ==> InRange(cap, db, LoadCode(db, j1, i.codeOf)))
  {
    var j0 := TakeCheckpoint(j).0;
    WealthFrame(db, j, j0);
    if i.value.Some? && Loaded(j, i.caller) && Loaded(j, i.target) {
      TransferWealth(db, j0, i.caller, i.target, i.value.value);
    }
    if i.precompile.None? && i.codeOf.Some? {
      var j1 := Move(j0, i.caller, i.target, i.value).0;
      MoveSafe(db, [], j, i);
      LoadableOk(db, j1, i.codeOf.value);
      LoadWealth(db, j1, i.codeOf.value);
    }
  }

  lemma CallFrameRich(cap: nat, db: Db, s: State, i: FrameInput, marks: seq<Journal>)
    requires i.CallInput? && World(db, s.frames, marks) && marks[|s.frames|] == s.journal
    requires InRange(cap, db, s.journal) && SoundEntry(db, s.journal, i)
    ensures Rich(cap, db, MakeCallFrame(db, s, i).0.journal)
  {
    var j := s.journal;
    RichIsSound(cap, db, j, i);
    CallFrameWorld(db, s, i, marks);
    var (s', r) := MakeCallFrame(db, s, i);
    if r.Some? && !r.value.result.Success? {
      RestoredRich(cap, db, j, s'.journal);
    } else if NextDepth(s) <= CALL_STACK_LIMIT {
      var j1 := Move(TakeCheckpoint(j).0, i.caller, i.target, i.value).0;
      var j2 := LoadCode(db, j1, i.codeOf);
      CallFrameCases(db, s, i, j1, j2);
      MoveRich(cap, db, j, i);
      WealthFrame(db, if i.precompile.None? then j2 else j1, s'.journal);
    }
  }

  lemma CallerRich(cap: nat, db: Db, j: Journal, caller: Address)
    requires Rich(cap, db, j) && Loadable(j, caller)
    ensures var j0 := LoadAccount(db, j, caller).0;
            var j1 := BumpNonce(j0, caller).0;
            && Loaded(j0, caller) && Loaded(j1, caller)
            && Rich(cap, db, j0) && Rich(cap, db, j1)
            && j1.state[caller].info.balance == j0.state[caller].info.balance
  {
    CallerSafe(db, [], j, caller);
    LoadableOk(db, j, caller);
    var j0 := LoadAccount(db, j, caller).0;
    LoadWealth(db, j, caller);
    BumpWealth(db, j0, caller);
    TouchKeepsInfo(j0, caller, caller);
  }

  lemma BaseRich(cap: nat, db: Db, j: Journal, caller: Address, address: Address)
    requires Rich(cap, db, j) && Loadable(j, caller)
    requires Loadable(BumpNonce(LoadAccount(db, j, caller).0, caller).0, address)
    ensures var j0 := LoadAccount(db, j, caller).0;
            var b := CreateBase(db, j, caller, address);
            && caller in j0.state && caller in b.state
            && Rich(cap, db, b)
            && b.state[caller].info.balance == j0.state[caller].info.balance
  {
    CreateBaseSafe(db, [], j, caller, address);
    CallerRich(cap, db, j, caller);
    var j1 := BumpNonce(LoadAccount(db, j, caller).0, caller).0;
    LoadableOk(db, j1, address);
    LoadWealth(db, j1, address);
    LoadEffect(db, j1, address, caller, 0);
  }

  lemma EarlyJournal(db: Db, s: State, i: FrameInput, j0: Journal)
    requires i.CreateInput? && NextDepth(s) <= CALL_STACK_LIMIT && Early(db, s.journal, i)
    requires j0 == LoadAccount(db, s.journal, i.caller).0
    ensures i.caller in j0.state
    ensures MakeCreateFrame(db, s, i).0.journal in {j0, BumpNonce(j0, i.caller).0}
  {
  }

  lemma EarlyRich(cap: nat, db: Db, s: State, i: FrameInput)
    requires i.CreateInput? && NextDepth(s) <= CALL_STACK_LIMIT && Rich(cap, db, s.journal) && Early(db, s.journal, i)
    requires Loadable(s.journal, i.caller)
    ensures Rich(cap, db, MakeCreateFrame(db, s, i).0.journal)
  {
    CallerRich(cap, db, s.journal, i.caller);
    EarlyJournal(db, s, i, LoadAccount(db, s.journal, i.caller).0);
  }

  /** A frame that is entered has its mark in range. */
  lemma MarkRich(cap: nat, db: Db, s: State, i: FrameInput)
    requires Rich(cap, db, s.journal) && SoundEntry(db, s.journal, i)
    requires i.CreateInput? ==> NextDepth(s) <= CALL_STACK_LIMIT && !Early(db, s.journal, i)
    ensures Rich(cap, db, MarkOf(db, s, i))
  {
    if i.CreateInput? {
      BaseRich(cap, db, s.journal, i.caller, i.address);
      MarkIsBase(db, s, i, CreateBase(db, s.journal, i.caller, i.address));
    }
  }

  lemma MarkIsBase(db: Db, s: State, i: FrameInput, b: Journal)
    requires i.CreateInput? && b == CreateBase(db, s.journal, i.caller, i.address)
    requires NextDepth(s) <= CALL_STACK_LIMIT && !Early(db, s.journal, i)
    ensures MarkOf(db, s, i) == b
  {
  }

  lemma CreateFrameRich(cap: nat, db: Db, s: State, i: FrameInput, marks: seq<Journal>)
    requires i.CreateInput? && World(db, s.frames, marks) && marks[|s.frames|] == s.journal
    requires InRange(cap, db, s.journal) && SoundEntry(db, s.journal, i)
    ensures Rich(cap, db, MakeCreateFrame(db, s, i).0.journal)
  {
    RichIsSound(cap, db, s.journal, i);
    CreateFrameWorld(db, s, i, marks);
    var (s', r) := MakeCreateFrame(db, s, i);
    if NextDepth(s) <= CALL_STACK_LIMIT {
      if Early(db, s.journal, i) {
        EarlyRich(cap, db, s, i);
      } else if r.Some? {
        CreateCases(db, s, i, CreateBase(db, s.journal, i.caller, i.address));
        MarkRich(cap, db, s, i);
        RestoredRich(cap, db, CreateMark(db, s, i), s'.journal);
      } else {
        EnteredRich(cap, db, s, i);
      }
    }
  }

  lemma EnteredRich(cap: nat, db: Db, s: State, i: FrameInput)
    requires i.CreateInput? && Rich(cap, db, s.journal) && NextDepth(s) <= CALL_STACK_LIMIT && !Early(db, s.journal, i)
    requires MakeCreateFrame(db, s, i).1.None? && SoundEntry(db, s.journal, i)
    ensures Rich(cap, db, MakeCreateFrame(db, s, i).0.journal)
  {
    var b := CreateBase(db, s.journal, i.caller, i.address);
    CreateCases(db, s, i, b);
    BaseRich(cap, db, s.journal, i.caller, i.address);
    BaseReady(db, s.frames, s.journal, i);
    CreateAccountRestores(db, b, i.caller, i.address, i.endowment);
    CreateWealth(db, b, i.caller, i.address, i.endowment);
    var j := CreateAccountCheckpoint(b, i.caller, i.address, i.endowment).0;
    SinceInv(db, b, j);
  }

  lemma FrameInitRich(cap: nat, db: Db, s: State, i: FrameInput, marks: seq<Journal>)
    requires World(db, s.frames, marks) && marks[|s.frames|] == s.journal
    requires InRange(cap, db, s.journal) && SoundEntry(db, s.journal, i)
    ensures Rich(cap, db, FrameInit(db, s, i).0.journal)
  {
    if i.CallInput? {
      CallFrameRich(cap, db, s, i, marks);
    } else {
      CreateFrameRich(cap, db, s, i, marks);
    }
  }

  // ---------- Leaving ----------

  lemma FinishRich(cap: nat, db: Db, rules: Rules, s: State, result: InstructionResult, output: Output,
                   marks: seq<Journal>)
    requires s.frames != [] && World(db, s.frames, marks) && marks[|s.frames|] == s.journal
    requires InRange(cap, db, s.journal) && Rich(cap, db, marks[|s.frames| - 1])
    ensures Rich(cap, db, FinishFrame(rules, s, result, output).0.journal)
  {
    var b := marks[|s.frames| - 1];
    FinishWorld(db, rules, s, result, output, marks);
    var (s', r) := FinishFrame(rules, s, result, output);
    if !r.result.Success? {
      RestoredRich(cap, db, b, s'.journal);
    } else {
      SinceInv(db, b, s'.journal);
      AcceptedWealth(db, rules, s, result, output);
    }
  }

  lemma AcceptedWealth(db: Db, rules: Rules, s: State, result: InstructionResult, output: Output)
    requires s.frames != [] && FinishFrame(rules, s, result, output).1.result.Success?
    ensures TotalWei(db, FinishFrame(rules, s, result, output).0.journal) == TotalWei(db, s.journal)
  {
    var f := Top(s);
    var j1 := CommitCheckpoint(s.journal);
    WealthFrame(db, s.journal, j1);
    if f.kind.CreateFrame? {
      InstallWealth(db, j1, f.kind.address, DepositedCode(rules, f.gas, output).hash);
    }
  }
}
