/** Whole runs of the execution loop: for every frame of every call tree, what its failure leaves. */
module FrameRuns {
  import opened Wrappers
  import opened Journal
  import opened JournalOps
  import opened JournalRuns
  import opened JournalEffects
  import opened Frames
  import opened FrameShape
  import opened FrameWorld
  import opened FrameWealth
  import opened Wealth

  /** Every effect and every entered frame along the run is sound. */
  ghost predicate SoundRun(db: Db, rules: Rules, s: State, script: seq<Effect>, floor: nat)
    requires s.frames != []
    decreases |script|
  {
    var (s1, a, rest) := RunTop(db, rules, s, script);
    && SoundTop(db, rules, s, script)
    && (a.Some? ==>
          && (a.value.NewFrame? ==> SoundEntry(db, s1.journal, a.value.input))
          && var (s2, r) := Advance(db, rules, s1, a.value);
             if r.None? then SoundRun(db, rules, s2, rest, floor)
             else
               var p := PopFinished(s2);
               |p.frames| <= floor || SoundRun(db, rules, GiveBack(p, r.value), rest, floor))
  }

  ghost predicate AllRich(cap: nat, db: Db, marks: seq<Journal>) {
    forall k {:trigger Rich(cap, db, marks[k])} :: 0 <= k < |marks| ==> Rich(cap, db, marks[k])
  }

  /** Marks that fit the state, each with its wei in range. */
  ghost predicate Fits(cap: nat, db: Db, s: State, marks: seq<Journal>) {
    World(db, s.frames, marks) && marks[|s.frames|] == s.journal && AllRich(cap, db, marks)
  }

  /** The state has marks that fit, and the mark of frame `k` is `b`. */
  ghost predicate Marked(cap: nat, db: Db, s: State, marks: seq<Journal>, k: nat, b: Journal) {
    Fits(cap, db, s, marks) && k < |s.frames| && marks[k] == b
  }

  ghost predicate HasMarks(cap: nat, db: Db, s: State, k: nat, b: Journal) {
    exists marks :: Marked(cap, db, s, marks, k, b)
  }

  lemma WorldSame(db: Db, frames: seq<Frame>, frames': seq<Frame>, marks: seq<Journal>)
    requires World(db, frames, marks) && SamePlaces(frames, frames')
    ensures World(db, frames', marks)
  {
    var n := |frames|;
    UndoesReflexive(db, marks[n]);
    SinceUndoes(db, marks[n], marks[n]);
    assert AllAwaited(db, frames, n, marks[n]);
    assert marks[n := marks[n]] == marks;
    WorldTop(db, frames, marks, frames', marks, marks[n]);
  }

  lemma SamePlacesMarked(cap: nat, db: Db, s: State, s': State, k: nat, b: Journal)
    requires HasMarks(cap, db, s, k, b) && SamePlaces(s.frames, s'.frames) && s'.journal == s.journal
    ensures HasMarks(cap, db, s', k, b)
  {
    var marks :| Marked(cap, db, s, marks, k, b);
    WorldSame(db, s.frames, s'.frames, marks);
    assert Marked(cap, db, s', marks, k, b);
  }

  /** The marks after entering a frame, or after being refused one. */
  ghost function MarksAfter(db: Db, s: State, i: FrameInput, marks: seq<Journal>): seq<Journal>
    requires |marks| == |s.frames| + 1
  {
    var (s', r) := FrameInit(db, s, i);
    if r.None? then marks[|s.frames| := MarkOf(db, s, i)] + [s'.journal] else marks[|s.frames| := s'.journal]
  }

  lemma AllRichAfter(cap: nat, db: Db, marks: seq<Journal>, n: nat, j: Journal)
    requires AllRich(cap, db, marks) && n < |marks| && Rich(cap, db, j)
    ensures AllRich(cap, db, marks + [j]) && AllRich(cap, db, marks[n := j]) && AllRich(cap, db, marks[..n] + [j])
  {
  }

  lemma EnteredMark(cap: nat, db: Db, s: State, i: FrameInput)
    requires Rich(cap, db, s.journal) && SoundEntry(db, s.journal, i) && FrameInit(db, s, i).1.None?
    ensures Rich(cap, db, MarkOf(db, s, i))
  {
    MarkRich(cap, db, s, i);
  }

  lemma InitFits(cap: nat, db: Db, s: State, i: FrameInput, marks: seq<Journal>)
    requires Fits(cap, db, s, marks) && SoundEntry(db, s.journal, i)
    ensures Fits(cap, db, FrameInit(db, s, i).0, MarksAfter(db, s, i, marks))
  {
    var n := |s.frames|;
    var (s', r) := FrameInit(db, s, i);
    assert Rich(cap, db, marks[n]);
    RichIsSound(cap, db, s.journal, i);
    FrameInitWorld(db, s, i, marks);
    FrameInitRich(cap, db, s, i, marks);
    AllRichAfter(cap, db, marks, n, s'.journal);
    if r.None? {
      EnteredMark(cap, db, s, i);
      AllRichAfter(cap, db, marks, n, MarkOf(db, s, i));
      AllRichAfter(cap, db, marks[n := MarkOf(db, s, i)], n, s'.journal);
    }
  }

  lemma InitMarked(cap: nat, db: Db, s: State, i: FrameInput, k: nat, b: Journal)
    requires HasMarks(cap, db, s, k, b) && SoundEntry(db, s.journal, i)
    ensures HasMarks(cap, db, FrameInit(db, s, i).0, k, b)
  {
    var marks :| Marked(cap, db, s, marks, k, b);
    InitFits(cap, db, s, i, marks);
    assert Marked(cap, db, FrameInit(db, s, i).0, MarksAfter(db, s, i, marks), k, b);
  }

  lemma AdvanceNewFrame(cap: nat, db: Db, rules: Rules, s: State, a: Action, k: nat, b: Journal)
    requires s.frames != [] && a.NewFrame? && HasMarks(cap, db, s, k, b) && SoundEntry(db, s.journal, a.input)
    ensures HasMarks(cap, db, Advance(db, rules, s, a).0, k, b)
  {
    SamePlacesMarked(cap, db, s, OpenChild(s), k, b);
    InitMarked(cap, db, OpenChild(s), a.input, k, b);
  }

  lemma GiveBackMarked(cap: nat, db: Db, s: State, r: FrameResult, k: nat, b: Journal)
    requires s.frames != [] && HasMarks(cap, db, s, k, b)
    ensures HasMarks(cap, db, GiveBack(s, r), k, b)
  {
    SamePlacesMarked(cap, db, s, GiveBack(s, r), k, b);
  }

  lemma PoppedState(rules: Rules, s: State, result: InstructionResult, output: Output)
    requires s.frames != []
    ensures var (s', _) := FinishFrame(rules, s, result, output);
            && s'.frames != []
            && PopFinished(s').frames == s.frames[..|s.frames| - 1] && PopFinished(s').journal == s'.journal
  {
    var n := |s.frames| - 1;
    var (s', r) := FinishFrame(rules, s, result, output);
    assert s'.frames[..n] == s.frames[..n];
  }

  lemma FinishFits(cap: nat, db: Db, rules: Rules, s: State, result: InstructionResult, output: Output,
                   marks: seq<Journal>, p: State, r: FrameResult)
    requires s.frames != [] && Fits(cap, db, s, marks)
    requires p == PopFinished(FinishFrame(rules, s, result, output).0) && r == FinishFrame(rules, s, result, output).1
    ensures Left(db, marks[|s.frames| - 1], p.journal, r)
    ensures Fits(cap, db, p, marks[..|s.frames| - 1] + [p.journal])
  {
    var n := |s.frames| - 1;
    assert Rich(cap, db, marks[n]) && Rich(cap, db, marks[n + 1]);
    PoppedState(rules, s, result, output);
    FinishWorld(db, rules, s, result, output, marks);
    FinishRich(cap, db, rules, s, result, output, marks);
    AllRichAfter(cap, db, marks, n, p.journal);
  }

  /** A frame that ends above `floor` leaves the mark at `floor` in place; the one at `floor` is left. */
  lemma FinishMarked(cap: nat, db: Db, rules: Rules, s: State, a: Action, marks: seq<Journal>, floor: nat, b: Journal,
                     p: State, r: FrameResult)
    requires s.frames != [] && a.Return? && Marked(cap, db, s, marks, floor, b)
    requires p == PopFinished(FinishFrame(rules, s, a.result, a.output).0)
    requires r == FinishFrame(rules, s, a.result, a.output).1
    ensures |p.frames| == |s.frames| - 1 && Rich(cap, db, p.journal)
    ensures floor == |p.frames| ==> Left(db, b, p.journal, r)
    ensures floor < |p.frames| ==> HasMarks(cap, db, p, floor, b)
  {
    PoppedState(rules, s, a.result, a.output);
    FinishFits(cap, db, rules, s, a.result, a.output, marks, p, r);
    var n := |p.frames|;
    assert Rich(cap, db, (marks[..n] + [p.journal])[n]);
    if floor < n {
      assert Marked(cap, db, p, marks[..n] + [p.journal], floor, b);
    }
  }

  lemma RunTopMarked(cap: nat, db: Db, rules: Rules, s: State, script: seq<Effect>, floor: nat, b: Journal)
    requires s.frames != [] && HasMarks(cap, db, s, floor, b) && SoundTop(db, rules, s, script)
    ensures HasMarks(cap, db, RunTop(db, rules, s, script).0, floor, b)
    ensures Rich(cap, db, RunTop(db, rules, s, script).0.journal)
  {
    var marks :| Marked(cap, db, s, marks, floor, b);
    RunTopWorld(db, rules, s, script, marks);
    assert Rich(cap, db, marks[|s.frames|]);
    RunTopRich(cap, db, rules, s, script);
    var s1 := RunTop(db, rules, s, script).0;
    assert Marked(cap, db, s1, marks[|s.frames| := s1.journal], floor, b);
  }

  lemma FinishRound(cap: nat, db: Db, rules: Rules, s: State, a: Action, floor: nat, b: Journal, depth: nat, total: nat)
    requires s.frames != [] && a.Return? && HasMarks(cap, db, s, floor, b) && Shape(s, depth, total, 0, false)
    ensures var (s', r) := FinishFrame(rules, s, a.result, a.output);
            var p := PopFinished(s');
            && |p.frames| == |s.frames| - 1
            && (|p.frames| == floor ==> Left(db, b, p.journal, r) && Rich(cap, db, p.journal))
            && (|p.frames| > floor ==>
                  HasMarks(cap, db, GiveBack(p, r), floor, b) && Shape(GiveBack(p, r), depth, total, 0, false))
  {
    var marks :| Marked(cap, db, s, marks, floor, b);
    var (s', r) := FinishFrame(rules, s, a.result, a.output);
    var p := PopFinished(s');
    FinishMarked(cap, db, rules, s, a, marks, floor, b, p, r);
    FinishShape(rules, s, a.result, a.output, depth, total);
    if floor < |p.frames| {
      GiveBackMarked(cap, db, p, r, floor, b);
      GiveBackShape(p, r, depth, total);
    }
  }

  lemma NewFrameRound(cap: nat, db: Db, rules: Rules, s: State, a: Action, floor: nat, b: Journal, depth: nat,
                      total: nat)
    requires s.frames != [] && a.NewFrame? && HasMarks(cap, db, s, floor, b)
    requires Shape(s, depth, total, a.input.gasLimit, false)
    requires InputOk(s.journal, a.input) && SoundEntry(db, s.journal, a.input)
    ensures var (s', r) := Advance(db, rules, s, a);
            && (r.None? ==> HasMarks(cap, db, s', floor, b) && Shape(s', depth, total, 0, false))
            && (r.Some? ==> PopFinished(s') == s' && HasMarks(cap, db, GiveBack(s', r.value), floor, b)
                            && Shape(GiveBack(s', r.value), depth, total, 0, false) && |s'.frames| > floor)
  {
    AdvanceNewFrame(cap, db, rules, s, a, floor, b);
    AdvanceShape(db, rules, s, a, depth, total);
    var (s', r) := Advance(db, rules, s, a);
    if r.Some? {
      GiveBackMarked(cap, db, s', r.value, floor, b);
      GiveBackShape(s', r.value, depth, total);
    }
  }

  /** How a run looks from the frame at `floor` with mark `b`. */
  ghost predicate Watched(cap: nat, db: Db, s: State, r: Option<FrameResult>, floor: nat, b: Journal) {
    && (r.Some? ==> |s.frames| == floor && Left(db, b, s.journal, r.value))
    && (r.None? ==> HasMarks(cap, db, s, floor, b))
    && Rich(cap, db, s.journal)
  }

  /** The frame at `floor` has mark `b`.  Until it returns every state has fitting marks; when it
      returns, either everything since `b` can still be taken back, or the frame failed and the world
      is that of `b`. */
  lemma {:induction false} RunUntilWorld(cap: nat, db: Db, rules: Rules, s: State, script: seq<Effect>, floor: nat,
                                         b: Journal, depth: nat, total: nat)
    requires s.frames != [] && HasMarks(cap, db, s, floor, b) && Shape(s, depth, total, 0, false)
    requires SoundRun(db, rules, s, script, floor)
    ensures var (s', r) := RunUntil(db, rules, s, script, floor);
            Watched(cap, db, s', r, floor, b)
    decreases |script|
  {
    var (s1, a, rest) := RunTop(db, rules, s, script);
    RunTopMarked(cap, db, rules, s, script, floor, b);
    RunTopShape(db, rules, s, script, depth, total);
    if a.Some? {
      var (s2, r) := Advance(db, rules, s1, a.value);
      if a.value.Return? {
        FinishRound(cap, db, rules, s1, a.value, floor, b, depth, total);
        var p := PopFinished(s2);
        if |p.frames| > floor {
          RunUntilWorld(cap, db, rules, GiveBack(p, r.value), rest, floor, b, depth, total);
        }
      } else {
        NewFrameRound(cap, db, rules, s1, a.value, floor, b, depth, total);
        RunUntilWorld(cap, db, rules, if r.None? then s2 else GiveBack(s2, r.value), rest, floor, b, depth, total);
      }
    }
  }

  lemma EnterMarked(cap: nat, db: Db, s: State, i: FrameInput, marks: seq<Journal>)
    requires Fits(cap, db, s, marks) && SoundEntry(db, s.journal, i)
    ensures var (s', r) := FrameInit(db, s, i);
            r.None? && |s'.frames| == |s.frames| + 1 ==> HasMarks(cap, db, s', |s.frames|, MarkOf(db, s, i))
  {
    InitFits(cap, db, s, i, marks);
    var n := |s.frames|;
    var (s', r) := FrameInit(db, s, i);
    if r.None? && |s'.frames| == n + 1 {
      assert Marked(cap, db, s', MarksAfter(db, s, i, marks), n, MarkOf(db, s, i));
    }
  }

  /** For every frame of every call tree: entered from a reachable state `s`, run by any program until
      it returns, it hands back the world of its own checkpoint if it failed. */
  lemma FrameReturns(cap: nat, db: Db, rules: Rules, s: State, i: FrameInput, script: seq<Effect>,
                     marks: seq<Journal>, depth: nat, total: nat)
    requires Fits(cap, db, s, marks)
    requires Shape(s, depth, total, i.gasLimit, true) && InputOk(s.journal, i) && SoundEntry(db, s.journal, i)
    requires s.frames != [] ==> Top(s).child == Some(s.buffer)
    ensures var (s1, r1) := FrameInit(db, s, i);
            if r1.Some? then !r1.value.result.Success? ==> Restored(db, MarkOf(db, s, i), s1.journal)
            else s1.frames != [] &&
                 (SoundRun(db, rules, s1, script, |s.frames|) ==>
                    var (s2, r2) := RunUntil(db, rules, s1, script, |s.frames|);
                    r2.Some? ==> Left(db, MarkOf(db, s, i), s2.journal, r2.value))
  {
    FrameInitShape(db, s, i, depth, total);
    assert Rich(cap, db, marks[|s.frames|]);
    RichIsSound(cap, db, s.journal, i);
    FrameInitWorld(db, s, i, marks);
    var (s1, r1) := FrameInit(db, s, i);
    var n := |s.frames|;
    if r1.None? && SoundRun(db, rules, s1, script, n) {
      EnterMarked(cap, db, s, i, marks);
      RunUntilWorld(cap, db, rules, s1, script, n, MarkOf(db, s, i), depth, total);
    }
  }

  lemma StartFits(cap: nat, db: Db, j: Journal)
    requires Rich(cap, db, j)
    ensures Fits(cap, db, State(j, [], 0, 0), [j])
  {
    assert AllAwaited(db, [], 0, j);
  }

  ghost predicate SoundExec(db: Db, rules: Rules, s: State, first: FrameInput, script: seq<Effect>) {
    && InputOk(s.journal, first) && SoundEntry(db, s.journal, first)
    && var (s1, r1) := FrameInit(db, s, first);
       r1.None? && s1.frames != [] ==> SoundRun(db, rules, s1, script, 0)
  }

  /** The same for the first frame and the loop as the source has it. */
  lemma TransactionReturns(db: Db, rules: Rules, j: Journal, first: FrameInput, script: seq<Effect>)
    requires Inv(db, j) && TotalWei(db, j) < U256_MODULUS && SoundExec(db, rules, State(j, [], 0, 0), first, script)
    ensures var s := State(j, [], 0, 0);
            var (s', r) := RunExec(db, rules, s, first, script);
            r.Some? && !r.value.result.Success? ==> Restored(db, MarkOf(db, s, first), s'.journal)
  {
    var s := State(j, [], 0, 0);
    StartFits(U256_MODULUS, db, j);
    FrameReturns(U256_MODULUS, db, rules, s, first, script, [j], j.depth, first.gasLimit);
    var (s1, r1) := FrameInit(db, s, first);
    if r1.None? {
      RunLoopIsRunUntil(db, rules, s1, script);
    }
  }

  lemma LoopRich(cap: nat, db: Db, rules: Rules, s: State, script: seq<Effect>, b: Journal, depth: nat, total: nat)
    requires s.frames != [] && HasMarks(cap, db, s, 0, b) && Shape(s, depth, total, 0, false)
    requires SoundRun(db, rules, s, script, 0)
    ensures Rich(cap, db, RunLoop(db, rules, s, script).0.journal)
  {
    RunUntilWorld(cap, db, rules, s, script, 0, b, depth, total);
    RunLoopIsRunUntil(db, rules, s, script);
  }

  lemma RunExecRich(cap: nat, db: Db, rules: Rules, s: State, first: FrameInput, script: seq<Effect>)
    requires s.frames == [] && s.burned == 0 && Fits(cap, db, s, [s.journal]) && SoundExec(db, rules, s, first, script)
    ensures Rich(cap, db, RunExec(db, rules, s, first, script).0.journal)
  {
    var depth := s.journal.depth;
    var (s1, r1) := FrameInit(db, s, first);
    if r1.Some? {
      assert Rich(cap, db, [s.journal][0]);
      FrameInitRich(cap, db, s, first, [s.journal]);
    } else {
      FrameInitShape(db, s, first, depth, first.gasLimit);
      EnterMarked(cap, db, s, first, [s.journal]);
      LoopRich(cap, db, rules, s1, script, MarkOf(db, s, first), depth, first.gasLimit);
    }
  }

  /** No execution makes wei: whatever the program, and wherever it stands, there is no more of it than
      before. */
  lemma ExecutionMakesNoWei(db: Db, rules: Rules, j: Journal, first: FrameInput, script: seq<Effect>)
    requires Inv(db, j) && TotalWei(db, j) < U256_MODULUS && SoundExec(db, rules, State(j, [], 0, 0), first, script)
    ensures TotalWei(db, RunExec(db, rules, State(j, [], 0, 0), first, script).0.journal) <= TotalWei(db, j)
  {
    var cap := TotalWei(db, j) + 1;
    StartFits(cap, db, j);
    RunExecRich(cap, db, rules, State(j, [], 0, 0), first, script);
  }

  // ---------- What a failed create leaves behind ----------

  /** The view after a create has bumped its caller and warmed both accounts. */
  function BumpedView(cfg: Config, v: AccountView, isCaller: bool, a: Address): AccountView {
    if isCaller && v.info.nonce < U64_MAX then
      v.(info := v.info.(nonce := v.info.nonce + 1), status := StatusView(cfg, a, v.status.(touched := true)))
    else v
  }

  lemma BumpEffect(db: Db, j: Journal, b: Address, a: Address, k: Key)
    requires Loaded(j, b) && j.state[b].info.nonce < U64_MAX
    ensures var j' := BumpNonce(j, b).0;
            && ViewOf(db, j', a) == BumpedView(j.cfg, ViewOf(db, j, a), a == b, a)
            && SlotOf(db, j', a, k) == SlotOf(db, j, a, k)
            && j'.transient == j.transient && j'.cfg == j.cfg && j'.state.Keys == j.state.Keys
  {
  }

  /** What a load of the caller has left in `j0`, as far as `a` and `k` can see. */
  ghost predicate CallerSeen(db: Db, j: Journal, j0: Journal, caller: Address, a: Address, k: Key) {
    && Inv(db, j0) && j0.cfg == j.cfg && j0.transient == j.transient
    && j0.state.Keys == j.state.Keys + {caller} && Loaded(j0, caller)
    && j0.state[caller].info == ViewOf(db, j, caller).info
    && ViewOf(db, j0, a) == ViewOf(db, j, a).(coldLoad := if a == caller then StaysCold(db, j, a)
                                                          else ViewOf(db, j, a).coldLoad)
    && SlotOf(db, j0, a, k) == SlotOf(db, j, a, k)
  }

  lemma CallerLoaded(db: Db, j: Journal, caller: Address, a: Address, k: Key)
    requires Inv(db, j) && LoadOk(j, caller)
    ensures CallerSeen(db, j, LoadAccount(db, j, caller).0, caller, a, k)
  {
    LoadEffect(db, j, caller, a, k);
    LoadEffect(db, j, caller, caller, k);
    LoadAccountUndoes(db, j, caller);
    LoadKeys(db, j, caller);
  }

  lemma CallerBumped(db: Db, j: Journal, j0: Journal, caller: Address, address: Address, a: Address, k: Key)
    requires CallerSeen(db, j, j0, caller, a, k) && ViewOf(db, j, caller).info.nonce < U64_MAX
    requires LoadOk(BumpNonce(j0, caller).0, address)
    ensures var b := LoadAccount(db, BumpNonce(j0, caller).0, address).0;
            && ViewOf(db, b, a) == BumpedView(j.cfg, ViewOf(db, j, a), a == caller, a)
                                     .(coldLoad := if a == caller == address then false
                                                   else if a == caller || a == address then StaysCold(db, j, a)
                                                   else ViewOf(db, j, a).coldLoad)
            && SlotOf(db, b, a, k) == SlotOf(db, j, a, k)
            && b.transient == j.transient
  {
    BumpEffect(db, j0, caller, a, k);
    BumpNonceUndoes(db, j0, caller);
    var j1 := BumpNonce(j0, caller).0;
    LoadEffect(db, j1, address, a, k);
    BaseCold(db, j, j1, caller, address);
  }

  /** The mark of a create differs from the journal of its caller in nothing but the caller's nonce
      (and touched mark) and the warmth of the two accounts. */
  lemma CreateBaseEffect(db: Db, j: Journal, caller: Address, address: Address, a: Address, k: Key)
    requires Inv(db, j) && LoadOk(j, caller) && ViewOf(db, j, caller).info.nonce < U64_MAX
    requires LoadOk(BumpNonce(LoadAccount(db, j, caller).0, caller).0, address)
    ensures var b := CreateBase(db, j, caller, address);
            && ViewOf(db, b, a) == BumpedView(j.cfg, ViewOf(db, j, a), a == caller, a)
                                     .(coldLoad := if a == caller == address then false
                                                   else if a == caller || a == address then StaysCold(db, j, a)
                                                   else ViewOf(db, j, a).coldLoad)
            && SlotOf(db, b, a, k) == SlotOf(db, j, a, k)
            && b.transient == j.transient
  {
    CallerLoaded(db, j, caller, a, k);
    CallerBumped(db, j, LoadAccount(db, j, caller).0, caller, address, a, k);
  }

  lemma LoadKeys(db: Db, j: Journal, a: Address)
    ensures LoadAccount(db, j, a).0.state.Keys == j.state.Keys + {a}
  {
  }

  lemma BaseCold(db: Db, j: Journal, j1: Journal, caller: Address, address: Address)
    requires j1.cfg == j.cfg && j1.state.Keys == j.state.Keys + {caller}
    ensures StaysCold(db, j1, address) == (address != caller && StaysCold(db, j, address))
  {
  }
}
