/** The execution loop under an inspector (crates/inspector/src/handler.rs, crates/inspector/src/traits.rs)
    and the gas inspector (crates/inspector/src/gas.rs). */
module Inspect {
  import opened Wrappers
  import opened Journal
  import opened JournalOps
  import opened JournalRuns
  import opened Frames

  // ---------- Inspectors ----------

  /** The hooks, each with the inspector's own state `I`.  `start` may answer in place of the frame,
      `end` may rewrite the outcome. */
  datatype Inspector<!I> = Inspector(
    init: (I, State) -> (I, State),
    step: (I, State) -> (I, State),
    stepEnd: (I, State) -> (I, State),
    log: (I, State, nat) -> (I, State),
    selfdestruct: (I, Address, Address, U256) -> I,
    start: (I, State, FrameInput) -> (I, State, FrameInput, Option<FrameResult>),
    end: (I, State, FrameResult) -> (I, State, FrameResult))

  /** An outcome as the hooks may leave it: unchanged, or with its gas spent if it is an error. */
  predicate Rewritten(r: FrameResult, r': FrameResult) {
    r' == r || (r.result.Halted? && r' == r.(gas := SpendAll(r.gas)))
  }

  /** An inspector that watches, and at most spends the gas of failed outcomes. */
  ghost predicate Watches<I(!new)>(p: Inspector<I>) {
    && (forall i, s :: p.init(i, s).1 == s)
    && (forall i, s :: p.step(i, s).1 == s)
    && (forall i, s :: p.stepEnd(i, s).1 == s)
    && (forall i, s, log :: p.log(i, s, log).1 == s)
    && (forall i, s, x :: p.start(i, s, x) == (p.start(i, s, x).0, s, x, None))
    && (forall i, s, r :: p.end(i, s, r).1 == s && Rewritten(r, p.end(i, s, r).2))
  }

  /** An inspector that rewrites nothing. */
  ghost predicate Passive<I(!new)>(p: Inspector<I>) {
    Watches(p) && forall i, s, r :: p.end(i, s, r).2 == r
  }

  // ---------- The inspected loop ----------

  /** After a log was written. */
  ghost function LogHook<I(!new)>(p: Inspector<I>, i: I, s: State, e: Effect): (I, State) {
    if e.Access? && e.op.OpLog? then p.log(i, s, e.op.log) else (i, s)
  }

  /** After a frame that ends by a selfdestruct: the newest entry tells between whom how much moved. */
  ghost function SelfdestructHook<I(!new)>(p: Inspector<I>, i: I, s: State, e: Effect): I {
    var n := |s.journal.entries|;
    if !e.End? || !e.destroyed || n == 0 then i
    else
      match s.journal.entries[n - 1]
      case AccountDestroyed(a, target, _, had) => p.selfdestruct(i, a, target, had)
      case BalanceTransfer(from, to, balance) => p.selfdestruct(i, from, to, balance)
      case _ => i
  }

  /** The hooks run before and after each effect; the loop stops at either of its two exits. */
  ghost function InspectTop<I(!new)>(p: Inspector<I>, db: Db, rules: Rules, i: I, s: State, script: seq<Effect>)
    : (r: (I, State, Option<Action>, seq<Effect>))
    requires Watches(p) && s.frames != []
    ensures |r.1.frames| == |s.frames|
    ensures r.2.Some? ==> |r.3| < |script|
    decreases |script|
  {
    var (i1, s1) := p.step(i, s);
    if script == [] then (i1, s1, None, [])
    else
      var (s2, action) := Exec(db, rules, s1, script[0]);
      var (i2, t2) := LogHook(p, i1, s2, script[0]);
      var (i3, s3) := p.stepEnd(i2, t2);
      if action.Some? then (SelfdestructHook(p, i3, s3, script[0]), s3, action, script[1..])
      else InspectTop(p, db, rules, i3, s3, script[1..])
  }

  /** Gas that the inspector takes from an outcome is burned. */
  ghost function EndHook<I(!new)>(p: Inspector<I>, i: I, s: State, r: FrameResult): (I, State, FrameResult) {
    var (i1, s1, r1) := p.end(i, s, r);
    (i1, s1.(burned := s1.burned + r.gas.remaining - r1.gas.remaining), r1)
  }

  ghost function InspectInit<I(!new)>(p: Inspector<I>, db: Db, i: I, s: State, x: FrameInput)
    : (I, State, Option<FrameResult>)
  {
    var (i1, s1, x1, answer) := p.start(i, s, x);
    if answer.Some? then
      var (i2, s2, r) := EndHook(p, i1, s1, answer.value);
      (i2, s2, Some(r))
    else
      var (s2, result) := FrameInit(db, s1, x1);
      if result.Some? then
        var (i3, s3, r) := EndHook(p, i1, s2, result.value);
        (i3, s3, Some(r))
      else
        var (i3, s3) := p.init(i1, s2);
        (i3, s3, None)
  }

  ghost function InspectAdvance<I(!new)>(p: Inspector<I>, db: Db, rules: Rules, i: I, s: State, a: Action)
    : (r: (I, State, Option<FrameResult>))
    requires Watches(p) && s.frames != []
    ensures r.1.frames != []
  {
    if a.NewFrame? then InspectInit(p, db, i, OpenChild(s), a.input)
    else
      var (s1, r) := FinishFrame(rules, s, a.result, a.output);
      var (i2, s2, r2) := EndHook(p, i, s1, r);
      (i2, s2, Some(r2))
  }

  ghost function InspectLoop<I(!new)>(p: Inspector<I>, db: Db, rules: Rules, i: I, s: State, script: seq<Effect>)
    : (I, State, Option<FrameResult>)
    requires Watches(p) && s.frames != []
    decreases |script|
  {
    var (i1, s1, action, rest) := InspectTop(p, db, rules, i, s, script);
    if action.None? then (i1, s1, None)
    else
      var (i2, s2, result) := InspectAdvance(p, db, rules, i1, s1, action.value);
      if result.None? then InspectLoop(p, db, rules, i2, s2, rest)
      else
        var (s3, done) := ReturnResult(s2, result.value);
        if done.Some? then (i2, s3, done) else InspectLoop(p, db, rules, i2, s3, rest)
  }

  ghost function InspectExec<I(!new)>(p: Inspector<I>, db: Db, rules: Rules, i: I, s: State, first: FrameInput,
                                      script: seq<Effect>)
    : (I, State, Option<FrameResult>)
    requires Watches(p)
  {
    var (i1, s1, result) := InspectInit(p, db, i, s, first);
    if result.Some? || s1.frames == [] then (i1, s1, result) else InspectLoop(p, db, rules, i1, s1, script)
  }

  // ---------- It is the plain loop ----------

  lemma {:induction false} InspectTopIsRunTop<I(!new)>(p: Inspector<I>, db: Db, rules: Rules, i: I, s: State,
                                                       script: seq<Effect>)
    requires Watches(p) && s.frames != []
    ensures var (_, s', a, rest) := InspectTop(p, db, rules, i, s, script);
            (s', a, rest) == RunTop(db, rules, s, script)
    decreases |script|
  {
    var (i1, s1) := p.step(i, s);
    if script != [] {
      var (s2, action) := Exec(db, rules, s1, script[0]);
      var (i2, t2) := LogHook(p, i1, s2, script[0]);
      var (i3, s3) := p.stepEnd(i2, t2);
      if action.None? {
        InspectTopIsRunTop(p, db, rules, i3, s3, script[1..]);
      }
    }
  }

  /** The states differ at most by the gas the inspector took from the outcome. */
  ghost predicate SameOutcome(exact: bool, s: State, r: Option<FrameResult>, s': State, r': Option<FrameResult>) {
    if r.None? then s' == s && r'.None?
    else
      && r'.Some?
      && (if exact then r' == r else Rewritten(r.value, r'.value))
      && s' == s.(burned := s.burned + r.value.gas.remaining - r'.value.gas.remaining)
  }

  lemma InspectInitSame<I(!new)>(exact: bool, p: Inspector<I>, db: Db, i: I, s: State, x: FrameInput)
    requires Watches(p) && (exact ==> Passive(p))
    ensures var (s', r) := FrameInit(db, s, x);
            var (_, t, q) := InspectInit(p, db, i, s, x);
            SameOutcome(exact, s', r, t, q)
  {
  }

  lemma InspectAdvanceSame<I(!new)>(exact: bool, p: Inspector<I>, db: Db, rules: Rules, i: I, s: State, a: Action)
    requires Watches(p) && s.frames != [] && (exact ==> Passive(p))
    ensures var (s', r) := Advance(db, rules, s, a);
            var (_, t, q) := InspectAdvance(p, db, rules, i, s, a);
            SameOutcome(exact, s', r, t, q)
  {
    if a.NewFrame? {
      InspectInitSame(exact, p, db, i, OpenChild(s), a.input);
    }
  }

  /** A waiting frame gets nothing from a failed outcome, so taking its gas changes no ancestor. */
  lemma ReturnSame(exact: bool, s: State, r: FrameResult, s': State, r': FrameResult)
    requires s.frames != [] && SameOutcome(exact, s, Some(r), s', Some(r'))
    ensures var (t, q) := ReturnResult(s, r);
            var (t', q') := ReturnResult(s', r');
            if q.None? then t' == t && q'.None? else SameOutcome(exact, t, q, t', q')
  {
  }

  /** Every run under a watching inspector goes through the same states as the plain loop; only the
      gas of a failed final outcome may be taken. */
  lemma {:induction false} InspectLoopSame<I(!new)>(exact: bool, p: Inspector<I>, db: Db, rules: Rules, i: I,
                                                    s: State, script: seq<Effect>)
    requires Watches(p) && s.frames != [] && (exact ==> Passive(p))
    ensures var (s', r) := RunLoop(db, rules, s, script);
            var (_, t, q) := InspectLoop(p, db, rules, i, s, script);
            SameOutcome(exact, s', r, t, q)
    decreases |script|
  {
    var (i1, s1, action, rest) := InspectTop(p, db, rules, i, s, script);
    InspectTopIsRunTop(p, db, rules, i, s, script);
    if action.Some? {
      InspectAdvanceSame(exact, p, db, rules, i1, s1, action.value);
      var (s2, result) := Advance(db, rules, s1, action.value);
      var (i2, t2, result') := InspectAdvance(p, db, rules, i1, s1, action.value);
      if result.None? {
        InspectLoopSame(exact, p, db, rules, i2, s2, rest);
      } else {
        ReturnSame(exact, s2, result.value, t2, result'.value);
        var (s3, done) := ReturnResult(s2, result.value);
        if done.None? {
          InspectLoopSame(exact, p, db, rules, i2, s3, rest);
        }
      }
    }
  }

  lemma InspectExecSame<I(!new)>(exact: bool, p: Inspector<I>, db: Db, rules: Rules, i: I, s: State,
                                 first: FrameInput, script: seq<Effect>)
    requires Watches(p) && (exact ==> Passive(p))
    ensures var (s', r) := RunExec(db, rules, s, first, script);
            var (_, t, q) := InspectExec(p, db, rules, i, s, first, script);
            SameOutcome(exact, s', r, t, q)
  {
    InspectInitSame(exact, p, db, i, s, first);
    var (s1, result) := FrameInit(db, s, first);
    var (i1, t1, result') := InspectInit(p, db, i, s, first);
    if result.None? && s1.frames != [] {
      InspectLoopSame(exact, p, db, rules, i1, s1, script);
    }
  }

  /** A passive inspector changes nothing at all. */
  lemma PassiveIsPlain<I(!new)>(p: Inspector<I>, db: Db, rules: Rules, i: I, s: State, first: FrameInput,
                                script: seq<Effect>)
    requires Passive(p)
    ensures var (_, t, q) := InspectExec(p, db, rules, i, s, first, script);
            (t, q) == RunExec(db, rules, s, first, script)
  {
    InspectExecSame(true, p, db, rules, i, s, first, script);
  }

  // ---------- The gas inspector ----------

  datatype GasInspector = GasInspector(remaining: nat, lastCost: nat)

  function Running(s: State): Gas {
    if s.frames == [] then NewGas(0) else Top(s).gas
  }

  function GasInit(i: GasInspector, s: State): (GasInspector, State) {
    (i.(remaining := Running(s).limit), s)
  }

  function GasStep(i: GasInspector, s: State): (GasInspector, State) {
    (i.(remaining := Running(s).remaining), s)
  }

  function GasStepEnd(i: GasInspector, s: State): (GasInspector, State) {
    var left := Running(s).remaining;
    (GasInspector(left, if i.remaining < left then 0 else i.remaining - left), s)
  }

  function GasLog(i: GasInspector, s: State, log: nat): (GasInspector, State) {
    (i, s)
  }

  function GasSelfdestruct(i: GasInspector, a: Address, target: Address, balance: U256): GasInspector {
    i
  }

  function GasStart(i: GasInspector, s: State, x: FrameInput): (GasInspector, State, FrameInput, Option<FrameResult>) {
    (i, s, x, None)
  }

  function GasEnd(i: GasInspector, s: State, r: FrameResult): (GasInspector, State, FrameResult) {
    if r.result.Halted? then (i.(remaining := 0), s, r.(gas := SpendAll(r.gas))) else (i, s, r)
  }

  const GAS_INSPECTOR: Inspector<GasInspector> :=
    Inspector(GasInit, GasStep, GasStepEnd, GasLog, GasSelfdestruct, GasStart, GasEnd)

  /** Spending the gas of failed outcomes changes no state before the end and not the gas with which
      the transaction is settled. */
  lemma GasInspectorSettles(db: Db, rules: Rules, i: GasInspector, s: State, first: FrameInput, script: seq<Effect>)
    ensures Watches(GAS_INSPECTOR)
    ensures var (s', r) := RunExec(db, rules, s, first, script);
            var (_, t, q) := InspectExec(GAS_INSPECTOR, db, rules, i, s, first, script);
            && t == s'.(burned := t.burned)
            && (r.None? ==> q.None? && t == s')
            && (r.Some? ==> q.Some? && q.value.result == r.value.result
                            && LastFrameGas(first.gasLimit, q.value) == LastFrameGas(first.gasLimit, r.value))
  {
    InspectExecSame(false, GAS_INSPECTOR, db, rules, i, s, first, script);
  }
}
