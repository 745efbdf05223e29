/** The execution loop over call frames (crates/handler/src/frame.rs, crates/handler/src/evm.rs,
    crates/handler/src/handler.rs, crates/interpreter/src/gas.rs, crates/interpreter/src/interpreter.rs).
    What the opcodes do is left open: a run is driven by a script of the effects an instruction can
    have, so a statement about every script is a statement about every program. */
module Frames {
  import opened Wrappers
  import opened Journal
  import opened JournalOps
  import opened JournalRuns

  // ---------- Gas ----------

  const U64_MODULUS: int := 0x1_0000_0000_0000_0000
  const CALL_STACK_LIMIT: nat := 1024
  const CALL_STIPEND: nat := 2300
  const CALL_VALUE: nat := 9000
  const CODE_DEPOSIT: nat := 200
  const NEW_ACCOUNT: nat := 25000
  const WARM_READ: nat := 100
  const COLD_ACCESS_ADDITIONAL: nat := 2500

  datatype Gas = Gas(limit: nat, remaining: nat, refunded: int)

  function NewGas(limit: nat): Gas {
    Gas(limit, limit, 0)
  }

  function RecordCost(g: Gas, cost: nat): (Gas, bool) {
    if cost <= g.remaining then (g.(remaining := g.remaining - cost), true) else (g, false)
  }

  /** Wraps around on underflow; the flag says so. */
  function RecordCostUnsafe(g: Gas, cost: nat): (Gas, bool) {
    (g.(remaining := (g.remaining - cost) % U64_MODULUS), g.remaining < cost)
  }

  function SpendAll(g: Gas): Gas {
    g.(remaining := 0)
  }

  function EraseCost(g: Gas, returned: nat): Gas {
    g.(remaining := g.remaining + returned)
  }

  function AllButOne64th(remaining: nat): nat {
    remaining - remaining / 64
  }

  // ---------- Frames ----------

  /** The three classes of instruction results: ok, revert and error. */
  datatype InstructionResult = Success | Reverted | Halted

  /** Of the returned bytes: their number, whether the first is 0xEF, and their hash as code. */
  datatype Output = Output(length: nat, startsWithEF: bool, hash: Hash)

  const NO_OUTPUT: Output := Output(0, false, KECCAK_EMPTY)

  datatype FrameKind = CallFrame | CreateFrame(address: Address)

  /** `start` is where this frame's memory begins in the shared buffer, `child` where the memory of an
      open child context begins. */
  datatype Frame = Frame(
    kind: FrameKind, target: Address, depth: nat, checkpoint: Checkpoint, gas: Gas,
    start: nat, child: Option<nat>, isFinished: bool)

  datatype PrecompileReply = PrecompileReply(result: InstructionResult, used: nat)

  /** `value` is absent for a delegate call; `codeOf` is the account whose code has to be loaded when
      the call does not bring it along.  The last two fields are what the precompile provider and the
      code answer. */
  datatype FrameInput =
    | CallInput(caller: Address, target: Address, value: Option<U256>, gasLimit: nat, codeOf: Option<Address>,
                precompile: Option<PrecompileReply>, hasCode: bool)
    | CreateInput(caller: Address, address: Address, endowment: U256, gasLimit: nat)

  datatype Action = NewFrame(input: FrameInput) | Return(result: InstructionResult, output: Output)

  datatype FrameResult = FrameResult(result: InstructionResult, gas: Gas)

  datatype CallScheme = Call | CallCode | DelegateCall | StaticCall

  /** `destroyed` says that the frame ends by a selfdestruct; `delegate` is the account that the code of
      the callee delegates to, if it is a delegation. */
  datatype Effect =
    | Step(cost: nat)
    | Charge(cost: nat)
    | Refund(amount: int)
    | Access(op: HostOp)
    | Grow(bytes: nat)
    | End(result: InstructionResult, output: Output, destroyed: bool)
    | SubCall(scheme: CallScheme, to: Address, value: U256, stackGas: nat, delegate: Option<Address>,
              precompile: Option<PrecompileReply>, hasCode: bool)
    | SubCreate(address: Address, value: U256)

  /** The fork rules that the frame code consults. */
  datatype Rules = Rules(
    tangerine: bool, homestead: bool, berlin: bool, london: bool, allowEF: bool, maxCodeSize: nat)

  /** `burned` counts the gas that is gone for good: charges, and what failed frames forfeit. */
  datatype State = State(journal: Journal, frames: seq<Frame>, buffer: nat, burned: int)

  function Top(s: State): Frame
    requires s.frames != []
  {
    s.frames[|s.frames| - 1]
  }

  function SetTop(s: State, f: Frame): State
    requires s.frames != []
  {
    s.(frames := s.frames[|s.frames| - 1 := f])
  }

  /** Replaces the gas of the running frame; what it lost beyond `kept` is burned. */
  function SetGas(s: State, g: Gas, kept: nat): State
    requires s.frames != []
  {
    SetTop(s, Top(s).(gas := g)).(burned := s.burned + Top(s).gas.remaining - g.remaining - kept)
  }

  // ---------- One effect of the running frame ----------

  function OutOfGas(s: State): (State, Option<Action>)
    requires s.frames != []
  {
    (SetGas(s, SpendAll(Top(s).gas), 0), Some(Return(Halted, NO_OUTPUT)))
  }

  function ChargeTop(s: State, cost: nat): (State, Option<Action>)
    requires s.frames != []
  {
    var (g, ok) := RecordCost(Top(s).gas, cost);
    if ok then (SetGas(s, g, 0), None) else OutOfGas(s)
  }

  function StepTop(s: State, cost: nat): (State, Option<Action>)
    requires s.frames != []
  {
    var (g, oog) := RecordCostUnsafe(Top(s).gas, cost);
    if oog then (SetGas(s, SpendAll(g), 0), Some(Return(Halted, NO_OUTPUT))) else (SetGas(s, g, 0), None)
  }

  function Transfers(scheme: CallScheme, value: U256): bool {
    value != 0 && (scheme.Call? || scheme.CallCode?)
  }

  function ChildLimit(rules: Rules, remaining: nat, stackGas: nat): nat {
    if rules.tangerine && AllButOne64th(remaining) < stackGas then AllButOne64th(remaining) else stackGas
  }

  function WithStipend(limit: nat, transfers: bool): nat {
    if !transfers then limit
    else if limit + CALL_STIPEND > U64_MAX then U64_MAX else limit + CALL_STIPEND
  }

  function CallStatic(rules: Rules, transfers: bool): nat {
    (if rules.berlin then WARM_READ else if rules.tangerine then 700 else 40) + if transfers then CALL_VALUE else 0
  }

  /** What the running frame passes to the new one. */
  function CallInputOf(self: Address, e: Effect, limit: nat): FrameInput
    requires e.SubCall?
  {
    CallInput(self,
              if e.scheme.Call? || e.scheme.StaticCall? then e.to else self,
              match e.scheme
              case DelegateCall => None
              case StaticCall => Some(0)
              case _ => Some(e.value),
              limit, None, e.precompile, e.hasCode)
  }

  predicate IsEmptyAccount(spuriousDragon: bool, x: Account) {
    if spuriousDragon then IsEmptyInfo(x.info) else x.status.notExisting && !x.status.touched
  }

  function NewAccountCost(spuriousDragon: bool, transfers: bool): nat {
    if !spuriousDragon || transfers then NEW_ACCOUNT else 0
  }

  function ColdCost(cold: bool): nat {
    if cold then COLD_ACCESS_ADDITIONAL else 0
  }

  /** The accounts a call has loaded, and what that costs.  There is no cost if the gas ran out: then
      the load of a cold account was skipped. */
  datatype Lookup = Lookup(loads: seq<HostOp>, cost: Option<nat>)

  /** The callee, and after it the account that its code delegates to. */
  function LoadDelegated(db: Db, rules: Rules, j: Journal, remaining: nat, e: Effect): Lookup
    requires e.SubCall?
  {
    var (j1, cold) := LoadAccount(db, j, e.to);
    var cost := ColdCost(rules.berlin && cold);
    if cost > remaining then Lookup([], None)
    else if e.scheme.Call? && IsEmptyAccount(j.cfg.spuriousDragon, j1.state[e.to]) then
      Lookup([OpLoad(e.to)], Some(cost + NewAccountCost(j.cfg.spuriousDragon, Transfers(e.scheme, e.value))))
    else if e.delegate.None? then Lookup([OpLoad(e.to)], Some(cost))
    else if cost + WARM_READ > remaining then Lookup([OpLoad(e.to)], None)
    else
      var cost2 := cost + WARM_READ + ColdCost(LoadAccount(db, j1, e.delegate.value).1);
      if cost2 > remaining then Lookup([OpLoad(e.to)], None)
      else Lookup([OpLoad(e.to), OpLoad(e.delegate.value)], Some(cost2))
  }

  /** What the lookup of a call costs when all of it is done. */
  function LookupCost(db: Db, rules: Rules, j: Journal, e: Effect): nat
    requires e.SubCall?
  {
    var (j1, cold) := LoadAccount(db, j, e.to);
    ColdCost(rules.berlin && cold)
    + if e.scheme.Call? && IsEmptyAccount(j.cfg.spuriousDragon, j1.state[e.to]) then
        NewAccountCost(j.cfg.spuriousDragon, Transfers(e.scheme, e.value))
      else if e.delegate.None? then 0
      else WARM_READ + ColdCost(LoadAccount(db, j1, e.delegate.value).1)
  }

  /** Skipping a load decides nothing: a call stops there exactly when its gas does not cover the whole
      lookup, and otherwise pays for all of it. */
  lemma SkippedForGas(db: Db, rules: Rules, j: Journal, remaining: nat, e: Effect)
    requires e.SubCall?
    ensures var cost := LoadDelegated(db, rules, j, remaining, e).cost;
            && (cost.Some? ==> cost.value == LookupCost(db, rules, j, e))
            && (cost.None? ==> remaining < LookupCost(db, rules, j, e))
  {
  }

  /** Dynamic charge, then the gas of the callee. */
  function CallLoaded(rules: Rules, s: State, e: Effect, g: Gas, cost: Option<nat>): (State, Option<Action>)
    requires s.frames != [] && e.SubCall?
  {
    var (g2, ok2) := if cost.None? then (g, false) else RecordCost(g, cost.value);
    if !ok2 then OutOfGas(s)
    else
      var limit := ChildLimit(rules, g2.remaining, e.stackGas);
      var (g3, ok3) := RecordCost(g2, limit);
      if !ok3 then OutOfGas(s)
      else
        var granted := WithStipend(limit, Transfers(e.scheme, e.value));
        (SetGas(s, g3, granted), Some(NewFrame(CallInputOf(Top(s).target, e, granted))))
  }

  /** Static charge and the loads come first. */
  function CallTop(db: Db, rules: Rules, s: State, e: Effect): (State, Option<Action>)
    requires s.frames != [] && e.SubCall?
  {
    var (g1, ok1) := RecordCost(Top(s).gas, CallStatic(rules, Transfers(e.scheme, e.value)));
    if !ok1 then OutOfGas(s)
    else
      var look := LoadDelegated(db, rules, s.journal, g1.remaining, e);
      CallLoaded(rules, s.(journal := PerformAll(db, s.journal, look.loads)), e, g1, look.cost)
  }

  function CreateTop(rules: Rules, s: State, e: Effect): (State, Option<Action>)
    requires s.frames != [] && e.SubCreate?
  {
    var g := Top(s).gas;
    var limit := if rules.tangerine then AllButOne64th(g.remaining) else g.remaining;
    var (g1, ok) := RecordCost(g, limit);
    if !ok then OutOfGas(s)
    else (SetGas(s, g1, limit), Some(NewFrame(CreateInput(Top(s).target, e.address, e.value, limit))))
  }

  function Exec(db: Db, rules: Rules, s: State, e: Effect): (State, Option<Action>)
    requires s.frames != []
  {
    match e
    case Step(cost) => StepTop(s, cost)
    case Charge(cost) => ChargeTop(s, cost)
    case Refund(amount) => (SetTop(s, Top(s).(gas := Top(s).gas.(refunded := Top(s).gas.refunded + amount))), None)
    case Access(op) => (s.(journal := Perform(db, s.journal, op)), None)
    case Grow(bytes) => (s.(buffer := s.buffer + bytes), None)
    case End(result, output, _) => (s, Some(Return(result, output)))
    case SubCall(_, _, _, _, _, _, _) => CallTop(db, rules, s, e)
    case SubCreate(_, _) => CreateTop(rules, s, e)
  }

  /** Runs the top frame until it sets an action or the script ends. */
  function RunTop(db: Db, rules: Rules, s: State, script: seq<Effect>): (r: (State, Option<Action>, seq<Effect>))
    requires s.frames != []
    ensures |r.0.frames| == |s.frames|
    ensures r.1.Some? ==> |r.2| < |script|
    decreases |script|
  {
    if script == [] then (s, None, [])
    else
      var (s1, action) := Exec(db, rules, s, script[0]);
      if action.Some? then (s1, action, script[1..]) else RunTop(db, rules, s1, script[1..])
  }

  // ---------- Entering a frame ----------

  function ErrorResult(e: TransferError): InstructionResult {
    if e.OutOfFunds? then Reverted else Halted
  }

  /** The source expects both accounts to be loaded; `Shape` in module FrameShape says that they are. */
  function Move(j: Journal, from: Address, to: Address, v: Option<U256>): (Journal, Option<TransferError>) {
    if v.None? || !Loaded(j, from) || !Loaded(j, to) then (j, None) else TransferLoaded(j, from, to, v.value)
  }

  function Close(j: Journal, cp: Checkpoint, ok: bool): Journal {
    if ok then CommitCheckpoint(j) else RevertToCheckpoint(j, cp)
  }

  function PrecompileResult(p: PrecompileReply, limit: nat): FrameResult {
    if p.result.Halted? || p.used > limit then FrameResult(Halted, NewGas(limit))
    else FrameResult(p.result, NewGas(limit).(remaining := limit - p.used))
  }

  /** The first frame has depth 0, every other one its creator's depth plus one. */
  function NextDepth(s: State): nat {
    if s.frames == [] then 0 else Top(s).depth + 1
  }

  function PushFrame(s: State, j: Journal, kind: FrameKind, target: Address, cp: Checkpoint, limit: nat): State {
    s.(journal := j,
       frames := s.frames + [Frame(kind, target, NextDepth(s), cp, NewGas(limit), s.buffer, None, false)])
  }

  /** The code comes with the call, or it is loaded here. */
  function LoadCode(db: Db, j: Journal, codeOf: Option<Address>): Journal {
    if codeOf.None? then j else LoadAccount(db, j, codeOf.value).0
  }

  /** Without code the call is over. */
  function EnterCode(db: Db, s: State, i: FrameInput, cp: Checkpoint): (State, Option<FrameResult>)
    requires i.CallInput?
  {
    var j := LoadCode(db, s.journal, i.codeOf);
    if !i.hasCode then (s.(journal := CommitCheckpoint(j)), Some(FrameResult(Success, NewGas(i.gasLimit))))
    else (PushFrame(s, j, CallFrame, i.target, cp, i.gasLimit), None)
  }

  /** With the value moved, or not: an error, a precompile or the code decides. */
  function CallMoved(db: Db, s: State, i: FrameInput, cp: Checkpoint, err: Option<TransferError>)
    : (State, Option<FrameResult>)
    requires i.CallInput?
  {
    if err.Some? then
      (s.(journal := RevertToCheckpoint(s.journal, cp)), Some(FrameResult(ErrorResult(err.value), NewGas(i.gasLimit))))
    else if i.precompile.Some? then
      var r := PrecompileResult(i.precompile.value, i.gasLimit);
      var j := Close(s.journal, cp, r.result.Success?);
      (s.(journal := j, burned := s.burned + i.gasLimit - r.gas.remaining), Some(r))
    else EnterCode(db, s, i, cp)
  }

  function MakeCallFrame(db: Db, s: State, i: FrameInput): (State, Option<FrameResult>)
    requires i.CallInput?
  {
    if NextDepth(s) > CALL_STACK_LIMIT then (s, Some(FrameResult(Reverted, NewGas(i.gasLimit))))
    else
      var (j0, cp) := TakeCheckpoint(s.journal);
      var (j1, err) := Move(j0, i.caller, i.target, i.value);
      CallMoved(db, s.(journal := j1), i, cp, err)
  }

  /** The journal in which a create takes its checkpoint: caller loaded and bumped, address loaded. */
  function CreateBase(db: Db, j: Journal, caller: Address, address: Address): Journal {
    LoadAccount(db, BumpNonce(LoadAccount(db, j, caller).0, caller).0, address).0
  }

  function MakeCreateFrame(db: Db, s: State, i: FrameInput): (State, Option<FrameResult>)
    requires i.CreateInput?
  {
    if NextDepth(s) > CALL_STACK_LIMIT then (s, Some(FrameResult(Reverted, NewGas(i.gasLimit))))
    else
      var j0 := LoadAccount(db, s.journal, i.caller).0;
      if j0.state[i.caller].info.balance < i.endowment then
        (s.(journal := j0), Some(FrameResult(Reverted, NewGas(i.gasLimit))))
      else if !BumpNonce(j0, i.caller).1 then
        (s.(journal := BumpNonce(j0, i.caller).0), Some(FrameResult(Success, NewGas(i.gasLimit))))
      else
        var b := CreateBase(db, s.journal, i.caller, i.address);
        var (j1, cp, err) := CreateAccountCheckpoint(b, i.caller, i.address, i.endowment);
        if err.Some? then (s.(journal := j1), Some(FrameResult(ErrorResult(err.value), NewGas(i.gasLimit))))
        else (PushFrame(s, j1, CreateFrame(i.address), i.address, cp, i.gasLimit), None)
  }

  function FrameInit(db: Db, s: State, i: FrameInput): (State, Option<FrameResult>) {
    if i.CallInput? then MakeCallFrame(db, s, i) else MakeCreateFrame(db, s, i)
  }

  // ---------- Leaving a frame ----------

  function DepositedCode(rules: Rules, g: Gas, output: Output): Output {
    if RecordCost(g, output.length * CODE_DEPOSIT).1 then output else NO_OUTPUT
  }

  function CreateRejected(rules: Rules, g: Gas, result: InstructionResult, output: Output, spuriousDragon: bool): bool {
    || !result.Success?
    || (!rules.allowEF && rules.london && output.startsWithEF)
    || (spuriousDragon && output.length > rules.maxCodeSize)
    || (rules.homestead && !RecordCost(g, output.length * CODE_DEPOSIT).1)
  }

  function Install(j: Journal, a: Address, code: Hash): Journal {
    if a in j.state then SetCode(j, a, code) else j
  }

  function ReturnCreate(rules: Rules, j: Journal, f: Frame, result: InstructionResult, output: Output)
    : (Journal, FrameResult)
    requires f.kind.CreateFrame?
  {
    if CreateRejected(rules, f.gas, result, output, j.cfg.spuriousDragon) then
      (RevertToCheckpoint(j, f.checkpoint), FrameResult(if result.Success? then Halted else result, f.gas))
    else
      (Install(CommitCheckpoint(j), f.kind.address, DepositedCode(rules, f.gas, output).hash),
       FrameResult(Success, RecordCost(f.gas, output.length * CODE_DEPOSIT).0))
  }

  function FinishFrame(rules: Rules, s: State, result: InstructionResult, output: Output): (State, FrameResult)
    requires s.frames != []
  {
    var f := Top(s);
    var (j, r) := if f.kind.CallFrame? then
                    (Close(s.journal, f.checkpoint, result.Success?), FrameResult(result, f.gas))
                  else ReturnCreate(rules, s.journal, f, result, output);
    (SetTop(s, f.(isFinished := true)).(journal := j, burned := s.burned + f.gas.remaining - r.gas.remaining), r)
  }

  /** Opens the memory context of a child where the buffer now ends. */
  function OpenChild(s: State): State
    requires s.frames != []
  {
    SetTop(s, Top(s).(child := Some(s.buffer)))
  }

  function Advance(db: Db, rules: Rules, s: State, a: Action): (r: (State, Option<FrameResult>))
    requires s.frames != []
    ensures r.0.frames != []
  {
    if a.NewFrame? then FrameInit(db, OpenChild(s), a.input)
    else
      var (s1, r) := FinishFrame(rules, s, a.result, a.output);
      (s1, Some(r))
  }

  function PopFinished(s: State): State
    requires s.frames != []
  {
    if Top(s).isFinished then s.(frames := s.frames[..|s.frames| - 1]) else s
  }

  function GasAfter(g: Gas, r: FrameResult): Gas {
    var g1 := if r.result.Halted? then g else EraseCost(g, r.gas.remaining);
    if r.result.Success? then g1.(refunded := g1.refunded + r.gas.refunded) else g1
  }

  /** Frees the child context and hands the result to the frame that waited for it. */
  function GiveBack(s: State, r: FrameResult): State
    requires s.frames != []
  {
    var f := Top(s);
    SetTop(s, f.(child := None, gas := GasAfter(f.gas, r)))
      .(buffer := if f.child.Some? then f.child.value else s.buffer,
        burned := s.burned + if r.result.Halted? then r.gas.remaining else 0)
  }

  function ReturnResult(s: State, r: FrameResult): (State, Option<FrameResult>)
    requires s.frames != []
  {
    var s1 := PopFinished(s);
    if s1.frames == [] then (s1, Some(r)) else (GiveBack(s1, r), None)
  }

  // ---------- The loop ----------

  function RunLoop(db: Db, rules: Rules, s: State, script: seq<Effect>): (State, Option<FrameResult>)
    requires s.frames != []
    decreases |script|
  {
    var (s1, action, rest) := RunTop(db, rules, s, script);
    if action.None? then (s1, None)
    else
      var (s2, result) := Advance(db, rules, s1, action.value);
      if result.None? then RunLoop(db, rules, s2, rest)
      else
        var (s3, done) := ReturnResult(s2, result.value);
        if done.Some? then (s3, done) else RunLoop(db, rules, s3, rest)
  }

  /** The same loop, watched until the frame at height `floor` has returned. */
  function RunUntil(db: Db, rules: Rules, s: State, script: seq<Effect>, floor: nat): (State, Option<FrameResult>)
    requires s.frames != []
    decreases |script|
  {
    var (s1, action, rest) := RunTop(db, rules, s, script);
    if action.None? then (s1, None)
    else
      var (s2, result) := Advance(db, rules, s1, action.value);
      if result.None? then RunUntil(db, rules, s2, rest, floor)
      else
        var p := PopFinished(s2);
        if |p.frames| <= floor then (p, result) else RunUntil(db, rules, GiveBack(p, result.value), rest, floor)
  }

  lemma {:induction false} RunLoopIsRunUntil(db: Db, rules: Rules, s: State, script: seq<Effect>)
    requires s.frames != []
    ensures RunLoop(db, rules, s, script) == RunUntil(db, rules, s, script, 0)
    decreases |script|
  {
    var (s1, action, rest) := RunTop(db, rules, s, script);
    if action.Some? {
      var (s2, result) := Advance(db, rules, s1, action.value);
      if result.None? {
        RunLoopIsRunUntil(db, rules, s2, rest);
      } else if PopFinished(s2).frames != [] {
        RunLoopIsRunUntil(db, rules, GiveBack(PopFinished(s2), result.value), rest);
      }
    }
  }

  /** The whole execution of a transaction's first frame. */
  function RunExec(db: Db, rules: Rules, s: State, first: FrameInput, script: seq<Effect>)
    : (State, Option<FrameResult>)
  {
    var (s1, result) := FrameInit(db, s, first);
    if result.Some? || s1.frames == [] then (s1, result) else RunLoop(db, rules, s1, script)
  }

  /** The transaction's gas after its first frame: only what an ok or reverted frame left comes back,
      and only an ok frame's refund counts. */
  function LastFrameGas(limit: nat, r: FrameResult): Gas {
    GasAfter(Gas(limit, 0, 0), r)
  }
}
