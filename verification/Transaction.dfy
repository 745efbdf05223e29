/** A transaction from its first to its last step on the journal, and the transactions of a journal one
    after the other (crates/handler/src/handler.rs, crates/context/src/journal/inner.rs). */
module Transaction {
  import opened Wrappers
  import opened Journal
  import opened JournalOps
  import opened JournalRuns
  import opened JournalEffects
  import opened Frames
  import opened FrameShape
  import opened FrameWorld
  import opened FrameRuns
  import opened FrameWealth
  import opened Wealth

  // ---------- The stages of a transaction ----------

  /** What the handler does to the journal: charging and settling touch single accounts, an authorization
      that passes its checks delegates, the execution runs frames. */
  datatype Stage =
    | Load(a: Address)
    | ChangeBalance(a: Address, balance: U256)
    | Bump(a: Address)
    | Credit(a: Address, amount: U256)
    | Authorize(a: Address, code: Hash)
    | Execute(rules: Rules, first: FrameInput, script: seq<Effect>)

  function PerformStage(db: Db, j: Journal, g: Stage): Journal {
    match g
    case Load(a) => LoadAccount(db, j, a).0
    case ChangeBalance(a, balance) => if Loaded(j, a) then SetBalance(j, a, balance) else j
    case Bump(a) => if Loaded(j, a) then BumpNonce(j, a).0 else j
    case Credit(a, amount) => if Loaded(j, a) then IncrBalance(j, a, amount).0 else j
    case Authorize(a, code) => Delegate(LoadAccount(db, j, a).0, a, code)
    case Execute(rules, first, script) => RunExec(db, rules, State(j, [], 0, 0), first, script).0.journal
  }

  /** An authority must have no code for its delegation to be taken back, see
      `JournalRuns.DelegationTakenBack`. */
  ghost predicate SoundStage(db: Db, j: Journal, g: Stage) {
    match g
    case Load(a) => Loadable(j, a)
    case Authorize(a, _) => Loadable(j, a) && LoadAccount(db, j, a).0.state[a].info.code == KECCAK_EMPTY
    case Execute(rules, first, script) =>
      SoundExec(db, rules, State(j, [], 0, 0), first, script) && InRange(U256_MODULUS, db, j)
    case _ => true
  }

  function Stages(db: Db, j: Journal, gs: seq<Stage>): Journal
    decreases |gs|
  {
    if gs == [] then j else Stages(db, PerformStage(db, j, gs[0]), gs[1..])
  }

  ghost predicate SoundStages(db: Db, j: Journal, gs: seq<Stage>)
    decreases |gs|
  {
    gs == [] || (SoundStage(db, j, gs[0]) && SoundStages(db, PerformStage(db, j, gs[0]), gs[1..]))
  }

  // ---------- Every stage can be taken back ----------

  lemma {:induction false} MarksSince(db: Db, frames: seq<Frame>, marks: seq<Journal>, k: nat)
    requires World(db, frames, marks) && k <= |frames|
    ensures Since(db, marks[k], marks[|frames|])
    decreases |frames| - k
  {
    if k < |frames| {
      assert LevelAt(db, frames, marks, k);
      MarksSince(db, frames, marks, k + 1);
      SinceTransitive(db, marks[k], marks[k + 1], marks[|frames|]);
    } else {
      UndoesReflexive(db, marks[k]);
      SinceUndoes(db, marks[k], marks[k]);
    }
  }

  lemma MarkSince(db: Db, s: State, first: FrameInput)
    requires Inv(db, s.journal) && SoundEntry(db, s.journal, first) && FrameInit(db, s, first).1.None?
    ensures var b := MarkOf(db, s, first); Since(db, s.journal, b) && Inv(db, b)
  {
    if first.CallInput? {
      UndoesReflexive(db, s.journal);
      SinceUndoes(db, s.journal, s.journal);
    } else {
      CreateBaseSafe(db, [], s.journal, first.caller, first.address);
      MarkIsBase(db, s, first, CreateBase(db, s.journal, first.caller, first.address));
    }
  }

  /** After a frame that was refused or has returned, and in the middle of a run. */
  lemma ExecuteSince(db: Db, rules: Rules, j: Journal, first: FrameInput, script: seq<Effect>)
    requires Inv(db, j) && SoundStage(db, j, Execute(rules, first, script))
    ensures Since(db, j, RunExec(db, rules, State(j, [], 0, 0), first, script).0.journal)
  {
    var s := State(j, [], 0, 0);
    assert AllAwaited(db, s.frames, 0, j);
    assert World(db, s.frames, [j]);
    var (s1, r1) := FrameInit(db, s, first);
    FrameInitShape(db, s, first, j.depth, first.gasLimit);
    RichIsSound(U256_MODULUS, db, j, first);
    if r1.Some? {
      RefusedSince(db, s, first);
    } else {
      RunSince(db, rules, s, first, script);
    }
  }

  lemma RefusedSince(db: Db, s: State, first: FrameInput)
    requires s.frames == [] && World(db, s.frames, [s.journal]) && SoundInput(db, s.journal, first)
    requires FrameInit(db, s, first).1.Some?
    ensures Since(db, s.journal, FrameInit(db, s, first).0.journal)
  {
    if first.CallInput? {
      CallRefusedSince(db, s, first);
    } else {
      CreateRefusedSince(db, s, first);
    }
  }

  lemma CallRefusedSince(db: Db, s: State, first: FrameInput)
    requires Inv(db, s.journal) && first.CallInput? && SoundInput(db, s.journal, first)
    requires MakeCallFrame(db, s, first).1.Some?
    ensures Since(db, s.journal, MakeCallFrame(db, s, first).0.journal)
  {
    var j := s.journal;
    var r := MakeCallFrame(db, s, first).1;
    if NextDepth(s) > CALL_STACK_LIMIT {
      UndoesReflexive(db, j);
      SinceUndoes(db, j, j);
    } else {
      var cp := TakeCheckpoint(j).1;
      var j1 := Move(TakeCheckpoint(j).0, first.caller, first.target, first.value).0;
      var j2 := LoadCode(db, j1, first.codeOf);
      CallFrameCases(db, s, first, j1, j2);
      MoveSince(db, j, first);
      var ok := r.value.result.Success?;
      if ok && first.precompile.None? {
        CodeSafe(db, [], j, first);
        CloseSince(db, j, j2, cp, ok);
      } else {
        CloseSince(db, j, j1, cp, ok);
      }
    }
  }

  lemma CreateRefusedSince(db: Db, s: State, first: FrameInput)
    requires Inv(db, s.journal) && first.CreateInput? && SoundInput(db, s.journal, first)
    requires MakeCreateFrame(db, s, first).1.Some?
    ensures Since(db, s.journal, MakeCreateFrame(db, s, first).0.journal)
  {
    var j := s.journal;
    if NextDepth(s) > CALL_STACK_LIMIT {
      UndoesReflexive(db, j);
      SinceUndoes(db, j, j);
    } else {
      var b := CreateBase(db, j, first.caller, first.address);
      CreateCases(db, s, first, b);
      if Early(db, j, first) {
        EarlySafe(db, s, first);
      } else {
        BaseReady(db, s.frames, j, first);
        CreateAccountRestores(db, b, first.caller, first.address, first.endowment);
        var j1 := CreateAccountCheckpoint(b, first.caller, first.address, first.endowment).0;
        SinceRestored(db, b, j1);
        SinceTransitive(db, j, b, j1);
      }
    }
  }

  lemma RunSince(db: Db, rules: Rules, s: State, first: FrameInput, script: seq<Effect>)
    requires s.frames == [] && s.burned == 0 && World(db, s.frames, [s.journal]) && InputOk(s.journal, first)
    requires InRange(U256_MODULUS, db, s.journal) && SoundEntry(db, s.journal, first)
    requires var (s1, r1) := FrameInit(db, s, first);
             r1.None? && s1.frames != [] && SoundRun(db, rules, s1, script, 0)
    ensures Since(db, s.journal, RunLoop(db, rules, FrameInit(db, s, first).0, script).0.journal)
  {
    MarkSince(db, s, first);
    EnteredFits(db, s, first);
    RunSinceMark(db, rules, s.journal, FrameInit(db, s, first).0, script, MarkOf(db, s, first), s.journal.depth,
                 first.gasLimit);
  }

  lemma EnteredFits(db: Db, s: State, first: FrameInput)
    requires s.frames == [] && s.burned == 0 && World(db, s.frames, [s.journal]) && InputOk(s.journal, first)
    requires InRange(U256_MODULUS, db, s.journal) && SoundEntry(db, s.journal, first)
    requires FrameInit(db, s, first).1.None?
    ensures var s1 := FrameInit(db, s, first).0;
            && HasMarks(U256_MODULUS, db, s1, 0, MarkOf(db, s, first))
            && Shape(s1, s.journal.depth, first.gasLimit, 0, false)
  {
    FrameInitShape(db, s, first, s.journal.depth, first.gasLimit);
    OneMark(db, s);
    EnterMarked(U256_MODULUS, db, s, first, [s.journal]);
  }

  lemma OneMark(db: Db, s: State)
    requires s.frames == [] && World(db, s.frames, [s.journal]) && InRange(U256_MODULUS, db, s.journal)
    ensures Fits(U256_MODULUS, db, s, [s.journal])
  {
  }

  lemma RunSinceMark(db: Db, rules: Rules, j: Journal, s: State, script: seq<Effect>, b: Journal, depth: nat,
                     total: nat)
    requires Inv(db, j) && Since(db, j, b) && Inv(db, b)
    requires s.frames != [] && HasMarks(U256_MODULUS, db, s, 0, b) && Shape(s, depth, total, 0, false)
    requires SoundRun(db, rules, s, script, 0)
    ensures Since(db, j, RunLoop(db, rules, s, script).0.journal)
  {
    RunLeavesMark(db, rules, s, script, b, depth, total);
    SinceTransitive(db, j, b, RunLoop(db, rules, s, script).0.journal);
  }

  /** Whether the first frame has returned or not, its mark can be reached. */
  lemma RunLeavesMark(db: Db, rules: Rules, s: State, script: seq<Effect>, b: Journal, depth: nat, total: nat)
    requires s.frames != [] && HasMarks(U256_MODULUS, db, s, 0, b) && Shape(s, depth, total, 0, false)
    requires SoundRun(db, rules, s, script, 0)
    ensures Since(db, b, RunLoop(db, rules, s, script).0.journal)
  {
    RunUntilWorld(U256_MODULUS, db, rules, s, script, 0, b, depth, total);
    RunLoopIsRunUntil(db, rules, s, script);
    var (s', r) := RunUntil(db, rules, s, script, 0);
    if r.None? {
      var marks :| Marked(U256_MODULUS, db, s', marks, 0, b);
      MarksSince(db, s'.frames, marks, 0);
    }
  }

  lemma AuthorizeUndoes(db: Db, j: Journal, a: Address, code: Hash)
    requires Inv(db, j) && SoundStage(db, j, Authorize(a, code))
    ensures Undoes(db, j, PerformStage(db, j, Authorize(a, code)))
  {
    LoadableOk(db, j, a);
    LoadAccountUndoes(db, j, a);
    DelegateUndoes(db, j, LoadAccount(db, j, a).0, a, code);
  }

  lemma DelegateUndoes(db: Db, j: Journal, j1: Journal, a: Address, code: Hash)
    requires Inv(db, j) && Undoes(db, j, j1) && Loaded(j1, a) && j1.state[a].info.code == KECCAK_EMPTY
    ensures Undoes(db, j, Delegate(j1, a, code))
  {
    SetCodeUndoes(db, j1, a, code);
    var j2 := SetCode(j1, a, code);
    BumpNonceUndoes(db, j2, a);
    UndoesTransitive(db, j1, j2, Delegate(j1, a, code));
    UndoesTransitive(db, j, j1, Delegate(j1, a, code));
  }

  lemma StageSince(db: Db, j: Journal, g: Stage)
    requires Inv(db, j) && SoundStage(db, j, g)
    ensures Since(db, j, PerformStage(db, j, g))
  {
    UndoesReflexive(db, j);
    match g {
      case Load(a) => LoadableOk(db, j, a); LoadAccountUndoes(db, j, a);
      case ChangeBalance(a, balance) => if Loaded(j, a) { SetBalanceUndoes(db, j, a, balance); }
      case Bump(a) => if Loaded(j, a) { BumpNonceUndoes(db, j, a); }
      case Credit(a, amount) => if Loaded(j, a) { IncrBalanceUndoes(db, j, a, amount); }
      case Authorize(a, code) => AuthorizeUndoes(db, j, a, code);
      case Execute(rules, first, script) => ExecuteSince(db, rules, j, first, script);
    }
    if !g.Execute? {
      SinceUndoes(db, j, PerformStage(db, j, g));
    }
  }

  lemma {:induction false} StagesSince(db: Db, j: Journal, gs: seq<Stage>)
    requires Inv(db, j) && SoundStages(db, j, gs)
    ensures Since(db, j, Stages(db, j, gs))
    decreases |gs|
  {
    if gs == [] {
      UndoesReflexive(db, j);
      SinceUndoes(db, j, j);
    } else {
      var j1 := PerformStage(db, j, gs[0]);
      StageSince(db, j, gs[0]);
      SinceInv(db, j, j1);
      StagesSince(db, j1, gs[1..]);
      SinceTransitive(db, j, j1, Stages(db, j1, gs[1..]));
    }
  }

  // ---------- From one transaction to the next ----------

  /** Ends the transaction: the accounts stay, everything else starts afresh. */
  function CommitTx(j: Journal, warm: set<Address>): Journal {
    j.(transient := map[], logs := [], depth := 0, entries := [],
       cfg := j.cfg.(txId := j.cfg.txId + 1, warm := warm, warmSlots := {},
                     leftover := set a | a in j.state && Flagged(j.state[a].status)))
  }

  /** No account is marked as created or destroyed by this transaction. */
  ghost predicate Unmarked(db: Db, j: Journal) {
    forall a :: !Flagged(ViewOf(db, j, a).status)
  }

  /** Where every transaction of a journal begins. */
  ghost predicate Begins(db: Db, j: Journal) {
    Inv(db, j) && Unmarked(db, j) && j.entries == [] && j.logs == [] && j.depth == 0
  }

  lemma EmptyBegins(db: Db, cfg: Config)
    requires cfg.leftover == {}
    ensures Begins(db, Journal(map[], map[], [], 0, [], cfg))
  {
    var j := Journal(map[], map[], [], 0, [], cfg);
    forall a
      ensures FlagsOk(j.cfg, a, ViewOf(db, j, a)) && !Flagged(ViewOf(db, j, a).status)
    {
    }
  }

  /** The next transaction sees what this one leaves, except that accounts it destroyed are empty and
      their slots unknown: for those `NextRead` says what a read answers. */
  lemma CommitView(db: Db, j: Journal, warm: set<Address>, a: Address, k: Key)
    requires RepInv(j)
    ensures var gone := ViewOf(db, j, a).status.destroyedLocal;
            var v := ViewOf(db, CommitTx(j, warm), a);
            && v.info == (if gone then EMPTY_INFO else ViewOf(db, j, a).info)
            && v.coldLoad == (a !in warm)
            && !Flagged(v.status)
            && SlotOf(db, CommitTx(j, warm), a, k).value
               == if gone then DbValue(db, a, k) else SlotOf(db, j, a, k).value
  {
    if a in j.state {
      assert AccountRep(j.cfg, a, j.state[a]);
    }
  }

  /** The first read of a slot in the next transaction: what this one leaves, unless the slot is unknown;
      then zero on a created account and the database's value on any other. */
  lemma NextRead(db: Db, j: Journal, warm: set<Address>, a: Address, k: Key)
    requires RepInv(j)
    ensures var read := Sload(db, LoadAccount(db, CommitTx(j, warm), a).0, a, k).1;
            if a !in j.state then read == DbValue(db, a, k)
            else
              var x := Seen(j.cfg, a, j.state[a]);
              read == if !x.status.destroyedLocal && k in x.storage then x.storage[k].present
                      else if x.status.created then 0
                      else DbValue(db, a, k)
  {
    if a in j.state {
      assert AccountRep(j.cfg, a, j.state[a]);
    }
  }

  /** So a slot of a destroyed account reads zero exactly when the account is marked created or the
      database holds zero. */
  lemma DestroyedSlot(db: Db, j: Journal, warm: set<Address>, a: Address, k: Key)
    requires RepInv(j) && ViewOf(db, j, a).status.destroyedLocal
    ensures Sload(db, LoadAccount(db, CommitTx(j, warm), a).0, a, k).1 == 0
            <==> ViewOf(db, j, a).status.created || DbValue(db, a, k) == 0
  {
    NextRead(db, j, warm, a, k);
  }

  lemma CommitBegins(db: Db, j: Journal, warm: set<Address>)
    requires RepInv(j)
    ensures Begins(db, CommitTx(j, warm))
  {
    var r := CommitTx(j, warm);
    forall a | a in r.state
      ensures AccountRep(r.cfg, a, r.state[a])
    {
      assert AccountRep(j.cfg, a, j.state[a]);
    }
    forall a
      ensures FlagsOk(r.cfg, a, ViewOf(db, r, a)) && !Flagged(ViewOf(db, r, a).status)
    {
      CommitView(db, j, warm, a, 0);
    }
  }

  /** What a failed transaction leads to on mainnet. */
  function DiscardTx(j: Journal, warm: set<Address>): Journal {
    CommitTx(RevertEntries(j, 0), warm)
  }

  /** Taking back everything since the transaction began. */
  lemma StagesTakenBack(db: Db, j: Journal, gs: seq<Stage>)
    requires Begins(db, j) && SoundStages(db, j, gs)
    ensures var back := RevertEntries(Stages(db, j, gs), 0); SameWorld(db, j, back) && Inv(db, back)
  {
    var e := Stages(db, j, gs);
    StagesSince(db, j, gs);
    RevertEntriesFrame(e, 0, e.logs, j.depth);
    assert e.(logs := e.logs, depth := j.depth) == e.(depth := j.depth);
    var d := RevertEntries(e.(depth := j.depth), 0);
    RevertEntriesRep(e.(depth := j.depth), 0);
    FlagInvSameWorld(db, j, d);
    var back := RevertEntries(e, 0);
    SameWorldEntries(db, j, d, j, back);
    InvFrame(db, d, back);
  }

  /** Whatever stages the transaction went through, every account is as before. */
  lemma DiscardRestores(db: Db, j: Journal, gs: seq<Stage>, warm: set<Address>, a: Address, k: Key)
    requires Begins(db, j) && SoundStages(db, j, gs)
    ensures var r := DiscardTx(Stages(db, j, gs), warm);
            && ViewOf(db, r, a).info == ViewOf(db, j, a).info
            && SlotOf(db, r, a, k).value == SlotOf(db, j, a, k).value
            && Begins(db, r)
  {
    StagesTakenBack(db, j, gs);
    var back := RevertEntries(Stages(db, j, gs), 0);
    assert ViewOf(db, back, a) == ViewOf(db, j, a) && SlotOf(db, back, a, k) == SlotOf(db, j, a, k);
    CommitView(db, back, warm, a, k);
    CommitBegins(db, back, warm);
  }

  // ---------- Every transaction of a journal ----------

  datatype Tx = Tx(stages: seq<Stage>, discarded: bool, warm: set<Address>)

  function RunTx(db: Db, j: Journal, tx: Tx): Journal {
    var e := Stages(db, j, tx.stages);
    if tx.discarded then DiscardTx(e, tx.warm) else CommitTx(e, tx.warm)
  }

  function RunTxs(db: Db, j: Journal, txs: seq<Tx>): Journal
    decreases |txs|
  {
    if txs == [] then j else RunTxs(db, RunTx(db, j, txs[0]), txs[1..])
  }

  ghost predicate SoundTxs(db: Db, j: Journal, txs: seq<Tx>)
    decreases |txs|
  {
    txs == [] || (SoundStages(db, j, txs[0].stages) && SoundTxs(db, RunTx(db, j, txs[0]), txs[1..]))
  }

  /** After any number of transactions the next one begins where the results about a single one ask it
      to, and with the number of the transactions before it. */
  lemma {:induction false} TransactionsBegin(db: Db, j: Journal, txs: seq<Tx>)
    requires Begins(db, j) && SoundTxs(db, j, txs)
    ensures Begins(db, RunTxs(db, j, txs)) && RunTxs(db, j, txs).cfg.txId == j.cfg.txId + |txs|
    decreases |txs|
  {
    if txs != [] {
      var tx := txs[0];
      if tx.discarded {
        DiscardRestores(db, j, tx.stages, tx.warm, 0, 0);
        StagesTakenBack(db, j, tx.stages);
      } else {
        StagesSince(db, j, tx.stages);
        SinceInv(db, j, Stages(db, j, tx.stages));
        CommitBegins(db, Stages(db, j, tx.stages), tx.warm);
      }
      TransactionsBegin(db, RunTx(db, j, tx), txs[1..]);
    }
  }
}
