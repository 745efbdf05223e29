/** Fee settlement on Optimism (crates/op-revm/src/handler.rs, crates/op-revm/src/l1block.rs): L1 data
    fee, operator fee and the cache of the L1 fee between charging and paying out. */
module OpSettlement {
  import opened Wrappers
  import opened Journal
  import opened Frames
  import opened Settlement
  import L = Ledger

  const L1_FEE_RECIPIENT: Address := 0x420000000000000000000000000000000000001A
  const OPERATOR_FEE_RECIPIENT: Address := 0x420000000000000000000000000000000000001B
  const BASE_FEE_RECIPIENT: Address := 0x4200000000000000000000000000000000000019
  const OPERATOR_FEE_SCALAR_DECIMAL: nat := 1_000_000
  const OPERATOR_FEE_JOVIAN_MULTIPLIER: nat := 100

  datatype OpSpec = OpSpec(regolith: bool, ecotone: bool, fjord: bool, isthmus: bool, jovian: bool)

  /** What the fee formulas read from the enveloped bytes: whether they are empty or start with 0x7E,
      the tokens of the calldata, and the estimated compressed size. */
  datatype Envelope = Envelope(isEmpty: bool, startsWith7E: bool, tokens: nat, estimatedSize: nat)

  datatype L1Info = L1Info(
    l2Block: Option<nat>, baseFee: nat, feeOverhead: Option<nat>, baseFeeScalar: nat, blobBaseFee: Option<nat>,
    blobBaseFeeScalar: Option<nat>, operatorScalar: Option<nat>, operatorConstant: Option<nat>,
    emptyEcotoneScalars: bool, txL1Cost: Option<nat>)

  function Saturated256(x: nat): nat { Min(x, U256_MODULUS - 1) }
  function OrZero(x: Option<nat>): nat { if x.Some? then x.value else 0 }

  // ---------- Formulas ----------

  /** Bytes that the charging path takes for those of a deposit. */
  predicate Special(e: Envelope) {
    e.isEmpty || e.startsWith7E
  }

  function DataGas(e: Envelope, spec: OpSpec): nat {
    if spec.fjord then Saturated256(e.estimatedSize * 16) / 1_000_000
    else Min((e.tokens + if spec.regolith then 0 else 68 * 4) * 4, U64_MAX)
  }

  function FeeScaled(l1: L1Info): nat {
    Saturated256(Saturated256(Saturated256(l1.baseFee * 16) * l1.baseFeeScalar)
                 + Saturated256(OrZero(l1.blobBaseFee) * OrZero(l1.blobBaseFeeScalar)))
  }

  function BedrockCost(l1: L1Info, e: Envelope, spec: OpSpec): nat {
    var gas := Saturated256(DataGas(e, spec) + OrZero(l1.feeOverhead));
    Saturated256(Saturated256(gas * l1.baseFee) * l1.baseFeeScalar) / 1_000_000
  }

  function EcotoneCost(l1: L1Info, e: Envelope, spec: OpSpec): nat {
    if l1.emptyEcotoneScalars then BedrockCost(l1, e, spec)
    else Saturated256(FeeScaled(l1) * DataGas(e, spec)) / 16_000_000
  }

  function FjordCost(l1: L1Info, e: Envelope): nat {
    Saturated256(e.estimatedSize * FeeScaled(l1)) / 1_000_000_000_000
  }

  /** The L1 fee, without looking at the cache. */
  function FreshL1Cost(l1: L1Info, e: Envelope, spec: OpSpec): nat {
    if Special(e) then 0
    else if spec.fjord then FjordCost(l1, e)
    else if spec.ecotone then EcotoneCost(l1, e, spec)
    else BedrockCost(l1, e, spec)
  }

  function L1Cost(l1: L1Info, e: Envelope, spec: OpSpec): nat {
    if l1.txL1Cost.Some? then l1.txL1Cost.value else FreshL1Cost(l1, e, spec)
  }

  function Cached(l1: L1Info, e: Envelope, spec: OpSpec): L1Info {
    if l1.txL1Cost.Some? || Special(e) then l1 else l1.(txL1Cost := Some(FreshL1Cost(l1, e, spec)))
  }

  function Cleared(l1: L1Info): L1Info {
    l1.(txL1Cost := None)
  }

  function OperatorInner(l1: L1Info, gas: nat, spec: OpSpec): nat {
    var product := Saturated256(gas * OrZero(l1.operatorScalar));
    var fee := if spec.jovian then Saturated256(product * OPERATOR_FEE_JOVIAN_MULTIPLIER)
               else product / OPERATOR_FEE_SCALAR_DECIMAL;
    Saturated256(fee + OrZero(l1.operatorConstant))
  }

  function OperatorCharge(l1: L1Info, e: Envelope, gas: nat, spec: OpSpec): nat {
    if Special(e) then 0 else OperatorInner(l1, gas, spec)
  }

  /** The refund path does not look at the bytes. */
  function OperatorRefund(l1: L1Info, g: Gas, spec: OpSpec): nat {
    if !spec.isthmus then 0
    else SaturatingSub(OperatorInner(l1, g.limit, spec),
                       OperatorInner(l1, SaturatingSub(g.limit, g.remaining + AsU64(g.refunded)), spec))
  }

  function OperatorShare(l1: L1Info, e: Envelope, gas: nat, spec: OpSpec): nat {
    if spec.isthmus then OperatorCharge(l1, e, gas, spec) else 0
  }

  function TxCost(l1: L1Info, e: Envelope, gas: nat, spec: OpSpec): nat {
    if spec.isthmus then Saturated256(L1Cost(l1, e, spec) + OperatorCharge(l1, e, gas, spec)) else L1Cost(l1, e, spec)
  }

  lemma ScaledMonotone(x: nat, y: nat, jovian: bool)
    requires x <= y
    ensures var f := (p: nat) => if jovian then Saturated256(p * OPERATOR_FEE_JOVIAN_MULTIPLIER)
                                 else p / OPERATOR_FEE_SCALAR_DECIMAL;
            f(x) <= f(y)
  {
  }

  lemma OperatorMonotone(l1: L1Info, x: nat, y: nat, spec: OpSpec)
    requires x <= y
    ensures OperatorInner(l1, x, spec) <= OperatorInner(l1, y, spec)
  {
    MulMonotone(OrZero(l1.operatorScalar), x, y);
    ScaledMonotone(Saturated256(x * OrZero(l1.operatorScalar)), Saturated256(y * OrZero(l1.operatorScalar)),
                   spec.jovian);
  }

  // ---------- One transaction ----------

  datatype Chain = Chain(ledger: L.Ledger, l1: L1Info)

  /** What a deposit brings from L1. */
  datatype Deposit = Deposit(mint: nat, isSystem: bool)

  /** A transaction with what its environment answers: the gas it needs at least, whether any further
      check refuses it, the L1 attributes a reload would fetch, and what the execution between charging
      and settling makes of the ledger. */
  datatype Item = Item(
    tx: Tx, deposit: Option<Deposit>, envelope: Envelope, block: Block, number: nat, spec: OpSpec,
    initialGas: nat, floor: nat, invalid: bool, fetched: L1Info,
    executed: L.Ledger, lost: nat, result: FrameResult, authRefund: int)

  /** Validation refuses what cannot cover its initial and its floor gas; of deposits besides only system
      ones from Regolith on, as they are checked on L1. */
  predicate Rejected(it: Item) {
    || it.tx.gasLimit < it.initialGas
    || it.tx.gasLimit < it.floor
    || (if it.deposit.Some? then it.deposit.value.isSystem && it.spec.regolith
        else it.invalid || !Validated(it.tx, it.block))
  }

  function Reloaded(l1: L1Info, it: Item): L1Info {
    if l1.l2Block != Some(it.number) then it.fetched else l1
  }

  function Price(it: Item): nat {
    EffectivePrice(it.tx, it.block.basefee)
  }

  /** A deposit is minted first and then pays as far as it can. */
  function DepositLeft(balance: nat, it: Item): Option<nat>
    requires it.deposit.Some?
  {
    match Spending(it.tx, Price(it), it.block.blobPrice)
    case None => None
    case Some(total) =>
      Some(SaturatingSub(Saturated256(balance + it.deposit.value.mint), SaturatingSub(total, it.tx.value)))
  }

  /** Any other transaction pays the L1 and operator fees, then for its gas. */
  function RegularLeft(balance: nat, l1: L1Info, it: Item): Option<nat> {
    var cost := TxCost(l1, it.envelope, it.tx.gasLimit, it.spec);
    if balance < cost then None else CallerFee(balance - cost, it.tx, it.block)
  }

  function Charged(c: Chain, it: Item): (Option<L.Ledger>, L1Info) {
    var balance := L.BalanceOf(c.ledger, it.tx.caller);
    var l1 := if it.deposit.Some? then c.l1 else Reloaded(c.l1, it);
    var left := if it.deposit.Some? then DepositLeft(balance, it) else RegularLeft(balance, l1, it);
    (if left.None? then None else Some(L.SetBalance(c.ledger, it.tx.caller, left.value)),
     if it.deposit.Some? then l1 else Cached(l1, it.envelope, it.spec))
  }

  /** Validation comes before charging. */
  function Accepted(c: Chain, it: Item): (Option<L.Ledger>, L1Info) {
    if Rejected(it) then (None, c.l1) else Charged(c, it)
  }

  /** Before Regolith a deposit reports its whole limit, or nothing if it is a successful system one. */
  predicate OldDeposit(it: Item) {
    it.deposit.Some? && !it.spec.regolith
  }

  function FrameGas(it: Item): Gas {
    if OldDeposit(it) then
      Gas(it.tx.gasLimit, if it.result.result.Success? && it.deposit.value.isSystem then it.tx.gasLimit else 0, 0)
    else LastFrameGas(it.tx.gasLimit, it.result)
  }

  /** And its refunds are not capped. */
  function GasOf(it: Item): Gas {
    if OldDeposit(it) then CheckFloor(FrameGas(it).(refunded := it.authRefund), it.floor)
    else FinalGas(it.tx.gasLimit, it.result, it.authRefund, true, it.floor)
  }

  /** The price of the whole limit, and of the gas used. */
  function LimitFee(it: Item): nat { it.tx.gasLimit * Price(it) }
  function UsedFee(it: Item): nat { Price(it) * Used(GasOf(it)) }

  lemma GasInSteps(it: Item)
    ensures var g := FrameGas(it).(refunded := FrameGas(it).refunded + it.authRefund);
            GasOf(it) == CheckFloor(if OldDeposit(it) then g else SetFinalRefund(g, true), it.floor)
  {
  }

  function BaseFeeShare(it: Item, g: Gas): nat {
    Saturated128(Times(it.block.basefee, Used(g)))
  }

  /** L1 fee vault, base fee vault and operator fee vault, in this order. */
  function VaultCredits(l1: L1Info, it: Item, g: Gas): seq<(Address, nat)> {
    [(L1_FEE_RECIPIENT, L1Cost(l1, it.envelope, it.spec)),
     (BASE_FEE_RECIPIENT, BaseFeeShare(it, g)),
     (OPERATOR_FEE_RECIPIENT, OperatorShare(Cached(l1, it.envelope, it.spec), it.envelope, Used(g), it.spec))]
  }

  /** The caller, then the beneficiary, then the vaults; after a deposit only the caller. */
  function Payouts(l1: L1Info, it: Item, g: Gas): seq<(Address, nat)> {
    if it.deposit.Some? then [(it.tx.caller, Reimbursement(it.tx, it.block, g))]
    else RegularPayouts(l1, it, g)
  }

  function RegularPayouts(l1: L1Info, it: Item, g: Gas): seq<(Address, nat)> {
    [(it.tx.caller, Reimbursement(it.tx, it.block, g) + OperatorRefund(l1, g, it.spec)),
     (it.block.beneficiary, Reward(it.tx, it.block, g, true))]
    + VaultCredits(l1, it, g)
  }

  /** A deposit that validation refuses, or that halts: module Deposit says what is left of it. */
  predicate Fails(it: Item) {
    it.deposit.Some? && (Rejected(it) || (it.spec.regolith && it.result.result.Halted?))
  }

  /** A refused transaction leaves the ledger, a failed deposit leaves the mint; either way the cache is
      cleared. */
  function Transact(c: Chain, it: Item): Chain {
    var (charged, l1) := Accepted(c, it);
    if it.deposit.Some? && (Rejected(it) || (charged.Some? && Fails(it))) then
      Chain(L.IncrBalance(c.ledger, it.tx.caller, it.deposit.value.mint), Cleared(l1))
    else if charged.None? then Chain(c.ledger, Cleared(l1))
    else Chain(L.CreditAll(it.executed, Payouts(l1, it, GasOf(it))), Cleared(Cached(l1, it.envelope, it.spec)))
  }

  // ---------- Conservation ----------

  /** What the source's number types and a supply in range guarantee.  A deposit has one price, no blobs
      and no authorizations. */
  ghost predicate FeesSound(c: Chain, it: Item) {
    && it.fetched.txL1Cost.None?
    && it.tx.gasLimit <= U64_MAX
    && L.Supply(c.ledger) + Minted(c, it) < U256_MODULUS
    && (Accepted(c, it).0.Some? ==>
          && 0 <= RefundsOf(it.result, it.authRefund) < I64_MODULUS
          && (if it.deposit.Some? then it.tx.legacy && !it.tx.isBlob && it.authRefund == 0 else RegularSound(c, it)))
  }

  predicate RegularSound(c: Chain, it: Item) {
    && it.block.basefee <= U64_MAX
    && (var l1 := Reloaded(c.l1, it);
        FreshL1Cost(l1, it.envelope, it.spec) + OperatorShare(l1, it.envelope, it.tx.gasLimit, it.spec) < U256_MODULUS)
  }

  /** And what the execution keeps: no more gas than it got, and no wei but what it lost.  Module
      Payments proves this of every run of frames. */
  ghost predicate Sound(c: Chain, it: Item) {
    && FeesSound(c, it)
    && (Accepted(c, it).0.Some? ==>
          && it.result.gas.remaining <= it.tx.gasLimit
          && L.Supply(it.executed) + it.lost == L.Supply(Accepted(c, it).0.value))
  }

  /** What a deposit cannot pay of its gas is not asked for. */
  function Unpaid(c: Chain, it: Item): nat
    requires it.deposit.Some?
  {
    SaturatingSub(LimitFee(it), L.BalanceOf(c.ledger, it.tx.caller) + it.deposit.value.mint)
  }

  /** Wei that was not there before: the mint of a deposit and what it could not pay, or what the refund
      path hands out although the charging path took nothing. */
  function Minted(c: Chain, it: Item): nat {
    if Accepted(c, it).0.None? then if it.deposit.Some? && Rejected(it) then it.deposit.value.mint else 0
    else if Fails(it) then it.deposit.value.mint
    else if it.deposit.Some? then it.deposit.value.mint + Unpaid(c, it)
    else if Special(it.envelope) then OperatorRefund(Reloaded(c.l1, it), GasOf(it), it.spec)
    else 0
  }

  /** What leaves the ledger for good; nobody is paid for the gas of a deposit. */
  function Burned(c: Chain, it: Item): nat {
    if Accepted(c, it).0.None? || Fails(it) then 0
    else it.lost + if it.deposit.Some? then UsedFee(it) else BlobFee(it.tx, it.block.blobPrice)
  }

  lemma CacheIsFresh(l1: L1Info, e: Envelope, spec: OpSpec)
    requires l1.txL1Cost.None?
    ensures L1Cost(Cached(l1, e, spec), e, spec) == FreshL1Cost(l1, e, spec)
    ensures forall gas: nat :: OperatorShare(Cached(l1, e, spec), e, gas, spec) == OperatorShare(l1, e, gas, spec)
    ensures Cached(Cached(l1, e, spec), e, spec) == Cached(l1, e, spec)
  {
  }

  /** The operator fee of the whole limit is what comes back to the caller plus what is paid out, except
      for bytes the charging path takes for a deposit. */
  lemma OperatorSplit(l1: L1Info, e: Envelope, g: Gas, spec: OpSpec)
    requires 0 <= g.refunded <= U64_MAX && g.remaining + g.refunded + Used(g) == g.limit
    ensures OperatorRefund(l1, g, spec) + OperatorShare(l1, e, Used(g), spec)
            == OperatorShare(l1, e, g.limit, spec) + if Special(e) then OperatorRefund(l1, g, spec) else 0
  {
    assert AsU64(g.refunded) == g.refunded;
    OperatorMonotone(l1, Used(g), g.limit, spec);
  }

  /** The five payments are what the caller was charged, up to what was minted. */
  lemma PaymentsAddUp(c: Chain, it: Item, l1: L1Info, g: Gas)
    requires Sound(c, it) && it.deposit.None? && Accepted(c, it).0.Some?
    requires c.l1.txL1Cost.None? && l1 == Reloaded(c.l1, it) && g == GasOf(it)
    requires it.tx.gasLimit * EffectivePrice(it.tx, it.block.basefee) <= U128_MAX
    ensures Reimbursement(it.tx, it.block, g) + OperatorRefund(l1, g, it.spec) + Reward(it.tx, it.block, g, true)
            + FreshL1Cost(l1, it.envelope, it.spec) + BaseFeeShare(it, g)
            + OperatorShare(l1, it.envelope, Used(g), it.spec)
            == it.tx.gasLimit * EffectivePrice(it.tx, it.block.basefee)
            + TxCost(l1, it.envelope, it.tx.gasLimit, it.spec) + Minted(c, it)
  {
    RegularGas(it);
    RegularCost(c, it, l1);
    FeeSplit(it.tx, it.block, g, true);
    OperatorSplit(l1, it.envelope, g, it.spec);
    BaseFeeFits(it.block.basefee, Used(g));
  }

  lemma RegularGas(it: Item)
    requires it.deposit.None? && it.result.gas.remaining <= it.tx.gasLimit <= U64_MAX && it.floor <= it.tx.gasLimit
    requires 0 <= RefundsOf(it.result, it.authRefund) < I64_MODULUS
    ensures var g := GasOf(it);
            && 0 <= g.refunded <= U64_MAX && Used(g) <= U64_MAX && g.limit == it.tx.gasLimit
            && g.remaining + g.refunded + Used(g) == it.tx.gasLimit
  {
    FinalGasUsed(it.tx.gasLimit, it.result, it.authRefund, true, it.floor);
  }

  lemma RegularCost(c: Chain, it: Item, l1: L1Info)
    requires RegularSound(c, it) && l1 == Reloaded(c.l1, it) && l1.txL1Cost.None?
    ensures TxCost(l1, it.envelope, it.tx.gasLimit, it.spec)
            == FreshL1Cost(l1, it.envelope, it.spec) + OperatorShare(l1, it.envelope, it.tx.gasLimit, it.spec)
  {
  }

  lemma BaseFeeFits(basefee: nat, used: nat)
    requires basefee <= U64_MAX && used <= U64_MAX
    ensures Saturated128(Times(basefee, used)) == basefee * used
  {
    MulMonotone(basefee, used, U64_MAX);
    MulMonotone(U64_MAX, basefee, U64_MAX);
  }

  lemma ChargedSupply(c: Chain, it: Item)
    requires Sound(c, it) && it.deposit.None? && Accepted(c, it).0.Some?
    ensures it.tx.gasLimit * EffectivePrice(it.tx, it.block.basefee) <= U128_MAX
    ensures L.Supply(Accepted(c, it).0.value) + TxCost(Reloaded(c.l1, it), it.envelope, it.tx.gasLimit, it.spec)
            + it.tx.gasLimit * EffectivePrice(it.tx, it.block.basefee) + BlobFee(it.tx, it.block.blobPrice)
            == L.Supply(c.ledger)
  {
    var balance := L.BalanceOf(c.ledger, it.tx.caller);
    var cost := TxCost(Reloaded(c.l1, it), it.envelope, it.tx.gasLimit, it.spec);
    CallerFeeDebit(balance - cost, it.tx, it.block);
    L.SupplySet(c.ledger, it.tx.caller, CallerFee(balance - cost, it.tx, it.block).value);
  }

  /** All that is paid out after the execution. */
  function Payments(l1: L1Info, it: Item): nat {
    var g := GasOf(it);
    Reimbursement(it.tx, it.block, g) + OperatorRefund(l1, g, it.spec) + Reward(it.tx, it.block, g, true)
    + L1Cost(l1, it.envelope, it.spec) + BaseFeeShare(it, g)
    + OperatorShare(Cached(l1, it.envelope, it.spec), it.envelope, Used(g), it.spec)
  }

  lemma TotalOfFive(c: seq<(Address, nat)>)
    requires |c| == 5
    ensures L.TotalOf(c) == c[0].1 + c[1].1 + c[2].1 + c[3].1 + c[4].1
  {
    assert c[..4][..3] == c[..3] && c[..3][..2] == c[..2] && c[..2][..1] == c[..1] && c[..1][..0] == [];
    assert L.TotalOf(c[..1]) == c[0].1;
    assert L.TotalOf(c[..2]) == L.TotalOf(c[..1]) + c[1].1;
    assert L.TotalOf(c[..3]) == L.TotalOf(c[..2]) + c[2].1;
    assert L.TotalOf(c[..4]) == L.TotalOf(c[..3]) + c[3].1;
  }

  lemma PaidOutSupply(l1: L1Info, it: Item)
    requires L.Supply(it.executed) + Payments(l1, it) < U256_MODULUS
    ensures L.Supply(L.CreditAll(it.executed, RegularPayouts(l1, it, GasOf(it))))
            == L.Supply(it.executed) + Payments(l1, it)
  {
    var credits := RegularPayouts(l1, it, GasOf(it));
    TotalOfFive(credits);
    L.SupplyCredited(it.executed, credits);
  }

  /** The cache does not change what is paid out. */
  lemma PaymentsWithCache(c: Chain, it: Item)
    requires Sound(c, it) && it.deposit.None? && c.l1.txL1Cost.None? && Accepted(c, it).0.Some?
    requires it.tx.gasLimit * EffectivePrice(it.tx, it.block.basefee) <= U128_MAX
    ensures Payments(Accepted(c, it).1, it)
            == it.tx.gasLimit * EffectivePrice(it.tx, it.block.basefee)
            + TxCost(Reloaded(c.l1, it), it.envelope, it.tx.gasLimit, it.spec) + Minted(c, it)
  {
    var l1, g := Reloaded(c.l1, it), GasOf(it);
    CacheIsFresh(l1, it.envelope, it.spec);
    PaymentsAddUp(c, it, l1, g);
    assert OperatorRefund(Accepted(c, it).1, g, it.spec) == OperatorRefund(l1, g, it.spec);
  }

  lemma RegularSupply(c: Chain, it: Item)
    requires Sound(c, it) && it.deposit.None? && c.l1.txL1Cost.None? && Accepted(c, it).0.Some?
    ensures L.Supply(Transact(c, it).ledger) + Burned(c, it) == L.Supply(c.ledger) + Minted(c, it)
  {
    ChargedSupply(c, it);
    PaymentsWithCache(c, it);
    PaidOutSupply(Accepted(c, it).1, it);
  }

  // ---------- Deposits ----------

  lemma DepositGas(it: Item)
    requires it.deposit.Some? && it.authRefund == 0 && it.floor <= it.tx.gasLimit <= U64_MAX
    requires it.result.gas.remaining <= it.tx.gasLimit && 0 <= RefundsOf(it.result, it.authRefund) < I64_MODULUS
    ensures var g := GasOf(it);
            g.remaining + g.refunded + Used(g) == it.tx.gasLimit && 0 <= g.refunded <= U64_MAX
  {
    if OldDeposit(it) {
      FloorSettles(FrameGas(it), it.floor);
    } else {
      FinalGasUsed(it.tx.gasLimit, it.result, it.authRefund, true, it.floor);
    }
  }

  /** What is not given back is burned. */
  lemma DepositFees(it: Item, g: Gas)
    requires Spending(it.tx, Price(it), it.block.blobPrice).Some?
    requires g.remaining + g.refunded + Used(g) == it.tx.gasLimit && 0 <= g.refunded <= U64_MAX
    ensures Reimbursement(it.tx, it.block, g) + Price(it) * Used(g) == it.tx.gasLimit * Price(it)
  {
    assert AsU64(g.refunded) == g.refunded;
    Distribute(Price(it), g.remaining + g.refunded, Used(g));
    assert Price(it) * it.tx.gasLimit == it.tx.gasLimit * Price(it);
  }

  lemma DepositPays(balance: nat, it: Item)
    requires it.deposit.Some? && !it.tx.isBlob && DepositLeft(balance, it).Some?
    requires balance + it.deposit.value.mint < U256_MODULUS
    ensures var had := balance + it.deposit.value.mint;
            var fee := LimitFee(it);
            && Spending(it.tx, Price(it), it.block.blobPrice).Some?
            && DepositLeft(balance, it).value + fee == had + SaturatingSub(fee, had)
  {
  }

  lemma DepositLedger(c: Chain, it: Item)
    requires it.deposit.Some? && Accepted(c, it).0.Some?
    ensures var left := DepositLeft(L.BalanceOf(c.ledger, it.tx.caller), it);
            left.Some? && Accepted(c, it).0 == Some(L.SetBalance(c.ledger, it.tx.caller, left.value))
  {
  }

  lemma DepositMinted(c: Chain, it: Item)
    requires it.deposit.Some? && Accepted(c, it).0.Some? && !Fails(it)
    ensures Minted(c, it) == it.deposit.value.mint + Unpaid(c, it)
  {
  }

  lemma DepositCharged(c: Chain, it: Item)
    requires FeesSound(c, it) && it.deposit.Some? && !Fails(it) && Accepted(c, it).0.Some?
    ensures Spending(it.tx, Price(it), it.block.blobPrice).Some?
    ensures L.Supply(Accepted(c, it).0.value) + LimitFee(it) == L.Supply(c.ledger) + Minted(c, it)
  {
    var balance := L.BalanceOf(c.ledger, it.tx.caller);
    DepositLedger(c, it);
    DepositMinted(c, it);
    L.SupplySet(c.ledger, it.tx.caller, DepositLeft(balance, it).value);
    DepositPays(balance, it);
  }

  lemma OneCredit(l: L.Ledger, a: Address, amount: nat)
    requires L.Supply(l) + amount < U256_MODULUS
    ensures L.Supply(L.CreditAll(l, [(a, amount)])) == L.Supply(l) + amount
  {
    L.SupplyIncr(l, a, amount);
    assert L.CreditAll(l, [(a, amount)][..0]) == l;
  }

  lemma DepositTransact(c: Chain, it: Item)
    requires it.deposit.Some? && !Fails(it) && Accepted(c, it).0.Some?
    ensures Transact(c, it).ledger
            == L.CreditAll(it.executed, [(it.tx.caller, Reimbursement(it.tx, it.block, GasOf(it)))])
    ensures Burned(c, it) == it.lost + UsedFee(it)
  {
  }

  lemma DepositSplit(it: Item)
    requires it.deposit.Some? && it.authRefund == 0 && it.floor <= it.tx.gasLimit <= U64_MAX
    requires it.result.gas.remaining <= it.tx.gasLimit && 0 <= RefundsOf(it.result, it.authRefund) < I64_MODULUS
    requires Spending(it.tx, Price(it), it.block.blobPrice).Some?
    ensures Reimbursement(it.tx, it.block, GasOf(it)) + UsedFee(it) == LimitFee(it)
  {
    DepositGas(it);
    DepositFees(it, GasOf(it));
  }

  lemma PaidDepositSupply(c: Chain, it: Item)
    requires Sound(c, it) && it.deposit.Some? && Accepted(c, it).0.Some? && !Fails(it)
    ensures L.Supply(Transact(c, it).ledger) + Burned(c, it) == L.Supply(c.ledger) + Minted(c, it)
  {
    DepositCharged(c, it);
    DepositSplit(it);
    DepositTransact(c, it);
    DepositSums(c, it, LimitFee(it), UsedFee(it), Reimbursement(it.tx, it.block, GasOf(it)));
  }

  lemma DepositSums(c: Chain, it: Item, fee: nat, used: nat, back: nat)
    requires Accepted(c, it).0.Some? && back + used == fee
    requires L.Supply(it.executed) + it.lost == L.Supply(Accepted(c, it).0.value)
    requires L.Supply(Accepted(c, it).0.value) + fee == L.Supply(c.ledger) + Minted(c, it) < U256_MODULUS
    requires Transact(c, it).ledger == L.CreditAll(it.executed, [(it.tx.caller, back)])
    requires Burned(c, it) == it.lost + used
    ensures L.Supply(Transact(c, it).ledger) + Burned(c, it) == L.Supply(c.ledger) + Minted(c, it)
  {
    OneCredit(it.executed, it.tx.caller, back);
  }

  lemma FailedDepositSupply(c: Chain, it: Item)
    requires FeesSound(c, it) && it.deposit.Some? && (Rejected(it) || (Accepted(c, it).0.Some? && Fails(it)))
    ensures L.Supply(Transact(c, it).ledger) + Burned(c, it) == L.Supply(c.ledger) + Minted(c, it)
  {
    L.SupplyIncr(c.ledger, it.tx.caller, it.deposit.value.mint);
  }

  lemma DepositSupply(c: Chain, it: Item)
    requires Sound(c, it) && it.deposit.Some?
    ensures L.Supply(Transact(c, it).ledger) + Burned(c, it) == L.Supply(c.ledger) + Minted(c, it)
  {
    if Rejected(it) || (Accepted(c, it).0.Some? && Fails(it)) {
      FailedDepositSupply(c, it);
    } else if Accepted(c, it).0.Some? {
      PaidDepositSupply(c, it);
    }
  }

  // ---------- Every transaction ----------

  /** One transaction with an empty cache: the cache is empty again, and no wei is lost or made except
      what is burned and minted. */
  lemma TransactSupply(c: Chain, it: Item)
    requires Sound(c, it) && c.l1.txL1Cost.None?
    ensures Transact(c, it).l1.txL1Cost.None?
    ensures L.Supply(Transact(c, it).ledger) + Burned(c, it) == L.Supply(c.ledger) + Minted(c, it)
  {
    if it.deposit.Some? {
      DepositSupply(c, it);
    } else if Accepted(c, it).0.Some? {
      RegularSupply(c, it);
    }
  }

  /** Fees are conserved exactly when the enveloped bytes are not special or the refund path has nothing
      to hand out. */
  lemma ConservedExactly(c: Chain, it: Item)
    requires Sound(c, it) && it.deposit.None? && c.l1.txL1Cost.None? && Accepted(c, it).0.Some?
    ensures L.Supply(Transact(c, it).ledger) + Burned(c, it) == L.Supply(c.ledger)
            <==> !Special(it.envelope) || OperatorRefund(Reloaded(c.l1, it), GasOf(it), it.spec) == 0
  {
    TransactSupply(c, it);
  }

  /** A deposit adds its mint and nothing else exactly when it can pay for its gas, or fails. */
  lemma MintedExactly(c: Chain, it: Item)
    requires Sound(c, it) && it.deposit.Some? && c.l1.txL1Cost.None? && (Rejected(it) || Accepted(c, it).0.Some?)
    ensures L.Supply(Transact(c, it).ledger) + Burned(c, it) == L.Supply(c.ledger) + it.deposit.value.mint
            <==> Fails(it)
                 || LimitFee(it) <= L.BalanceOf(c.ledger, it.tx.caller) + it.deposit.value.mint
  {
    TransactSupply(c, it);
  }

  // ---------- Any number of transactions ----------

  function TransactAll(c: Chain, items: seq<Item>): Chain
    decreases |items|
  {
    if items == [] then c else TransactAll(Transact(c, items[0]), items[1..])
  }

  function BurnedAll(c: Chain, items: seq<Item>): nat
    decreases |items|
  {
    if items == [] then 0 else Burned(c, items[0]) + BurnedAll(Transact(c, items[0]), items[1..])
  }

  function MintedAll(c: Chain, items: seq<Item>): nat
    decreases |items|
  {
    if items == [] then 0
    else Minted(c, items[0]) + MintedAll(Transact(c, items[0]), items[1..])
  }

  ghost predicate SoundAll(c: Chain, items: seq<Item>)
    decreases |items|
  {
    items == [] || (Sound(c, items[0]) && SoundAll(Transact(c, items[0]), items[1..]))
  }

  /** Over any sequence of transactions every wei is accounted for, and the cached L1 fee of one never
      reaches another. */
  lemma {:induction false} OptimismConserves(c: Chain, items: seq<Item>)
    requires c.l1.txL1Cost.None? && SoundAll(c, items)
    ensures L.Supply(TransactAll(c, items).ledger) + BurnedAll(c, items) == L.Supply(c.ledger) + MintedAll(c, items)
    ensures TransactAll(c, items).l1.txL1Cost.None?
    decreases |items|
  {
    if items != [] {
      TransactSupply(c, items[0]);
      OptimismConserves(Transact(c, items[0]), items[1..]);
    }
  }

  /** Nothing is minted without deposits or bytes that the charging path takes for one. */
  lemma {:induction false} NothingMinted(c: Chain, items: seq<Item>)
    requires forall i :: 0 <= i < |items| ==> items[i].deposit.None? && !Special(items[i].envelope)
    ensures MintedAll(c, items) == 0
    decreases |items|
  {
    if items != [] {
      NothingMinted(Transact(c, items[0]), items[1..]);
    }
  }

  /** Whatever one transaction leaves, the next is charged its own L1 fee. */
  lemma ChargedOwnFee(c: Chain, it: Item, next: Item)
    requires it.fetched.txL1Cost.None? && next.fetched.txL1Cost.None?
    ensures var c' := Transact(c, it);
            L1Cost(Reloaded(c'.l1, next), next.envelope, next.spec)
            == FreshL1Cost(Reloaded(c'.l1, next), next.envelope, next.spec)
  {
  }
}
