/** Gas and fee settlement of a transaction (crates/handler/src/post_execution.rs,
    crates/handler/src/pre_execution.rs, crates/handler/src/handler.rs, crates/interpreter/src/gas.rs,
    crates/context/interface/src/transaction.rs). */
module Settlement {
  import opened Wrappers
  import opened Journal
  import opened Frames
  import L = Ledger

  const U128_MAX: int := 0xffff_ffff_ffff_ffff_ffff_ffff_ffff_ffff
  const I64_MODULUS: int := 0x8000_0000_0000_0000

  function Min(x: nat, y: nat): nat { if x < y then x else y }
  function Max(x: nat, y: nat): nat { if x < y then y else x }
  function SaturatingSub(x: nat, y: nat): nat { if x < y then 0 else x - y }
  function Times(x: nat, y: nat): nat { x * y }
  function Saturated128(x: nat): nat { Min(x, U128_MAX) }

  // ---------- Gas ----------

  /** A signed 64-bit number read as an unsigned one. */
  function AsU64(x: int): nat {
    x % U64_MODULUS
  }

  function Spent(g: Gas): nat {
    SaturatingSub(g.limit, g.remaining)
  }

  function Used(g: Gas): nat {
    SaturatingSub(Spent(g), AsU64(g.refunded))
  }

  function Quotient(london: bool): nat {
    if london then 5 else 2
  }

  function SetFinalRefund(g: Gas, london: bool): Gas {
    g.(refunded := Min(AsU64(g.refunded), Spent(g) / Quotient(london)))
  }

  function CheckFloor(g: Gas, floor: nat): Gas {
    if Used(g) < floor then g.(remaining := SaturatingSub(g.limit, floor), refunded := 0) else g
  }

  /** The transaction's gas once refunds are capped and the floor is enforced. */
  function FinalGas(limit: nat, r: FrameResult, authRefund: int, london: bool, floor: nat): Gas {
    var g := LastFrameGas(limit, r);
    CheckFloor(SetFinalRefund(g.(refunded := g.refunded + authRefund), london), floor)
  }

  /** The capped refund is what EIP-3529 asks for exactly when the refunds are not negative (or the
      cap is zero): a negative number is read as a huge one and yields the whole cap. */
  lemma FinalRefundExact(g: Gas, london: bool)
    requires g.remaining <= g.limit <= U64_MAX && -I64_MODULUS <= g.refunded < I64_MODULUS
    ensures SetFinalRefund(g, london).refunded
            == Min(if g.refunded < 0 then 0 else g.refunded, Spent(g) / Quotient(london))
            <==> g.refunded >= 0 || Spent(g) / Quotient(london) == 0
  {
    if g.refunded < 0 {
      assert AsU64(g.refunded) == g.refunded + U64_MODULUS;
    }
  }

  function RefundsOf(r: FrameResult, authRefund: int): int {
    authRefund + if r.result.Success? then r.gas.refunded else 0
  }

  function SpentBy(limit: nat, r: FrameResult): nat {
    SaturatingSub(limit, if r.result.Halted? then 0 else r.gas.remaining)
  }

  lemma FloorSettles(g: Gas, floor: nat)
    requires g.remaining <= g.limit <= U64_MAX && floor <= g.limit && 0 <= g.refunded <= Spent(g)
    ensures var h := CheckFloor(g, floor);
            && Used(h) == Max(Spent(g) - g.refunded, floor)
            && 0 <= h.refunded && h.limit == g.limit && h.remaining + h.refunded + Used(h) == g.limit
  {
  }

  lemma RefundCapped(g: Gas, london: bool)
    requires g.remaining <= g.limit <= U64_MAX && 0 <= g.refunded < I64_MODULUS
    ensures var h := SetFinalRefund(g, london);
            h == g.(refunded := Min(g.refunded, Spent(g) / Quotient(london))) && 0 <= h.refunded <= Spent(g)
  {
  }

  /** For every outcome with non-negative refunds: the gas used is what was spent less the capped
      refund, but at least the floor, and every unit of the limit is remaining, refunded or used. */
  lemma FinalGasUsed(limit: nat, r: FrameResult, authRefund: int, london: bool, floor: nat)
    requires r.gas.remaining <= limit <= U64_MAX && floor <= limit
    requires 0 <= RefundsOf(r, authRefund) < I64_MODULUS
    ensures var g := FinalGas(limit, r, authRefund, london, floor);
            var spent := SpentBy(limit, r);
            && Used(g) == Max(spent - Min(RefundsOf(r, authRefund), spent / Quotient(london)), floor)
            && floor <= Used(g) <= limit
            && 0 <= g.refunded && g.limit == limit
            && g.remaining + g.refunded + Used(g) == limit
  {
    var g0 := LastFrameGas(limit, r);
    var g1 := g0.(refunded := g0.refunded + authRefund);
    RefundCapped(g1, london);
    FloorSettles(SetFinalRefund(g1, london), floor);
  }

  // ---------- Fees ----------

  datatype Tx = Tx(
    caller: Address, gasLimit: nat, maxFee: nat, legacy: bool, priorityFee: Option<nat>, value: nat,
    isBlob: bool, blobGas: nat, maxBlobFee: nat)

  datatype Block = Block(basefee: nat, blobPrice: nat, beneficiary: Address)

  function EffectivePrice(tx: Tx, basefee: nat): nat {
    if tx.legacy || tx.priorityFee.None? then tx.maxFee
    else Min(tx.maxFee, Saturated128(basefee + tx.priorityFee.value))
  }

  function BlobFee(tx: Tx, price: nat): nat {
    if tx.isBlob then Saturated128(tx.blobGas * price) else 0
  }

  /** Gas at this price, value and blob fee, or nothing on overflow. */
  function Spending(tx: Tx, price: nat, blobPrice: nat): Option<nat> {
    if tx.gasLimit * price > U128_MAX || tx.gasLimit * price + tx.value >= U256_MODULUS then None
    else
      var total := tx.gasLimit * price + tx.value + BlobFee(tx, blobPrice);
      if total >= U256_MODULUS then None else Some(total)
  }

  /** The caller's balance after paying for all gas in advance; none if the maximum is not covered.
      The effective spending always exists then, see `EffectiveWithinMax`. */
  function CallerFee(balance: nat, tx: Tx, block: Block): Option<nat> {
    match Spending(tx, tx.maxFee, tx.maxBlobFee)
    case None => None
    case Some(most) =>
      if most > balance then None
      else
        match Spending(tx, EffectivePrice(tx, block.basefee), block.blobPrice)
        case None => None
        case Some(effective) => Some(SaturatingSub(balance, SaturatingSub(effective, tx.value)))
  }

  /** What environment validation has checked. */
  predicate Validated(tx: Tx, block: Block) {
    EffectivePrice(tx, block.basefee) >= block.basefee && (tx.isBlob ==> block.blobPrice <= tx.maxBlobFee)
  }

  lemma MulMonotone(n: nat, x: nat, y: nat)
    requires x <= y
    ensures n * x <= n * y
  {
  }

  lemma EffectiveWithinMax(tx: Tx, block: Block)
    requires Validated(tx, block) && Spending(tx, tx.maxFee, tx.maxBlobFee).Some?
    ensures Spending(tx, EffectivePrice(tx, block.basefee), block.blobPrice).Some?
    ensures Spending(tx, EffectivePrice(tx, block.basefee), block.blobPrice).value
            <= Spending(tx, tx.maxFee, tx.maxBlobFee).value
  {
    MulMonotone(tx.gasLimit, EffectivePrice(tx, block.basefee), tx.maxFee);
    if tx.isBlob {
      MulMonotone(tx.blobGas, block.blobPrice, tx.maxBlobFee);
    }
  }

  /** The debit is exactly the gas limit at the effective price and the blob fee, and it is refused
      exactly when the maximum is not covered. */
  lemma CallerFeeDebit(balance: nat, tx: Tx, block: Block)
    requires Validated(tx, block)
    ensures var most := Spending(tx, tx.maxFee, tx.maxBlobFee);
            CallerFee(balance, tx, block).Some? <==> most.Some? && most.value <= balance
    ensures CallerFee(balance, tx, block).Some? ==>
              var price := EffectivePrice(tx, block.basefee);
              && tx.gasLimit * price <= U128_MAX
              && CallerFee(balance, tx, block).value + tx.gasLimit * price + BlobFee(tx, block.blobPrice) == balance
  {
    if Spending(tx, tx.maxFee, tx.maxBlobFee).Some? {
      EffectiveWithinMax(tx, block);
    }
  }

  // ---------- Ledger steps ----------

  function Deduct(l: L.Ledger, tx: Tx, block: Block): Option<L.Ledger> {
    match CallerFee(L.BalanceOf(l, tx.caller), tx, block)
    case None => None
    case Some(balance) => Some(L.SetBalance(l, tx.caller, balance))
  }

  function Reimbursement(tx: Tx, block: Block, g: Gas): nat {
    Saturated128(EffectivePrice(tx, block.basefee) * (g.remaining + AsU64(g.refunded)))
  }

  function Reimburse(l: L.Ledger, tx: Tx, block: Block, g: Gas, extra: nat): L.Ledger {
    L.IncrBalance(l, tx.caller, Reimbursement(tx, block, g) + extra)
  }

  function Reward(tx: Tx, block: Block, g: Gas, london: bool): nat {
    var price := EffectivePrice(tx, block.basefee);
    (if london then SaturatingSub(price, block.basefee) else price) * Used(g)
  }

  function RewardBeneficiary(l: L.Ledger, tx: Tx, block: Block, g: Gas, london: bool): L.Ledger {
    L.IncrBalance(l, block.beneficiary, Reward(tx, block, g, london))
  }

  function BurnedBaseFee(block: Block, g: Gas, london: bool): nat {
    if london then block.basefee * Used(g) else 0
  }

  lemma Distribute(x: nat, y: nat, z: nat)
    ensures x * (y + z) == x * y + x * z
  {
  }

  lemma DistributeDown(x: nat, y: nat, z: nat)
    requires y <= x
    ensures (x - y) * z + y * z == x * z
  {
    assert (x - y + y) * z == (x - y) * z + y * z;
  }

  /** What the caller paid for gas goes back, goes to the beneficiary or is burned. */
  lemma FeeSplit(tx: Tx, block: Block, g: Gas, london: bool)
    requires Validated(tx, block) && tx.gasLimit * EffectivePrice(tx, block.basefee) <= U128_MAX
    requires 0 <= g.refunded <= U64_MAX && g.remaining + g.refunded + Used(g) == tx.gasLimit
    ensures Reimbursement(tx, block, g) + Reward(tx, block, g, london) + BurnedBaseFee(block, g, london)
            == tx.gasLimit * EffectivePrice(tx, block.basefee)
  {
    var price := EffectivePrice(tx, block.basefee);
    var back := g.remaining + g.refunded;
    assert AsU64(g.refunded) == g.refunded;
    Distribute(price, back, Used(g));
    if london {
      DistributeDown(price, block.basefee, Used(g));
    }
  }

  /** Conservation on mainnet: whatever the execution in between moves or destroys, the fees only move
      wei between the caller, the beneficiary, the burned base fee and the burned blob fee. */
  lemma MainnetConserves(l: L.Ledger, tx: Tx, block: Block, london: bool, executed: L.Ledger, lost: nat,
                         r: FrameResult, authRefund: int, floor: nat)
    requires Validated(tx, block) && Deduct(l, tx, block).Some? && L.Supply(l) < U256_MODULUS
    requires L.Supply(executed) + lost == L.Supply(Deduct(l, tx, block).value)
    requires r.gas.remaining <= tx.gasLimit <= U64_MAX && floor <= tx.gasLimit
    requires 0 <= RefundsOf(r, authRefund) < I64_MODULUS
    ensures var g := FinalGas(tx.gasLimit, r, authRefund, london, floor);
            var settled := RewardBeneficiary(Reimburse(executed, tx, block, g, 0), tx, block, g, london);
            L.Supply(settled) + lost + BurnedBaseFee(block, g, london) + BlobFee(tx, block.blobPrice) == L.Supply(l)
  {
    var balance := L.BalanceOf(l, tx.caller);
    CallerFeeDebit(balance, tx, block);
    L.SupplySet(l, tx.caller, CallerFee(balance, tx, block).value);
    var g := FinalGas(tx.gasLimit, r, authRefund, london, floor);
    FinalGasUsed(tx.gasLimit, r, authRefund, london, floor);
    FeeSplit(tx, block, g, london);
    L.SupplyIncr(executed, tx.caller, Reimbursement(tx, block, g) + 0);
    L.SupplyIncr(Reimburse(executed, tx, block, g, 0), block.beneficiary, Reward(tx, block, g, london));
  }
}
