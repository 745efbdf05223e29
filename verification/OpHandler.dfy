/** The Optimism handler as the source runs it: balances, the L1 attributes with their cached fee, and
    the gas of the current transaction, all updated in place. */
module OpHandler {
  import opened Wrappers
  import opened Journal
  import opened Frames
  import opened Settlement
  import opened OpSettlement
  import L = Ledger

  class OpHandler {
    var ledger: L.Ledger
    var l1: L1Info
    var gas: Gas

    constructor (ledger: L.Ledger, l1: L1Info)
      ensures this.ledger == ledger && this.l1 == l1
    {
      this.ledger, this.l1, gas := ledger, l1, NewGas(0);
    }

    function State(): Chain
      reads this
    {
      Chain(ledger, l1)
    }

    // ---------- L1 attributes ----------

    /** Special bytes cost nothing and are not cached. */
    method CalculateTxL1Cost(e: Envelope, spec: OpSpec) returns (cost: nat)
      modifies this`l1
      ensures cost == L1Cost(old(l1), e, spec) && l1 == Cached(old(l1), e, spec)
    {
      if l1.txL1Cost.Some? {
        return l1.txL1Cost.value;
      }
      if e.isEmpty || e.startsWith7E {
        return 0;
      }
      if spec.fjord {
        cost := FjordCost(l1, e);
      } else if spec.ecotone {
        cost := EcotoneCost(l1, e, spec);
      } else {
        cost := BedrockCost(l1, e, spec);
      }
      l1 := l1.(txL1Cost := Some(cost));
    }

    method AdditionalCost(e: Envelope, gasLimit: nat, spec: OpSpec) returns (cost: nat)
      modifies this`l1
      ensures cost == TxCost(old(l1), e, gasLimit, spec) && l1 == Cached(old(l1), e, spec)
    {
      cost := CalculateTxL1Cost(e, spec);
      if spec.isthmus {
        cost := Saturated256(cost + OperatorCharge(l1, e, gasLimit, spec));
      }
    }

    // ---------- Before the execution ----------

    method Validate(it: Item) returns (ok: bool)
      ensures ok == !Rejected(it)
    {
      if it.deposit.Some? {
        if it.deposit.value.isSystem && it.spec.regolith {
          return false;
        }
      } else if it.invalid || !Validated(it.tx, it.block) {
        return false;
      }
      if it.initialGas > it.tx.gasLimit {
        return false;
      }
      ok := it.floor <= it.tx.gasLimit;
    }

    /** A deposit is minted and never refused for lack of funds. */
    method DeductDeposit(it: Item) returns (ok: bool)
      requires it.deposit.Some?
      modifies this`ledger
      ensures ok == Charged(old(State()), it).0.Some?
      ensures ledger == if ok then Charged(old(State()), it).0.value else old(ledger)
    {
      var spending := Spending(it.tx, Price(it), it.block.blobPrice);
      if spending.None? {
        return false;
      }
      var balance := Saturated256(L.BalanceOf(ledger, it.tx.caller) + it.deposit.value.mint);
      ledger := L.SetBalance(ledger, it.tx.caller, SaturatingSub(balance, SaturatingSub(spending.value, it.tx.value)));
      ok := true;
    }

    method DeductCaller(it: Item) returns (ok: bool)
      modifies this`ledger, this`l1
      ensures l1 == Charged(old(State()), it).1
      ensures ok == Charged(old(State()), it).0.Some?
      ensures ledger == if ok then Charged(old(State()), it).0.value else old(ledger)
    {
      if it.deposit.Some? {
        ok := DeductDeposit(it);
        return;
      }
      if l1.l2Block != Some(it.number) {
        l1 := it.fetched;
      }
      var balance := L.BalanceOf(ledger, it.tx.caller);
      var cost := AdditionalCost(it.envelope, it.tx.gasLimit, it.spec);
      if balance < cost {
        return false;
      }
      var left := CallerFee(balance - cost, it.tx, it.block);
      if left.None? {
        return false;
      }
      ledger := L.SetBalance(ledger, it.tx.caller, left.value);
      ok := true;
    }

    // ---------- After the execution ----------

    /** Spends the whole limit, then gives back what an ok or reverted frame left; before Regolith a
        deposit gets nothing back unless it is a system one. */
    method LastFrameResult(it: Item)
      modifies this`gas
      ensures gas == FrameGas(it)
    {
      gas := Gas(it.tx.gasLimit, 0, 0);
      if it.result.result.Success? {
        if it.deposit.None? || it.spec.regolith {
          gas := EraseCost(gas, it.result.gas.remaining);
          gas := gas.(refunded := gas.refunded + it.result.gas.refunded);
        } else if it.deposit.value.isSystem {
          gas := EraseCost(gas, it.tx.gasLimit);
        }
      } else if it.result.result.Reverted? {
        if it.deposit.None? || it.spec.regolith {
          gas := EraseCost(gas, it.result.gas.remaining);
        }
      }
    }

    method RefundAndFloor(it: Item)
      modifies this`gas
      ensures gas == (var g := old(gas).(refunded := old(gas.refunded) + it.authRefund);
                      CheckFloor(if OldDeposit(it) then g else SetFinalRefund(g, true), it.floor))
    {
      gas := gas.(refunded := gas.refunded + it.authRefund);
      if it.deposit.None? || it.spec.regolith {
        gas := gas.(refunded := Min(AsU64(gas.refunded), Spent(gas) / 5));
      }
      if Used(gas) < it.floor {
        gas := gas.(remaining := SaturatingSub(gas.limit, it.floor));
        gas := gas.(refunded := 0);
      }
    }

    method ReimburseCaller(it: Item)
      modifies this`ledger
      ensures var extra := if it.deposit.Some? then 0 else OperatorRefund(l1, gas, it.spec);
              ledger == Reimburse(old(ledger), it.tx, it.block, gas, extra)
    {
      var extra := 0;
      if it.deposit.None? {
        extra := OperatorRefund(l1, gas, it.spec);
      }
      ledger := L.IncrBalance(ledger, it.tx.caller, Reimbursement(it.tx, it.block, gas) + extra);
    }

    /** The beneficiary first, then the three vaults in turn. */
    method PayVaults(it: Item)
      modifies this`ledger, this`l1
      ensures l1 == Cached(old(l1), it.envelope, it.spec)
      ensures ledger == L.CreditAll(RewardBeneficiary(old(ledger), it.tx, it.block, gas, true),
                                    VaultCredits(old(l1), it, gas))
    {
      ledger := RewardBeneficiary(ledger, it.tx, it.block, gas, true);
      var l1Cost := CalculateTxL1Cost(it.envelope, it.spec);
      var operator := OperatorShare(l1, it.envelope, Used(gas), it.spec);
      var credits := [(L1_FEE_RECIPIENT, l1Cost),
                      (BASE_FEE_RECIPIENT, BaseFeeShare(it, gas)),
                      (OPERATOR_FEE_RECIPIENT, operator)];
      ghost var start := ledger;
      for k := 0 to 3
        invariant l1 == Cached(old(l1), it.envelope, it.spec)
        invariant ledger == L.CreditAll(start, credits[..k])
      {
        ledger := L.IncrBalance(ledger, credits[k].0, credits[k].1);
        assert credits[..k + 1][..k] == credits[..k];
      }
      assert credits[..3] == credits;
    }

    /** Nobody is paid for a deposit. */
    method Settle(it: Item)
      modifies this`ledger, this`l1
      ensures ledger == L.CreditAll(old(ledger), Payouts(old(l1), it, gas))
      ensures l1 == if it.deposit.Some? then old(l1) else Cached(old(l1), it.envelope, it.spec)
    {
      ghost var start, charged := ledger, l1;
      ReimburseCaller(it);
      if it.deposit.Some? {
        assert L.CreditAll(start, [(it.tx.caller, Reimbursement(it.tx, it.block, gas))][..0]) == start;
        return;
      }
      PayVaults(it);
      PaidInTurn(start, charged, it, gas);
    }

    /** What is left of a deposit that fails, over the ledger before it. */
    method CatchError(it: Item, before: L.Ledger)
      modifies this`ledger
      ensures ledger == if it.deposit.Some? then L.IncrBalance(before, it.tx.caller, it.deposit.value.mint)
                        else old(ledger)
    {
      if it.deposit.Some? {
        ledger := L.IncrBalance(before, it.tx.caller, it.deposit.value.mint);
      }
    }

    /** One transaction, with the ledger its execution leaves taken from `it`. */
    method Run(it: Item) returns (ok: bool)
      modifies this
      ensures ok == Accepted(old(State()), it).0.Some?
      ensures State() == OpSettlement.Transact(old(State()), it)
    {
      var before := ledger;
      ok := Validate(it);
      if !ok {
        CatchError(it, before);
      } else {
        ok := DeductCaller(it);
        if ok {
          ledger := it.executed;
          LastFrameResult(it);
          RefundAndFloor(it);
          GasInSteps(it);
          Settle(it);
          if it.spec.regolith && it.result.result.Halted? {
            CatchError(it, before);
          }
        }
      }
      l1 := l1.(txL1Cost := None);
    }

    /** Any number of transactions. */
    method RunAll(items: seq<Item>)
      requires l1.txL1Cost.None? && SoundAll(State(), items)
      modifies this
      ensures State() == TransactAll(old(State()), items)
      ensures L.Supply(ledger) + BurnedAll(old(State()), items)
              == old(L.Supply(ledger)) + MintedAll(old(State()), items)
      ensures l1.txL1Cost.None?
    {
      OptimismConserves(State(), items);
      var rest := items;
      while rest != []
        invariant TransactAll(State(), rest) == TransactAll(old(State()), items)
        decreases |rest|
      {
        var _ := Run(rest[0]);
        rest := rest[1..];
      }
    }
  }

  lemma PaidInTurn(l: L.Ledger, l1: L1Info, it: Item, g: Gas)
    ensures var first := RewardBeneficiary(Reimburse(l, it.tx, it.block, g, OperatorRefund(l1, g, it.spec)),
                                           it.tx, it.block, g, true);
            L.CreditAll(l, RegularPayouts(l1, it, g)) == L.CreditAll(first, VaultCredits(l1, it, g))
  {
    var all, vaults := RegularPayouts(l1, it, g), VaultCredits(l1, it, g);
    var two: seq<(Address, nat)> := all[..2];
    CreditsInTurn(l, [two[0]], [two[1]]);
    assert [two[0]] + [two[1]] == two;
    CreditsInTurn(l, two, vaults);
    assert two + vaults == all;
  }

  lemma {:induction false} CreditsInTurn(l: L.Ledger, c: seq<(Address, nat)>, d: seq<(Address, nat)>)
    ensures L.CreditAll(l, c + d) == L.CreditAll(L.CreditAll(l, c), d)
    decreases |d|
  {
    if d == [] {
      assert c + d == c;
    } else {
      var n := |d| - 1;
      assert (c + d)[..|c + d| - 1] == c + d[..n];
      CreditsInTurn(l, c, d[..n]);
    }
  }
}
