/** Balances as a ledger, and the wei in it. */
module Ledger {
  import opened Journal

  /** A number for each address: a balance, or a count. */
  type Amounts = map<Address, nat>
  type Ledger = Amounts

  function BalanceOf(l: Ledger, a: Address): nat {
    if a in l then l[a] else 0
  }

  function SetBalance(l: Ledger, a: Address, balance: nat): Ledger {
    l[a := balance]
  }

  /** A balance that would not fit stays as it is. */
  function IncrBalance(l: Ledger, a: Address, amount: nat): Ledger {
    if BalanceOf(l, a) + amount < U256_MODULUS then l[a := BalanceOf(l, a) + amount] else l
  }

  /** All that there is: the wei of a ledger. */
  ghost function Supply(l: Amounts): nat
    decreases |l|
  {
    if l == map[] then 0
    else
      var a :| a in l;
      Smaller(l, a);
      l[a] + Supply(l - {a})
  }

  lemma Smaller(l: Ledger, a: Address)
    requires a in l
    ensures |l - {a}| < |l|
  {
    assert (l - {a}).Keys == l.Keys - {a};
    assert |(l - {a}).Keys| == |l.Keys| - 1;
  }

  lemma {:induction false} SupplyWithout(l: Ledger, a: Address)
    requires a in l
    ensures Supply(l) == l[a] + Supply(l - {a})
    decreases |l|
  {
    var b :| b in l && Supply(l) == l[b] + Supply(l - {b});
    if a != b {
      Smaller(l, a);
      Smaller(l, b);
      SupplyWithout(l - {b}, a);
      SupplyWithout(l - {a}, b);
      assert (l - {b}) - {a} == (l - {a}) - {b};
    }
  }

  lemma SupplySet(l: Ledger, a: Address, balance: nat)
    ensures Supply(SetBalance(l, a, balance)) == Supply(l) - BalanceOf(l, a) + balance
    ensures BalanceOf(l, a) <= Supply(l)
  {
    var l' := SetBalance(l, a, balance);
    SupplyWithout(l', a);
    if a in l {
      SupplyWithout(l, a);
      assert l' - {a} == l - {a};
    } else {
      assert l' - {a} == l;
    }
  }

  /** A credit adds its amount as long as the supply stays in range. */
  lemma SupplyIncr(l: Ledger, a: Address, amount: nat)
    requires Supply(l) + amount < U256_MODULUS
    ensures Supply(IncrBalance(l, a, amount)) == Supply(l) + amount
    ensures BalanceOf(IncrBalance(l, a, amount), a) == BalanceOf(l, a) + amount
  {
    SupplySet(l, a, BalanceOf(l, a) + amount);
  }

  lemma {:induction false} SupplyZero(l: Ledger)
    requires forall a :: BalanceOf(l, a) == 0
    ensures Supply(l) == 0
    decreases |l|
  {
    if l != map[] {
      var a :| a in l;
      Smaller(l, a);
      SupplyWithout(l, a);
      assert BalanceOf(l, a) == 0;
      forall b
        ensures BalanceOf(l - {a}, b) == 0
      {
        assert BalanceOf(l, b) == 0;
      }
      SupplyZero(l - {a});
    }
  }

  /** The supply depends only on the balances, not on which zeros are written down. */
  lemma {:induction false} SupplyExt(l: Ledger, l': Ledger)
    requires forall a :: BalanceOf(l, a) == BalanceOf(l', a)
    ensures Supply(l) == Supply(l')
    decreases |l|
  {
    if l == map[] {
      forall a
        ensures BalanceOf(l', a) == 0
      {
        assert BalanceOf(l, a) == 0;
      }
      SupplyZero(l');
    } else {
      var a :| a in l;
      Smaller(l, a);
      SupplyWithout(l, a);
      assert BalanceOf(l, a) == BalanceOf(l', a);
      if a in l' {
        SupplyWithout(l', a);
      } else {
        assert l' - {a} == l';
      }
      forall b
        ensures BalanceOf(l - {a}, b) == BalanceOf(l' - {a}, b)
      {
        assert BalanceOf(l, b) == BalanceOf(l', b);
      }
      SupplyExt(l - {a}, l' - {a});
    }
  }

  lemma SupplyWithoutAny(l: Amounts, a: Address)
    ensures Supply(l) == BalanceOf(l, a) + Supply(l - {a})
  {
    if a in l {
      SupplyWithout(l, a);
    } else {
      assert l - {a} == l;
    }
  }

  /** Smaller balances make a smaller supply, and an equal one only if they are equal. */
  lemma {:induction false} SupplyMonotone(l: Ledger, l': Ledger)
    requires forall a :: BalanceOf(l', a) <= BalanceOf(l, a)
    ensures Supply(l') <= Supply(l)
    ensures Supply(l') == Supply(l) ==> forall a :: BalanceOf(l', a) == BalanceOf(l, a)
    decreases |l|
  {
    if l == map[] {
      forall a
        ensures BalanceOf(l', a) == 0
      {
        assert BalanceOf(l', a) <= BalanceOf(l, a);
      }
      SupplyZero(l');
    } else {
      var a :| a in l;
      Smaller(l, a);
      SupplyWithoutAny(l, a);
      SupplyWithoutAny(l', a);
      forall b
        ensures BalanceOf(l' - {a}, b) <= BalanceOf(l - {a}, b)
      {
        assert BalanceOf(l', b) <= BalanceOf(l, b);
      }
      SupplyMonotone(l - {a}, l' - {a});
      if Supply(l') == Supply(l) {
        forall b
          ensures BalanceOf(l', b) == BalanceOf(l, b)
        {
          assert BalanceOf(l' - {a}, b) == BalanceOf(l - {a}, b);
        }
      }
    }
  }

  /** Credits one after the other. */
  function CreditAll(l: Ledger, credits: seq<(Address, nat)>): Ledger
    decreases |credits|
  {
    if credits == [] then l
    else
      var last := credits[|credits| - 1];
      IncrBalance(CreditAll(l, credits[..|credits| - 1]), last.0, last.1)
  }

  function TotalOf(credits: seq<(Address, nat)>): nat
    decreases |credits|
  {
    if credits == [] then 0 else TotalOf(credits[..|credits| - 1]) + credits[|credits| - 1].1
  }

  /** Each adds its amount as long as the supply stays in range. */
  lemma {:induction false} SupplyCredited(l: Ledger, credits: seq<(Address, nat)>)
    requires Supply(l) + TotalOf(credits) < U256_MODULUS
    ensures Supply(CreditAll(l, credits)) == Supply(l) + TotalOf(credits)
    decreases |credits|
  {
    if credits != [] {
      var n := |credits| - 1;
      SupplyCredited(l, credits[..n]);
      SupplyIncr(CreditAll(l, credits[..n]), credits[n].0, credits[n].1);
    }
  }

  lemma SupplyOfTwo(l: Ledger, a: Address, b: Address)
    requires a != b
    ensures BalanceOf(l, a) + BalanceOf(l, b) <= Supply(l)
  {
    SupplySet(l, a, 0);
    SupplySet(SetBalance(l, a, 0), b, 0);
  }
}
