/** The authorization list of EIP-7702 (crates/handler/src/pre_execution.rs): applied in list order, or in
    the order in which parallel signature recovery delivers its results. */
module Eip7702 {
  import opened Wrappers
  import opened Journal
  import L = Ledger

  const PER_EMPTY_ACCOUNT_COST: nat := 25000
  const PER_AUTH_BASE_COST: nat := 12500

  // ---------- Data ----------

  /** Contract code that is not a delegation cannot be replaced. */
  datatype Code = NoCode | Delegation(to: Address) | Contract

  /** `missing` says that the account was loaded as not existing and has not been touched since. */
  datatype Acct = Acct(nonce: nat, code: Code, hasBalance: bool, missing: bool, warm: bool)

  /** `authority` is what signature recovery yields. */
  datatype Auth = Auth(chainOk: bool, authority: Option<Address>, nonce: nat, target: Address)

  /** An authority that has been looked at, with the number of refunds it earned. */
  datatype Seen = Seen(acct: Acct, refunds: nat)

  type Accts = map<Address, Acct>
  type Seens = map<Address, Seen>

  const NO_ACCT: Acct := Acct(0, NoCode, false, true, false)

  function Before(base: Accts, a: Address): Seen {
    Seen(if a in base then base[a] else NO_ACCT, 0)
  }

  // ---------- One authorization ----------

  /** The authority, unless chain id, nonce or signature rule the authorization out. */
  function Recovered(u: Auth): Option<Address> {
    if !u.chainOk || u.nonce == U64_MAX then None else u.authority
  }

  predicate By(u: Auth, a: Address) {
    Recovered(u) == Some(a)
  }

  predicate IsEmpty(x: Acct) {
    x.nonce == 0 && x.code.NoCode? && !x.hasBalance
  }

  function Designation(target: Address): Code {
    if target == 0 then NoCode else Delegation(target)
  }

  function Warm(v: Seen): Seen {
    v.(acct := v.acct.(warm := true))
  }

  function Fired(v: Seen, target: Address): Seen {
    Seen(Acct(v.acct.nonce + 1, Designation(target), v.acct.hasBalance, false, true),
         v.refunds + if IsEmpty(v.acct) && v.acct.missing then 0 else 1)
  }

  predicate Fires(v: Seen, u: Auth) {
    !v.acct.code.Contract? && u.nonce == v.acct.nonce
  }

  function ApplyTo(v: Seen, u: Auth): Seen {
    if Fires(v, u) then Fired(v, u.target) else Warm(v)
  }

  // ---------- The list ----------

  function SeenOf(base: Accts, st: Seens, a: Address): Seen {
    if a in st then st[a] else Before(base, a)
  }

  function ApplyOne(base: Accts, st: Seens, u: Auth): Seens {
    match Recovered(u)
    case None => st
    case Some(a) => st[a := ApplyTo(SeenOf(base, st, a), u)]
  }

  function Apply(base: Accts, auths: seq<Auth>): Seens
    decreases |auths|
  {
    if auths == [] then map[]
    else ApplyOne(base, Apply(base, auths[..|auths| - 1]), auths[|auths| - 1])
  }

  /** What the list does to one authority. */
  function Fold(v: Seen, auths: seq<Auth>, a: Address): Seen
    decreases |auths|
  {
    if auths == [] then v
    else
      var w := Fold(v, auths[..|auths| - 1], a);
      if By(auths[|auths| - 1], a) then ApplyTo(w, auths[|auths| - 1]) else w
  }

  ghost predicate Named(auths: seq<Auth>, a: Address) {
    exists k :: 0 <= k < |auths| && By(auths[k], a)
  }

  /** Authorities do not influence each other. */
  lemma {:induction false} ApplyAt(base: Accts, auths: seq<Auth>, a: Address)
    ensures a in Apply(base, auths) <==> Named(auths, a)
    ensures SeenOf(base, Apply(base, auths), a) == Fold(Before(base, a), auths, a)
    decreases |auths|
  {
    if auths != [] {
      var n := |auths| - 1;
      ApplyAt(base, auths[..n], a);
      NamedLast(auths, a);
    }
  }

  lemma NamedLast(auths: seq<Auth>, a: Address)
    requires auths != []
    ensures Named(auths, a) <==> Named(auths[..|auths| - 1], a) || By(auths[|auths| - 1], a)
  {
    var n := |auths| - 1;
    if Named(auths, a) {
      var k :| 0 <= k < |auths| && By(auths[k], a);
      assert k < n ==> By(auths[..n][k], a);
    }
    if Named(auths[..n], a) {
      var k :| 0 <= k < n && By(auths[..n][k], a);
      assert By(auths[k], a);
    }
  }

  lemma {:induction false} FoldAppend(v: Seen, s: seq<Auth>, t: seq<Auth>, a: Address)
    ensures Fold(v, s + t, a) == Fold(Fold(v, s, a), t, a)
    decreases |t|
  {
    if t == [] {
      assert s + t == s;
    } else {
      var n := |t| - 1;
      assert (s + t)[..|s + t| - 1] == s + t[..n];
      FoldAppend(v, s, t[..n], a);
    }
  }

  // ---------- When the order does not matter ----------

  ghost predicate HasNonce(auths: seq<Auth>, a: Address, n: nat) {
    exists u :: u in auths && By(u, a) && u.nonce == n
  }

  ghost predicate SameTarget(auths: seq<Auth>, a: Address, n: nat) {
    forall u, w :: u in auths && w in auths && By(u, a) && By(w, a) && u.nonce == n && w.nonce == n ==>
      u.target == w.target
  }

  /** The authority holds a contract, or nothing matches its nonce, or what matches agrees and nothing
      waits for the next nonce. */
  ghost predicate SteadyAt(v: Seen, auths: seq<Auth>, a: Address) {
    var n := v.acct.nonce;
    || v.acct.code.Contract?
    || !HasNonce(auths, a, n)
    || (!HasNonce(auths, a, n + 1) && SameTarget(auths, a, n))
  }

  ghost predicate Steady(base: Accts, auths: seq<Auth>) {
    forall a :: Named(auths, a) ==> SteadyAt(Before(base, a), auths, a)
  }

  /** The outcome for a steady authority, in terms of which authorizations there are. */
  ghost predicate Closed(v: Seen, auths: seq<Auth>, a: Address, w: Seen) {
    && (!Named(auths, a) ==> w == v)
    && (Named(auths, a) && (v.acct.code.Contract? || !HasNonce(auths, a, v.acct.nonce)) ==> w == Warm(v))
    && (!v.acct.code.Contract? ==>
          forall u :: u in auths && By(u, a) && u.nonce == v.acct.nonce ==> w == Fired(v, u.target))
  }

  lemma SteadyPrefix(v: Seen, auths: seq<Auth>, a: Address)
    requires auths != [] && SteadyAt(v, auths, a)
    ensures SteadyAt(v, auths[..|auths| - 1], a)
  {
    var p := auths[..|auths| - 1];
    assert forall u :: u in p ==> u in auths;
  }

  lemma {:induction false} FoldClosed(v: Seen, auths: seq<Auth>, a: Address)
    requires SteadyAt(v, auths, a)
    ensures Closed(v, auths, a, Fold(v, auths, a))
    decreases |auths|
  {
    if auths != [] {
      SteadyPrefix(v, auths, a);
      FoldClosed(v, auths[..|auths| - 1], a);
      ClosedLast(v, auths, a, Fold(v, auths[..|auths| - 1], a));
    }
  }

  lemma ClosedLast(v: Seen, auths: seq<Auth>, a: Address, w: Seen)
    requires auths != [] && SteadyAt(v, auths, a) && Closed(v, auths[..|auths| - 1], a, w)
    ensures Closed(v, auths, a, if By(auths[|auths| - 1], a) then ApplyTo(w, auths[|auths| - 1]) else w)
  {
    var m := |auths| - 1;
    var p, last := auths[..m], auths[m];
    assert auths == p + [last];
    NamedLast(auths, a);
    var n := v.acct.nonce;
    assert HasNonce(auths, a, n) <==> HasNonce(p, a, n) || (By(last, a) && last.nonce == n);
    if By(last, a) && !v.acct.code.Contract? {
      if HasNonce(p, a, n) {
        var u :| u in p && By(u, a) && u.nonce == n;
        assert w == Fired(v, u.target);
        assert last.nonce != n + 1;
      }
    }
  }

  lemma ClosedUnique(v: Seen, auths: seq<Auth>, order: seq<Auth>, a: Address, w: Seen, w': Seen)
    requires multiset(order) == multiset(auths) && Closed(v, auths, a, w) && Closed(v, order, a, w')
    ensures w == w'
  {
    SameNamed(auths, order, a);
    SameMembers(auths, order);
    if !v.acct.code.Contract? && HasNonce(auths, a, v.acct.nonce) {
      var u :| u in auths && By(u, a) && u.nonce == v.acct.nonce;
      assert u in order;
    }
  }

  lemma SameMembers(s: seq<Auth>, t: seq<Auth>)
    requires multiset(s) == multiset(t)
    ensures forall u :: u in s <==> u in t
  {
    forall u
      ensures u in s <==> u in t
    {
      assert u in s <==> u in multiset(s);
      assert u in t <==> u in multiset(t);
    }
  }

  lemma SameNamed(s: seq<Auth>, t: seq<Auth>, a: Address)
    requires multiset(s) == multiset(t)
    ensures Named(s, a) <==> Named(t, a)
  {
    SameMembers(s, t);
    if Named(s, a) {
      var k :| 0 <= k < |s| && By(s[k], a);
      assert s[k] in t;
    }
    if Named(t, a) {
      var k :| 0 <= k < |t| && By(t[k], a);
      assert t[k] in s;
    }
  }

  lemma SteadySame(v: Seen, s: seq<Auth>, t: seq<Auth>, a: Address)
    requires multiset(s) == multiset(t) && SteadyAt(v, s, a)
    ensures SteadyAt(v, t, a)
  {
    SameMembers(s, t);
  }

  /** A steady list gives the same accounts and refunds in every order. */
  lemma SteadyInAnyOrder(base: Accts, auths: seq<Auth>, order: seq<Auth>)
    requires Steady(base, auths) && multiset(order) == multiset(auths)
    ensures Apply(base, order) == Apply(base, auths)
  {
    var s, t := Apply(base, auths), Apply(base, order);
    forall a
      ensures a in s <==> a in t
      ensures a in s ==> s[a] == t[a]
    {
      ApplyAt(base, auths, a);
      ApplyAt(base, order, a);
      SameNamed(auths, order, a);
      if a in s {
        var v := Before(base, a);
        SteadySame(v, auths, order, a);
        FoldClosed(v, auths, a);
        FoldClosed(v, order, a);
        ClosedUnique(v, auths, order, a, s[a], t[a]);
      }
    }
    assert s.Keys == t.Keys;
  }

  // ---------- Otherwise it does ----------

  function Matching(auths: seq<Auth>, a: Address, n: nat, want: bool): seq<Auth>
    decreases |auths|
  {
    if auths == [] then []
    else
      var m := |auths| - 1;
      Matching(auths[..m], a, n, want) + if (By(auths[m], a) && auths[m].nonce == n) == want then [auths[m]] else []
  }

  lemma {:induction false} MatchingParts(auths: seq<Auth>, a: Address, n: nat)
    ensures multiset(Matching(auths, a, n, true)) + multiset(Matching(auths, a, n, false)) == multiset(auths)
    ensures forall u :: u in Matching(auths, a, n, true) ==> By(u, a) && u.nonce == n
    ensures forall u :: u in Matching(auths, a, n, false) ==> !(By(u, a) && u.nonce == n)
    decreases |auths|
  {
    if auths != [] {
      var m := |auths| - 1;
      MatchingParts(auths[..m], a, n);
      assert auths == auths[..m] + [auths[m]];
    }
  }

  /** Without an authorization for the current nonce nothing fires. */
  lemma {:induction false} FoldStuck(v: Seen, auths: seq<Auth>, a: Address)
    requires !HasNonce(auths, a, v.acct.nonce)
    ensures Fold(v, auths, a) == v || Fold(v, auths, a) == Warm(v)
    decreases |auths|
  {
    if auths != [] {
      var m := |auths| - 1;
      var p, last := auths[..m], auths[m];
      assert forall u :: u in p ==> u in auths;
      assert last in auths;
      FoldStuck(v, p, a);
    }
  }

  lemma {:induction false} FoldGrows(v: Seen, auths: seq<Auth>, a: Address)
    requires !v.acct.code.Contract?
    ensures Fold(v, auths, a).acct.nonce >= v.acct.nonce && !Fold(v, auths, a).acct.code.Contract?
    ensures HasNonce(auths, a, v.acct.nonce) ==> Fold(v, auths, a).acct.nonce > v.acct.nonce
    decreases |auths|
  {
    if auths != [] {
      var m := |auths| - 1;
      assert auths == auths[..m] + [auths[m]];
      FoldGrows(v, auths[..m], a);
    }
  }

  /** If the nonce matches first and nothing waits for the next one, this authorization decides. */
  lemma FoldFirst(v: Seen, u: Auth, rest: seq<Auth>, a: Address)
    requires By(u, a) && Fires(v, u) && !HasNonce(rest, a, v.acct.nonce + 1)
    ensures Fold(v, [u] + rest, a).acct.nonce == v.acct.nonce + 1
    ensures Fold(v, [u] + rest, a).acct.code == Designation(u.target)
  {
    FoldAppend(v, [u], rest, a);
    assert [u][..0] == [];
    assert Fold(v, [u], a) == ApplyTo(Fold(v, [u][..0], a), u);
    FoldStuck(Fired(v, u.target), rest, a);
  }

  lemma OneOut(auths: seq<Auth>, k: nat)
    requires k < |auths|
    ensures multiset([auths[k]] + auths[..k] + auths[k + 1..]) == multiset(auths)
  {
    assert auths == auths[..k] + [auths[k]] + auths[k + 1..];
  }

  /** With something for the next nonce, putting the matching ones first or last decides how far the
      nonce gets. */
  lemma NextNonceMatters(v: Seen, auths: seq<Auth>, a: Address) returns (s: seq<Auth>, t: seq<Auth>)
    requires !v.acct.code.Contract? && HasNonce(auths, a, v.acct.nonce) && HasNonce(auths, a, v.acct.nonce + 1)
    ensures multiset(s) == multiset(auths) && multiset(t) == multiset(auths)
    ensures Fold(v, s, a) != Fold(v, t, a)
  {
    var n := v.acct.nonce;
    var hit, miss := Matching(auths, a, n, true), Matching(auths, a, n, false);
    MatchingParts(auths, a, n);
    s, t := hit + miss, miss + hit;
    SameMembers(auths, s);
    var u :| u in auths && By(u, a) && u.nonce == n;
    assert u in hit;
    var w :| w in auths && By(w, a) && w.nonce == n + 1;
    assert w in miss;
    HitsFireOnce(v, hit, a);
    FoldAppend(v, hit, miss, a);
    FoldGrows(Fold(v, hit, a), miss, a);
    FoldAppend(v, miss, hit, a);
    FoldStuck(v, miss, a);
    HitsFireOnce(Fold(v, miss, a), hit, a);
  }

  lemma {:induction false} HitsFireOnce(v: Seen, hit: seq<Auth>, a: Address)
    requires !v.acct.code.Contract? && hit != [] && forall u :: u in hit ==> By(u, a) && u.nonce == v.acct.nonce
    ensures Fold(v, hit, a).acct.nonce == v.acct.nonce + 1 && !Fold(v, hit, a).acct.code.Contract?
  {
    var u, rest := hit[0], hit[1..];
    assert hit == [u] + rest;
    assert forall w :: w in rest ==> w in hit;
    FoldFirst(v, u, rest, a);
  }

  lemma TargetMatters(v: Seen, auths: seq<Auth>, a: Address) returns (s: seq<Auth>, t: seq<Auth>)
    requires !v.acct.code.Contract? && !HasNonce(auths, a, v.acct.nonce + 1) && !SameTarget(auths, a, v.acct.nonce)
    ensures multiset(s) == multiset(auths) && multiset(t) == multiset(auths)
    ensures Fold(v, s, a) != Fold(v, t, a)
  {
    var n := v.acct.nonce;
    var u, w :| u in auths && w in auths && By(u, a) && By(w, a) && u.nonce == n && w.nonce == n
                && u.target != w.target;
    var i :| 0 <= i < |auths| && auths[i] == u;
    var k :| 0 <= k < |auths| && auths[k] == w;
    OneOut(auths, i);
    OneOut(auths, k);
    s, t := [u] + (auths[..i] + auths[i + 1..]), [w] + (auths[..k] + auths[k + 1..]);
    assert s == [u] + auths[..i] + auths[i + 1..];
    assert t == [w] + auths[..k] + auths[k + 1..];
    SameMembers(s, auths);
    SameMembers(t, auths);
    assert forall x :: x in auths[..i] + auths[i + 1..] ==> x in s;
    assert forall x :: x in auths[..k] + auths[k + 1..] ==> x in t;
    FoldFirst(v, u, auths[..i] + auths[i + 1..], a);
    FoldFirst(v, w, auths[..k] + auths[k + 1..], a);
  }

  ghost predicate AnyOrder(base: Accts, auths: seq<Auth>) {
    forall order :: multiset(order) == multiset(auths) ==> Apply(base, order) == Apply(base, auths)
  }

  /** The list gives one result in every order exactly when it is steady. */
  lemma OrderMatters(base: Accts, auths: seq<Auth>)
    ensures AnyOrder(base, auths) <==> Steady(base, auths)
  {
    if Steady(base, auths) {
      forall order | multiset(order) == multiset(auths)
        ensures Apply(base, order) == Apply(base, auths)
      {
        SteadyInAnyOrder(base, auths, order);
      }
    } else {
      var a :| Named(auths, a) && !SteadyAt(Before(base, a), auths, a);
      var v := Before(base, a);
      var s, t;
      if HasNonce(auths, a, v.acct.nonce + 1) {
        s, t := NextNonceMatters(v, auths, a);
      } else {
        s, t := TargetMatters(v, auths, a);
      }
      ApplyAt(base, s, a);
      ApplyAt(base, t, a);
    }
  }

  ghost predicate Distinct(auths: seq<Auth>) {
    forall i, k :: 0 <= i < k < |auths| ==> Recovered(auths[i]).None? || Recovered(auths[i]) != Recovered(auths[k])
  }

  /** One authorization per authority is enough. */
  lemma DistinctIsSteady(base: Accts, auths: seq<Auth>)
    requires Distinct(auths)
    ensures Steady(base, auths)
  {
    forall a | Named(auths, a)
      ensures SteadyAt(Before(base, a), auths, a)
    {
      forall u, w | u in auths && w in auths && By(u, a) && By(w, a)
        ensures u == w
      {
        var i :| 0 <= i < |auths| && auths[i] == u;
        var k :| 0 <= k < |auths| && auths[k] == w;
      }
    }
  }

  // ---------- As the source runs it ----------

  /** The refund counter of the source is a single number. */
  function Counts(st: Seens): L.Amounts {
    map a | a in st :: st[a].refunds
  }

  lemma CountStep(base: Accts, st: Seens, a: Address, v: Seen)
    requires v.refunds >= SeenOf(base, st, a).refunds
    ensures L.Supply(Counts(st[a := v])) == L.Supply(Counts(st)) + v.refunds - SeenOf(base, st, a).refunds
  {
    L.SupplySet(Counts(st), a, v.refunds);
    assert Counts(st[a := v]) == L.SetBalance(Counts(st), a, v.refunds);
  }

  /** The checks and the effect of one recovered authorization; both loops of the source share it. */
  method Authorize(base: Accts, st: Seens, recovered: Option<Address>, u: Auth) returns (st': Seens, refund: nat)
    requires recovered == Recovered(u)
    ensures st' == ApplyOne(base, st, u)
    ensures L.Supply(Counts(st')) == L.Supply(Counts(st)) + refund
  {
    st', refund := st, 0;
    if recovered.None? {
      return;
    }
    var a := recovered.value;
    var v := Warm(SeenOf(base, st, a));
    st' := st[a := v];
    if !v.acct.code.Contract? && u.nonce == v.acct.nonce {
      refund := if IsEmpty(v.acct) && v.acct.missing then 0 else 1;
      v := Seen(v.acct.(code := Designation(u.target), nonce := v.acct.nonce + 1, missing := false),
                v.refunds + refund);
      st' := st[a := v];
    }
    CountStep(base, st, a, v);
  }

  method ApplyList(base: Accts, auths: seq<Auth>) returns (st: Seens, refundedGas: nat)
    ensures st == Apply(base, auths)
    ensures refundedGas == L.Supply(Counts(st)) * (PER_EMPTY_ACCOUNT_COST - PER_AUTH_BASE_COST)
  {
    st := map[];
    var refunded := 0;
    assert Counts(st) == map[];
    for k := 0 to |auths|
      invariant st == Apply(base, auths[..k]) && refunded == L.Supply(Counts(st))
    {
      var u := auths[k];
      var refund;
      assert auths[..k + 1][..k] == auths[..k];
      st, refund := Authorize(base, st, Recovered(u), u);
      refunded := refunded + refund;
    }
    assert auths[..|auths|] == auths;
    refundedGas := refunded * (PER_EMPTY_ACCOUNT_COST - PER_AUTH_BASE_COST);
  }

  /** What a worker sends for an authorization. */
  function Message(u: Auth): (Option<Address>, Auth) {
    (Recovered(u), u)
  }

  function Messages(auths: seq<Auth>): seq<(Option<Address>, Auth)> {
    seq(|auths|, k requires 0 <= k < |auths| => Message(auths[k]))
  }

  function Order(received: seq<(Option<Address>, Auth)>): seq<Auth> {
    seq(|received|, k requires 0 <= k < |received| => received[k].1)
  }

  lemma TakenOut<T>(s: seq<T>, i: nat, rest: seq<T>)
    requires i < |s| && rest == s[..i] + s[i + 1..]
    ensures multiset(rest) == multiset(s) - multiset{s[i]}
  {
    assert s == s[..i] + [s[i]] + s[i + 1..];
  }

  lemma Find<T>(s: seq<T>, x: T) returns (i: nat)
    requires x in multiset(s)
    ensures i < |s| && s[i] == x
  {
    i :| 0 <= i < |s| && s[i] == x;
  }

  lemma MessagesLast(auths: seq<Auth>)
    requires auths != []
    ensures var n := |auths| - 1;
            Messages(auths) == Messages(auths[..n]) + [Message(auths[n])]
            && multiset(Messages(auths[..n])) == multiset(Messages(auths)) - multiset{Message(auths[n])}
  {
    var n := |auths| - 1;
    assert Messages(auths) == Messages(auths[..n]) + [Message(auths[n])];
  }

  lemma OrderWithout(received: seq<(Option<Address>, Auth)>, i: nat, rest: seq<(Option<Address>, Auth)>)
    requires i < |received| && rest == received[..i] + received[i + 1..]
    ensures multiset(Order(received)) == multiset(Order(rest)) + multiset{received[i].1}
  {
    assert Order(rest) == Order(received)[..i] + Order(received)[i + 1..];
    TakenOut(Order(received), i, Order(rest));
  }

  /** The messages arrive in some order of the list. */
  lemma {:induction false} ArrivalOrder(received: seq<(Option<Address>, Auth)>, auths: seq<Auth>)
    requires multiset(received) == multiset(Messages(auths))
    ensures multiset(Order(received)) == multiset(auths)
    decreases |auths|
  {
    if auths == [] {
      assert |multiset(received)| == |received|;
      assert Order(received) == [];
    } else {
      var n := |auths| - 1;
      MessagesLast(auths);
      var i := Find(received, Message(auths[n]));
      var rest := received[..i] + received[i + 1..];
      TakenOut(received, i, rest);
      ArrivalOrder(rest, auths[..n]);
      OrderWithout(received, i, rest);
      assert multiset(auths) == multiset(auths[..n]) + multiset{auths[n]} by {
        assert auths == auths[..n] + [auths[n]];
      }
    }
  }

  /** Each message carries the authority of its authorization. */
  lemma ArrivalContent(received: seq<(Option<Address>, Auth)>, auths: seq<Auth>)
    requires multiset(received) == multiset(Messages(auths))
    ensures forall k :: 0 <= k < |received| ==> received[k].0 == Recovered(received[k].1)
  {
    forall k | 0 <= k < |received|
      ensures received[k].0 == Recovered(received[k].1)
    {
      assert received[k] in multiset(received);
      assert received[k] in Messages(auths);
    }
  }

  /** The parallel form: equal to the list applied in some order, and for a steady list to the
      sequential form, in accounts and refund. */
  method ApplyParallel(base: Accts, auths: seq<Auth>, received: seq<(Option<Address>, Auth)>)
    returns (st: Seens, refundedGas: nat)
    requires multiset(received) == multiset(Messages(auths))
    ensures st == Apply(base, Order(received)) && multiset(Order(received)) == multiset(auths)
    ensures refundedGas == L.Supply(Counts(st)) * (PER_EMPTY_ACCOUNT_COST - PER_AUTH_BASE_COST)
    ensures Steady(base, auths) ==> st == Apply(base, auths)
  {
    ArrivalOrder(received, auths);
    ArrivalContent(received, auths);
    var refunded := 0;
    st := map[];
    assert Counts(st) == map[];
    for k := 0 to |received|
      invariant st == Apply(base, Order(received[..k])) && refunded == L.Supply(Counts(st))
    {
      var refund;
      assert Order(received[..k + 1])[..k] == Order(received[..k]);
      st, refund := Authorize(base, st, received[k].0, received[k].1);
      refunded := refunded + refund;
    }
    assert received[..|received|] == received;
    refundedGas := refunded * (PER_EMPTY_ACCOUNT_COST - PER_AUTH_BASE_COST);
    if Steady(base, auths) {
      SteadyInAnyOrder(base, auths, Order(received));
    }
  }
}
