/** The BLAKE2 compression function F (crates/precompile/src/blake2.rs): the portable loop and the
    AVX2 block function, both proved to leave F of RFC 7693 in the chaining words.

    The word operations are a parameter with a few algebraic laws; the last section supplies 64-bit
    vectors and proves the laws for them. */
module Blake2 {
  import opened Blake2Rounds

  /** The rotation amounts of G. */
  datatype Amount = R32 | R24 | R16 | R63

  datatype WordOps<!W> = WordOps(
    add: (W, W) -> W,
    add3: (W, W, W) -> W,  // two wrapping additions, left to right
    xor: (W, W) -> W,
    not: W -> W,
    rotateRight: (W, Amount) -> W,
    shiftOr: (W, Amount) -> W,  // rotation as the vector code writes it: two shifts and an or
    ones: W,
    zero: W,
    iv: seq<W>)

  ghost predicate AddSwaps<W(!new)>(ops: WordOps<W>) {
    forall a, b, x :: ops.add3(a, b, x) == ops.add3(a, x, b)
  }

  ghost predicate XorRotates<W(!new)>(ops: WordOps<W>) {
    forall x, y, h :: ops.xor(ops.xor(x, y), h) == ops.xor(h, ops.xor(x, y))
  }

  ghost predicate NotIsXor<W(!new)>(ops: WordOps<W>) {
    forall w :: ops.not(w) == ops.xor(w, ops.ones) && ops.xor(w, ops.zero) == w
  }

  ghost predicate ShiftsRotate<W(!new)>(ops: WordOps<W>) {
    forall w, n :: ops.shiftOr(w, n) == ops.rotateRight(w, n)
  }

  ghost predicate Laws<W(!new)>(ops: WordOps<W>) {
    && |ops.iv| == 8
    && AddSwaps(ops) && XorRotates(ops) && NotIsXor(ops) && ShiftsRotate(ops)
  }

  // ---------- Specification ----------

  /** The mixing function G of section 3.1 of RFC 7693. */
  function G<W>(ops: WordOps<W>): Mix<W> {
    (q: Quad<W>, x: W, y: W) =>
      var a1 := ops.add3(q.a, q.b, x);
      var d1 := ops.rotateRight(ops.xor(q.d, a1), R32);
      var c1 := ops.add(q.c, d1);
      var b1 := ops.rotateRight(ops.xor(q.b, c1), R24);
      var a2 := ops.add3(a1, b1, y);
      var d2 := ops.rotateRight(ops.xor(d1, a2), R16);
      var c2 := ops.add(c1, d2);
      var b2 := ops.rotateRight(ops.xor(b1, c2), R63);
      Quad(a2, b2, c2, d2)
  }

  /** The working state before the first round; `flags` is added to its last row. */
  function InitialRows<W>(ops: WordOps<W>, h: seq<W>, flags: Vec<W>): Rows<W>
    requires |h| == 8 && |ops.iv| == 8
  {
    Rows(Vec(h[0], h[1], h[2], h[3]), Vec(h[4], h[5], h[6], h[7]),
         Vec(ops.iv[0], ops.iv[1], ops.iv[2], ops.iv[3]),
         XorLanes(ops, Vec(ops.iv[4], ops.iv[5], ops.iv[6], ops.iv[7]), flags))
  }

  function XorLanes<W>(ops: WordOps<W>, x: Vec<W>, y: Vec<W>): Vec<W> {
    Vec(ops.xor(x.l0, y.l0), ops.xor(x.l1, y.l1), ops.xor(x.l2, y.l2), ops.xor(x.l3, y.l3))
  }

  /** The two halves of the working state are added into the chaining words. */
  function FeedForward<W>(ops: WordOps<W>, h: seq<W>, v: Rows<W>): (r: seq<W>)
    requires |h| == 8
    ensures |r| == 8
  {
    var lo := XorLanes(ops, Vec(h[0], h[1], h[2], h[3]), XorLanes(ops, v.a, v.c));
    var hi := XorLanes(ops, Vec(h[4], h[5], h[6], h[7]), XorLanes(ops, v.b, v.d));
    [lo.l0, lo.l1, lo.l2, lo.l3, hi.l0, hi.l1, hi.l2, hi.l3]
  }

  function Flags<W>(ops: WordOps<W>, t0: W, t1: W, final: bool): Vec<W> {
    Vec(t0, t1, if final then ops.ones else ops.zero, ops.zero)
  }

  /** The compression function F of section 3.2 of RFC 7693, with a free round count as in EIP-152. */
  ghost function F<W>(ops: WordOps<W>, rounds: nat, h: seq<W>, m: seq<W>, flags: Vec<W>): (r: seq<W>)
    requires |h| == 8 && |m| == 16 && |ops.iv| == 8
    ensures |r| == 8
  {
    FeedForward(ops, h, Rounds(G(ops), m, rounds, InitialRows(ops, h, flags)))
  }

  // ---------- The portable implementation ----------

  method LoadState<W(!new)>(ops: WordOps<W>, h: array<W>, t0: W, t1: W, final: bool) returns (v: array<W>)
    requires h.Length == 8 && Laws(ops)
    ensures fresh(v) && v.Length == 16
    ensures RowsOf(v[..]) == InitialRows(ops, h[..], Flags(ops, t0, t1, final))
  {
    var words, iv := h[..], ops.iv;
    v := new W[16](i requires 0 <= i < 16 => if i < 8 then words[i] else iv[i - 8]);
    v[12] := ops.xor(v[12], t0);
    v[13] := ops.xor(v[13], t1);
    if final {
      v[14] := ops.not(v[14]);
    }
  }

  method CompressPortable<W(!new)>(ops: WordOps<W>, rounds: nat, h: array<W>, m: seq<W>, t0: W, t1: W, final: bool)
    requires h.Length == 8 && |m| == 16 && Laws(ops)
    modifies h
    ensures h[..] == F(ops, rounds, old(h[..]), m, Flags(ops, t0, t1, final))
  {
    var v := LoadState(ops, h, t0, t1, final);
    RoundsInPlace(G(ops), v, m, rounds);
    FeedForwardInPlace(ops, h, v);
  }

  method FeedForwardInPlace<W>(ops: WordOps<W>, h: array<W>, v: array<W>)
    requires h.Length == 8 && v.Length == 16
    modifies h
    ensures h[..] == FeedForward(ops, old(h[..]), RowsOf(old(v[..])))
  {
    for i := 0 to 8
      invariant v[..] == old(v[..])
      invariant forall j :: 0 <= j < i ==> h[j] == ops.xor(old(h[j]), ops.xor(v[j], v[j + 8]))
      invariant forall j :: i <= j < 8 ==> h[j] == old(h[j])
    {
      h[i] := ops.xor(h[i], ops.xor(v[i], v[i + 8]));
    }
  }

  // ---------- The AVX2 implementation ----------

  /** `g1` on one lane.  The message word is added before b. */
  function G1<W>(ops: WordOps<W>): HalfMix<W> {
    (q: Quad<W>, m: W) =>
      var a := ops.add3(q.a, m, q.b);
      var d := ops.shiftOr(ops.xor(q.d, a), R32);
      var c := ops.add(q.c, d);
      var b := ops.shiftOr(ops.xor(q.b, c), R24);
      Quad(a, b, c, d)
  }

  /** `g2` on one lane. */
  function G2<W>(ops: WordOps<W>): HalfMix<W> {
    (q: Quad<W>, m: W) =>
      var a := ops.add3(q.a, m, q.b);
      var d := ops.shiftOr(ops.xor(q.d, a), R16);
      var c := ops.add(q.c, d);
      var b := ops.shiftOr(ops.xor(q.b, c), R63);
      Quad(a, b, c, d)
  }

  /** On one lane, the two vector halves are G. */
  lemma HalvesAreG<W(!new)>(ops: WordOps<W>, q: Quad<W>, x: W, y: W)
    requires Laws(ops)
    ensures Compose(G1(ops), G2(ops))(q, x, y) == G(ops)(q, x, y)
  {
    assert ops.add3(q.a, q.b, x) == ops.add3(q.a, x, q.b);
    var h := G1(ops)(q, x);
    assert ops.add3(h.a, h.b, y) == ops.add3(h.a, y, h.b);
  }

  lemma VectorSpecIsG<W(!new)>(ops: WordOps<W>, m: seq<W>, n: nat, v: Rows<W>)
    requires |m| == 16 && Laws(ops)
    ensures Rounds(Compose(G1(ops), G2(ops)), m, n, v) == Rounds(G(ops), m, n, v)
  {
    forall q, x, y
      ensures Compose(G1(ops), G2(ops))(q, x, y) == G(ops)(q, x, y)
    {
      HalvesAreG(ops, q, x, y);
    }
    RoundsCongruent(Compose(G1(ops), G2(ops)), G(ops), m, n, v);
  }

  method RunVectorRounds<W(!new)>(ops: WordOps<W>, block: seq<W>, rounds: nat, start: Rows<W>) returns (v: Rows<W>)
    requires |block| == 16 && Laws(ops)
    ensures v == Rounds(G(ops), block, rounds, start)
  {
    ghost var mix := Compose(G1(ops), G2(ops));
    ghost var spec := (n: nat) => Rounds(mix, block, n, start);
    assert IsSpec(mix, block, spec) by {
      forall r: nat
        ensures SpecStep(mix, block, spec, r)
      {
      }
    }
    v := VectorRounds(G1(ops), G2(ops), block, rounds, start, spec);
    VectorSpecIsG(ops, block, rounds, start);
  }

  method CompressBlock<W(!new)>(ops: WordOps<W>, rounds: nat, block: seq<W>, words: array<W>, flags: Vec<W>)
    requires words.Length == 8 && |block| == 16 && Laws(ops)
    modifies words
    ensures words[..] == F(ops, rounds, old(words[..]), block, flags)
  {
    var iv0 := Vec(words[0], words[1], words[2], words[3]);
    var iv1 := Vec(words[4], words[5], words[6], words[7]);
    var start := Rows(iv0, iv1, Vec(ops.iv[0], ops.iv[1], ops.iv[2], ops.iv[3]),
                      XorLanes(ops, Vec(ops.iv[4], ops.iv[5], ops.iv[6], ops.iv[7]), flags));
    var v := RunVectorRounds(ops, block, rounds, start);
    var a := XorLanes(ops, XorLanes(ops, v.a, v.c), iv0);
    var b := XorLanes(ops, XorLanes(ops, v.b, v.d), iv1);
    FeedForwardOrder(ops, iv0, v.a, v.c);
    FeedForwardOrder(ops, iv1, v.b, v.d);
    Store(words, a, b);
  }

  lemma FeedForwardOrder<W(!new)>(ops: WordOps<W>, h: Vec<W>, x: Vec<W>, y: Vec<W>)
    requires XorRotates(ops)
    ensures XorLanes(ops, XorLanes(ops, x, y), h) == XorLanes(ops, h, XorLanes(ops, x, y))
  {
  }

  method Store<W>(words: array<W>, a: Vec<W>, b: Vec<W>)
    requires words.Length == 8
    modifies words
    ensures words[..] == [a.l0, a.l1, a.l2, a.l3, b.l0, b.l1, b.l2, b.l3]
  {
    words[0], words[1], words[2], words[3] := a.l0, a.l1, a.l2, a.l3;
    words[4], words[5], words[6], words[7] := b.l0, b.l1, b.l2, b.l3;
  }

  // ---------- 64-bit words and the dispatch ----------

  type Word = bv64

  const ONES: Word := 0xffff_ffff_ffff_ffff

  const IV: seq<Word> := [
    0x6a09e667f3bcc908, 0xbb67ae8584caa73b, 0x3c6ef372fe94f82b, 0xa54ff53a5f1d36f1,
    0x510e527fade682d1, 0x9b05688c2b3e6c1f, 0x1f83d9abfb41bd6b, 0x5be0cd19137e2179
  ]

  function Add(x: Word, y: Word): Word { x + y }

  function Add3(x: Word, y: Word, z: Word): Word { x + y + z }

  function Xor(x: Word, y: Word): Word { x ^ y }

  function Not(x: Word): Word { !x }

  function RotateRight(x: Word, n: Amount): Word {
    match n
    case R32 => x.RotateRight(32)
    case R24 => x.RotateRight(24)
    case R16 => x.RotateRight(16)
    case R63 => x.RotateRight(63)
  }

  function ShiftOr(x: Word, n: Amount): Word {
    match n
    case R32 => (x >> 32) | (x << 64 - 32)
    case R24 => (x >> 24) | (x << 64 - 24)
    case R16 => (x >> 16) | (x << 64 - 16)
    case R63 => (x >> 63) | (x << 64 - 63)
  }

  const Blake2b: WordOps<Word> := WordOps(Add, Add3, Xor, Not, RotateRight, ShiftOr, ONES, 0, IV)

  lemma AddLaw(a: Word, b: Word, x: Word)
    ensures Add3(a, b, x) == Add3(a, x, b)
  {
  }

  lemma XorLaw(x: Word, y: Word, h: Word)
    ensures Xor(Xor(x, y), h) == Xor(h, Xor(x, y))
  {
  }

  lemma NotLaw(w: Word)
    ensures Not(w) == Xor(w, ONES) && Xor(w, 0) == w
  {
  }

  lemma ShiftOr32(x: Word)
    ensures (x >> 32) | (x << 64 - 32) == x.RotateRight(32)
  {
  }

  lemma ShiftOr24(x: Word)
    ensures (x >> 24) | (x << 64 - 24) == x.RotateRight(24)
  {
  }

  lemma ShiftOr16(x: Word)
    ensures (x >> 16) | (x << 64 - 16) == x.RotateRight(16)
  {
  }

  lemma ShiftOr63(x: Word)
    ensures (x >> 63) | (x << 64 - 63) == x.RotateRight(63)
  {
  }

  lemma RotationLaw(w: Word, n: Amount)
    ensures ShiftOr(w, n) == RotateRight(w, n)
  {
    match n
    case R32 => ShiftOr32(w);
    case R24 => ShiftOr24(w);
    case R16 => ShiftOr16(w);
    case R63 => ShiftOr63(w);
  }

  lemma Blake2bLaws()
    ensures Laws(Blake2b)
  {
    forall a, b, x
      ensures Blake2b.add3(a, b, x) == Blake2b.add3(a, x, b)
    {
      AddLaw(a, b, x);
    }
    forall x, y, h
      ensures Blake2b.xor(Blake2b.xor(x, y), h) == Blake2b.xor(h, Blake2b.xor(x, y))
    {
      XorLaw(x, y, h);
    }
    forall w
      ensures Blake2b.not(w) == Blake2b.xor(w, Blake2b.ones) && Blake2b.xor(w, Blake2b.zero) == w
    {
      NotLaw(w);
    }
    forall w, n
      ensures Blake2b.shiftOr(w, n) == Blake2b.rotateRight(w, n)
    {
      RotationLaw(w, n);
    }
  }

  function Count(t0: Word, t1: Word): bv128 { ((t1 as bv128) << 64) | (t0 as bv128) }

  function CountLow(count: bv128): Word { (count & 0xffff_ffff_ffff_ffff) as Word }

  function CountHigh(count: bv128): Word { (count >> 64) as Word }

  /** The two counter words survive the trip through one 128-bit count. */
  lemma CountHalves(t0: Word, t1: Word)
    ensures CountLow(Count(t0, t1)) == t0 && CountHigh(Count(t0, t1)) == t1
  {
  }

  /** Whichever implementation runs, the chaining words become F. */
  method Compress(rounds: nat, h: array<Word>, m: seq<Word>, t0: Word, t1: Word, final: bool, avx2: bool)
    requires h.Length == 8 && |m| == 16
    modifies h
    ensures h[..] == F(Blake2b, rounds, old(h[..]), m, Flags(Blake2b, t0, t1, final))
  {
    Blake2bLaws();
    if avx2 {
      var count := Count(t0, t1);
      CountHalves(t0, t1);
      var lastBlock := if final then Blake2b.ones else Blake2b.zero;
      CompressBlock(Blake2b, rounds, m, h, Vec(CountLow(count), CountHigh(count), lastBlock, Blake2b.zero));
    } else {
      CompressPortable(Blake2b, rounds, h, m, t0, t1, final);
    }
  }
}
