/** The BLAKE2 round structure (crates/precompile/src/blake2.rs), independent of the word operations.

    Both implementations arrange the mixing function G over sixteen words.  Everything here is
    generic in the word type and in G, so it is about the arrangement alone: which four words each
    G sees, with which two message words, in which order. */
module Blake2Rounds {

  datatype Quad<+W> = Quad(a: W, b: W, c: W, d: W)

  /** Four lanes, or one row of the four-by-four state. */
  datatype Vec<+W> = Vec(l0: W, l1: W, l2: W, l3: W)

  /** The sixteen-word state v as rows v[0..4], v[4..8], v[8..12], v[12..16]. */
  datatype Rows<+W> = Rows(a: Vec<W>, b: Vec<W>, c: Vec<W>, d: Vec<W>)

  type Mix<!W> = (Quad<W>, W, W) -> Quad<W>
  type HalfMix<!W> = (Quad<W>, W) -> Quad<W>

  /** A position in the state or in the message block. */
  type Index = i: int | 0 <= i < 16

  /** The message schedule of section 2.7 of RFC 7693. */
  function Sigma(r: nat): (s: seq<Index>)
    requires r < 10
    ensures |s| == 16
  {
    match r
    case 0 => [0, 1, 2, 3, 4, 5, 6, 7, 8, 9, 10, 11, 12, 13, 14, 15]
    case 1 => [14, 10, 4, 8, 9, 15, 13, 6, 1, 12, 0, 2, 11, 7, 5, 3]
    case 2 => [11, 8, 12, 0, 5, 2, 15, 13, 10, 14, 3, 6, 7, 1, 9, 4]
    case 3 => [7, 9, 3, 1, 13, 12, 11, 14, 2, 6, 5, 10, 4, 0, 15, 8]
    case 4 => [9, 0, 5, 7, 2, 4, 10, 15, 14, 1, 11, 12, 6, 8, 3, 13]
    case 5 => [2, 12, 6, 10, 0, 11, 8, 3, 4, 13, 7, 5, 15, 14, 1, 9]
    case 6 => [12, 5, 1, 15, 14, 13, 4, 10, 0, 7, 6, 3, 9, 2, 8, 11]
    case 7 => [13, 11, 7, 14, 12, 1, 3, 9, 5, 0, 15, 4, 8, 6, 2, 10]
    case 8 => [6, 15, 14, 9, 11, 3, 0, 8, 12, 2, 13, 7, 1, 4, 10, 5]
    case 9 => [10, 2, 8, 4, 7, 6, 1, 5, 15, 11, 9, 14, 3, 12, 13, 0]
  }

  // ---------- Specification: section 3.2 of RFC 7693 ----------

  function RowsOf<W>(v: seq<W>): Rows<W>
    requires |v| == 16
  {
    Rows(Vec(v[0], v[1], v[2], v[3]), Vec(v[4], v[5], v[6], v[7]),
         Vec(v[8], v[9], v[10], v[11]), Vec(v[12], v[13], v[14], v[15]))
  }

  /** G on the four columns. */
  function MixColumns<W>(mix: Mix<W>, m: seq<W>, s: seq<Index>, v: Rows<W>): Rows<W>
    requires |m| == 16 && |s| == 16
  {
    var q0 := mix(Quad(v.a.l0, v.b.l0, v.c.l0, v.d.l0), m[s[0]], m[s[1]]);
    var q1 := mix(Quad(v.a.l1, v.b.l1, v.c.l1, v.d.l1), m[s[2]], m[s[3]]);
    var q2 := mix(Quad(v.a.l2, v.b.l2, v.c.l2, v.d.l2), m[s[4]], m[s[5]]);
    var q3 := mix(Quad(v.a.l3, v.b.l3, v.c.l3, v.d.l3), m[s[6]], m[s[7]]);
    Rows(Vec(q0.a, q1.a, q2.a, q3.a), Vec(q0.b, q1.b, q2.b, q3.b),
         Vec(q0.c, q1.c, q2.c, q3.c), Vec(q0.d, q1.d, q2.d, q3.d))
  }

  /** G on the four broken diagonals. */
  function MixDiagonals<W>(mix: Mix<W>, m: seq<W>, s: seq<Index>, v: Rows<W>): Rows<W>
    requires |m| == 16 && |s| == 16
  {
    var q0 := mix(Quad(v.a.l0, v.b.l1, v.c.l2, v.d.l3), m[s[8]], m[s[9]]);
    var q1 := mix(Quad(v.a.l1, v.b.l2, v.c.l3, v.d.l0), m[s[10]], m[s[11]]);
    var q2 := mix(Quad(v.a.l2, v.b.l3, v.c.l0, v.d.l1), m[s[12]], m[s[13]]);
    var q3 := mix(Quad(v.a.l3, v.b.l0, v.c.l1, v.d.l2), m[s[14]], m[s[15]]);
    Rows(Vec(q0.a, q1.a, q2.a, q3.a), Vec(q3.b, q0.b, q1.b, q2.b),
         Vec(q2.c, q3.c, q0.c, q1.c), Vec(q1.d, q2.d, q3.d, q0.d))
  }

  function Round<W>(mix: Mix<W>, m: seq<W>, r: nat, v: Rows<W>): Rows<W>
    requires |m| == 16
  {
    MixDiagonals(mix, m, Sigma(r % 10), MixColumns(mix, m, Sigma(r % 10), v))
  }

  /** Rounds 0 up to `n`. */
  function Rounds<W>(mix: Mix<W>, m: seq<W>, n: nat, v: Rows<W>): Rows<W>
    requires |m| == 16
  {
    if n == 0 then v else Round(mix, m, n - 1, Rounds(mix, m, n - 1, v))
  }

  lemma RoundCongruent<W(!new)>(f: Mix<W>, g: Mix<W>, m: seq<W>, r: nat, v: Rows<W>)
    requires |m| == 16 && forall q, x, y :: f(q, x, y) == g(q, x, y)
    ensures Round(f, m, r, v) == Round(g, m, r, v)
  {
    var s := Sigma(r % 10);
    assert MixColumns(f, m, s, v) == MixColumns(g, m, s, v);
  }

  /** Mixing functions that agree everywhere give the same rounds. */
  lemma {:induction false} RoundsCongruent<W(!new)>(f: Mix<W>, g: Mix<W>, m: seq<W>, n: nat, v: Rows<W>)
    requires |m| == 16 && forall q, x, y :: f(q, x, y) == g(q, x, y)
    ensures Rounds(f, m, n, v) == Rounds(g, m, n, v)
  {
    if n > 0 {
      RoundsCongruent(f, g, m, n - 1, v);
      RoundCongruent(f, g, m, n - 1, Rounds(f, m, n - 1, v));
    }
  }

  // ---------- The portable implementation: in place, one G after another ----------

  method MixAt<W>(mix: Mix<W>, v: array<W>, a: nat, b: nat, c: nat, d: nat, x: W, y: W)
    requires v.Length == 16 && a < 4 <= b < 8 <= c < 12 <= d < 16
    modifies v
    ensures var q := mix(Quad(old(v[a]), old(v[b]), old(v[c]), old(v[d])), x, y);
            v[..] == old(v[..])[a := q.a][b := q.b][c := q.c][d := q.d]
  {
    var q := mix(Quad(v[a], v[b], v[c], v[d]), x, y);
    v[a] := q.a;
    v[b] := q.b;
    v[c] := q.c;
    v[d] := q.d;
  }

  method ColumnsInPlace<W>(mix: Mix<W>, v: array<W>, m: seq<W>, s: seq<Index>)
    requires v.Length == 16 && |m| == 16 && |s| == 16
    modifies v
    ensures RowsOf(v[..]) == MixColumns(mix, m, s, RowsOf(old(v[..])))
  {
    MixAt(mix, v, 0, 4, 8, 12, m[s[0]], m[s[1]]);
    MixAt(mix, v, 1, 5, 9, 13, m[s[2]], m[s[3]]);
    MixAt(mix, v, 2, 6, 10, 14, m[s[4]], m[s[5]]);
    MixAt(mix, v, 3, 7, 11, 15, m[s[6]], m[s[7]]);
  }

  method DiagonalsInPlace<W>(mix: Mix<W>, v: array<W>, m: seq<W>, s: seq<Index>)
    requires v.Length == 16 && |m| == 16 && |s| == 16
    modifies v
    ensures RowsOf(v[..]) == MixDiagonals(mix, m, s, RowsOf(old(v[..])))
  {
    MixAt(mix, v, 0, 5, 10, 15, m[s[8]], m[s[9]]);
    MixAt(mix, v, 1, 6, 11, 12, m[s[10]], m[s[11]]);
    MixAt(mix, v, 2, 7, 8, 13, m[s[12]], m[s[13]]);
    MixAt(mix, v, 3, 4, 9, 14, m[s[14]], m[s[15]]);
  }

  method RoundInPlace<W>(mix: Mix<W>, v: array<W>, m: seq<W>, r: nat)
    requires v.Length == 16 && |m| == 16
    modifies v
    ensures RowsOf(v[..]) == Round(mix, m, r, RowsOf(old(v[..])))
  {
    ColumnsInPlace(mix, v, m, Sigma(r % 10));
    DiagonalsInPlace(mix, v, m, Sigma(r % 10));
  }

  method RoundsInPlace<W>(mix: Mix<W>, v: array<W>, m: seq<W>, rounds: nat)
    requires v.Length == 16 && |m| == 16
    modifies v
    ensures RowsOf(v[..]) == Rounds(mix, m, rounds, RowsOf(old(v[..])))
  {
    for i := 0 to rounds
      invariant RowsOf(v[..]) == Rounds(mix, m, i, RowsOf(old(v[..])))
    {
      RoundInPlace(mix, v, m, i);
    }
  }

  // ---------- AVX2 intrinsics as lane permutations ----------

  function UnpackLo<W>(x: Vec<W>, y: Vec<W>): Vec<W> { Vec(x.l0, y.l0, x.l2, y.l2) }

  function UnpackHi<W>(x: Vec<W>, y: Vec<W>): Vec<W> { Vec(x.l1, y.l1, x.l3, y.l3) }

  /** `_mm256_alignr_epi8(x, y, 8)`: in each 128-bit half, the high lane of y, then the low lane of x. */
  function AlignR8<W>(x: Vec<W>, y: Vec<W>): Vec<W> { Vec(y.l1, x.l0, y.l3, x.l2) }

  /** `_mm256_shuffle_epi32(x, _MM_SHUFFLE(1, 0, 3, 2))`. */
  function SwapHalves<W>(x: Vec<W>): Vec<W> { Vec(x.l1, x.l0, x.l3, x.l2) }

  /** `_mm256_blend_epi32`: mask bits 2i and 2i+1 choose lane i of y.  Only masks that never split a
      64-bit lane are used. */
  function Blend<W>(x: Vec<W>, y: Vec<W>, mask: nat): Vec<W>
    requires mask == 0xF0 || mask == 0x33
  {
    Vec(if mask % 4 == 3 then y.l0 else x.l0,
        if mask / 4 % 4 == 3 then y.l1 else x.l1,
        if mask / 16 % 4 == 3 then y.l2 else x.l2,
        if mask / 64 % 4 == 3 then y.l3 else x.l3)
  }

  /** `_mm256_permute4x64_epi64(x, _MM_SHUFFLE(i3, i2, i1, i0))`. */
  function Permute<W>(x: Vec<W>, i3: nat, i2: nat, i1: nat, i0: nat): Vec<W>
    requires i0 < 4 && i1 < 4 && i2 < 4 && i3 < 4
  {
    Vec(Lane(x, i0), Lane(x, i1), Lane(x, i2), Lane(x, i3))
  }

  function Lane<W>(x: Vec<W>, i: nat): W
    requires i < 4
  {
    if i == 0 then x.l0 else if i == 1 then x.l1 else if i == 2 then x.l2 else x.l3
  }

  /** Row b stays where it is; the other three rows rotate against it. */
  function Diagonalize<W>(v: Rows<W>): Rows<W> {
    Rows(Permute(v.a, 2, 1, 0, 3), v.b, Permute(v.c, 0, 3, 2, 1), Permute(v.d, 1, 0, 3, 2))
  }

  function Undiagonalize<W>(v: Rows<W>): Rows<W> {
    Rows(Permute(v.a, 0, 3, 2, 1), v.b, Permute(v.c, 2, 1, 0, 3), Permute(v.d, 1, 0, 3, 2))
  }

  lemma UndiagonalizeInverts<W>(v: Rows<W>)
    ensures Undiagonalize(Diagonalize(v)) == v && Diagonalize(Undiagonalize(v)) == v
  {
  }

  // ---------- Message loads ----------

  /** The sixteen message words as eight vectors, each holding one pair twice. */
  datatype Block<+W> = Block(m0: Vec<W>, m1: Vec<W>, m2: Vec<W>, m3: Vec<W>,
                             m4: Vec<W>, m5: Vec<W>, m6: Vec<W>, m7: Vec<W>)

  function Broadcast<W>(m: seq<W>): Block<W>
    requires |m| == 16
  {
    Block(Vec(m[0], m[1], m[0], m[1]), Vec(m[2], m[3], m[2], m[3]),
          Vec(m[4], m[5], m[4], m[5]), Vec(m[6], m[7], m[6], m[7]),
          Vec(m[8], m[9], m[8], m[9]), Vec(m[10], m[11], m[10], m[11]),
          Vec(m[12], m[13], m[12], m[13]), Vec(m[14], m[15], m[14], m[15]))
  }

  /** The four message vectors of one round, in the order the round uses them. */
  datatype Loads<+W> = Loads(x1: Vec<W>, y1: Vec<W>, x2: Vec<W>, y2: Vec<W>)

  /** What a row of the schedule asks for.  Because row b is the unrotated one, the lanes of the
      diagonal step are the diagonals starting at a[3], a[0], a[1], a[2]. */
  function SigmaLoads<W>(m: seq<W>, s: seq<Index>): Loads<W>
    requires |m| == 16 && |s| == 16
  {
    Loads(Vec(m[s[0]], m[s[2]], m[s[4]], m[s[6]]), Vec(m[s[1]], m[s[3]], m[s[5]], m[s[7]]),
          Vec(m[s[14]], m[s[8]], m[s[10]], m[s[12]]), Vec(m[s[15]], m[s[9]], m[s[11]], m[s[13]]))
  }

  method Loads1<W>(m: seq<W>) returns (l: Loads<W>)
    requires |m| == 16
    ensures l == SigmaLoads(m, Sigma(0))
  {
    var b := Broadcast(m);
    l := Loads(Blend(UnpackLo(b.m0, b.m1), UnpackLo(b.m2, b.m3), 0xF0),
          Blend(UnpackHi(b.m0, b.m1), UnpackHi(b.m2, b.m3), 0xF0),
          Blend(UnpackLo(b.m7, b.m4), UnpackLo(b.m5, b.m6), 0xF0),
          Blend(UnpackHi(b.m7, b.m4), UnpackHi(b.m5, b.m6), 0xF0));
  }

  method Loads2<W>(m: seq<W>) returns (l: Loads<W>)
    requires |m| == 16
    ensures l == SigmaLoads(m, Sigma(1))
  {
    var b := Broadcast(m);
    l := Loads(Blend(UnpackLo(b.m7, b.m2), UnpackHi(b.m4, b.m6), 0xF0),
          Blend(UnpackLo(b.m5, b.m4), AlignR8(b.m3, b.m7), 0xF0),
          Blend(UnpackHi(b.m2, b.m0), Blend(b.m5, b.m0, 0x33), 0xF0),
          Blend(AlignR8(b.m6, b.m1), Blend(b.m3, b.m1, 0x33), 0xF0));
  }

  method Loads3<W>(m: seq<W>) returns (l: Loads<W>)
    requires |m| == 16
    ensures l == SigmaLoads(m, Sigma(2))
  {
    var b := Broadcast(m);
    l := Loads(Blend(AlignR8(b.m6, b.m5), UnpackHi(b.m2, b.m7), 0xF0),
          Blend(UnpackLo(b.m4, b.m0), Blend(b.m6, b.m1, 0x33), 0xF0),
          Blend(AlignR8(b.m5, b.m4), UnpackHi(b.m1, b.m3), 0xF0),
          Blend(UnpackLo(b.m2, b.m7), Blend(b.m0, b.m3, 0x33), 0xF0));
  }

  method Loads4<W>(m: seq<W>) returns (l: Loads<W>)
    requires |m| == 16
    ensures l == SigmaLoads(m, Sigma(3))
  {
    var b := Broadcast(m);
    l := Loads(Blend(UnpackHi(b.m3, b.m1), UnpackHi(b.m6, b.m5), 0xF0),
          Blend(UnpackHi(b.m4, b.m0), UnpackLo(b.m6, b.m7), 0xF0),
          Blend(AlignR8(b.m1, b.m7), SwapHalves(b.m2), 0xF0),
          Blend(UnpackLo(b.m4, b.m3), UnpackLo(b.m5, b.m0), 0xF0));
  }

  method Loads5<W>(m: seq<W>) returns (l: Loads<W>)
    requires |m| == 16
    ensures l == SigmaLoads(m, Sigma(4))
  {
    var b := Broadcast(m);
    l := Loads(Blend(UnpackHi(b.m4, b.m2), UnpackLo(b.m1, b.m5), 0xF0),
          Blend(Blend(b.m3, b.m0, 0x33), Blend(b.m7, b.m2, 0x33), 0xF0),
          Blend(AlignR8(b.m7, b.m1), AlignR8(b.m3, b.m5), 0xF0),
          Blend(UnpackHi(b.m6, b.m0), UnpackLo(b.m6, b.m4), 0xF0));
  }

  method Loads6<W>(m: seq<W>) returns (l: Loads<W>)
    requires |m| == 16
    ensures l == SigmaLoads(m, Sigma(5))
  {
    var b := Broadcast(m);
    l := Loads(Blend(UnpackLo(b.m1, b.m3), UnpackLo(b.m0, b.m4), 0xF0),
          Blend(UnpackLo(b.m6, b.m5), UnpackHi(b.m5, b.m1), 0xF0),
          Blend(AlignR8(b.m2, b.m0), UnpackHi(b.m3, b.m7), 0xF0),
          Blend(UnpackHi(b.m4, b.m6), AlignR8(b.m7, b.m2), 0xF0));
  }

  method Loads7<W>(m: seq<W>) returns (l: Loads<W>)
    requires |m| == 16
    ensures l == SigmaLoads(m, Sigma(6))
  {
    var b := Broadcast(m);
    l := Loads(Blend(Blend(b.m0, b.m6, 0x33), UnpackLo(b.m7, b.m2), 0xF0),
          Blend(UnpackHi(b.m2, b.m7), AlignR8(b.m5, b.m6), 0xF0),
          Blend(UnpackLo(b.m4, b.m0), Blend(b.m4, b.m3, 0x33), 0xF0),
          Blend(UnpackHi(b.m5, b.m3), SwapHalves(b.m1), 0xF0));
  }

  method Loads8<W>(m: seq<W>) returns (l: Loads<W>)
    requires |m| == 16
    ensures l == SigmaLoads(m, Sigma(7))
  {
    var b := Broadcast(m);
    l := Loads(Blend(UnpackHi(b.m6, b.m3), Blend(b.m1, b.m6, 0x33), 0xF0),
          Blend(AlignR8(b.m7, b.m5), UnpackHi(b.m0, b.m4), 0xF0),
          Blend(Blend(b.m2, b.m1, 0x33), AlignR8(b.m4, b.m7), 0xF0),
          Blend(UnpackLo(b.m5, b.m0), UnpackLo(b.m2, b.m3), 0xF0));
  }

  method Loads9<W>(m: seq<W>) returns (l: Loads<W>)
    requires |m| == 16
    ensures l == SigmaLoads(m, Sigma(8))
  {
    var b := Broadcast(m);
    l := Loads(Blend(UnpackLo(b.m3, b.m7), AlignR8(b.m0, b.m5), 0xF0),
          Blend(UnpackHi(b.m7, b.m4), AlignR8(b.m4, b.m1), 0xF0),
          Blend(UnpackLo(b.m5, b.m6), UnpackHi(b.m6, b.m0), 0xF0),
          Blend(AlignR8(b.m1, b.m2), AlignR8(b.m2, b.m3), 0xF0));
  }

  method Loads10<W>(m: seq<W>) returns (l: Loads<W>)
    requires |m| == 16
    ensures l == SigmaLoads(m, Sigma(9))
  {
    var b := Broadcast(m);
    l := Loads(Blend(UnpackLo(b.m5, b.m4), UnpackHi(b.m3, b.m0), 0xF0),
          Blend(UnpackLo(b.m1, b.m2), Blend(b.m2, b.m3, 0x33), 0xF0),
          Blend(UnpackHi(b.m6, b.m7), UnpackHi(b.m4, b.m1), 0xF0),
          Blend(Blend(b.m5, b.m0, 0x33), UnpackLo(b.m7, b.m6), 0xF0));
  }

  // ---------- The vector implementation ----------

  /** One half of G on every lane. */
  function MixLanes<W>(g: HalfMix<W>, v: Rows<W>, x: Vec<W>): Rows<W> {
    var q0 := g(Quad(v.a.l0, v.b.l0, v.c.l0, v.d.l0), x.l0);
    var q1 := g(Quad(v.a.l1, v.b.l1, v.c.l1, v.d.l1), x.l1);
    var q2 := g(Quad(v.a.l2, v.b.l2, v.c.l2, v.d.l2), x.l2);
    var q3 := g(Quad(v.a.l3, v.b.l3, v.c.l3, v.d.l3), x.l3);
    Rows(Vec(q0.a, q1.a, q2.a, q3.a), Vec(q0.b, q1.b, q2.b, q3.b),
         Vec(q0.c, q1.c, q2.c, q3.c), Vec(q0.d, q1.d, q2.d, q3.d))
  }

  function Compose<W>(g1: HalfMix<W>, g2: HalfMix<W>): Mix<W> {
    (q, x, y) => g2(g1(q, x), y)
  }

  function VectorRound<W>(g1: HalfMix<W>, g2: HalfMix<W>, v: Rows<W>, l: Loads<W>): Rows<W> {
    var v1 := MixLanes(g2, MixLanes(g1, v, l.x1), l.y1);
    var v2 := MixLanes(g2, MixLanes(g1, Diagonalize(v1), l.x2), l.y2);
    Undiagonalize(v2)
  }

  lemma VectorColumns<W>(g1: HalfMix<W>, g2: HalfMix<W>, m: seq<W>, s: seq<Index>, v: Rows<W>)
    requires |m| == 16 && |s| == 16
    ensures var l := SigmaLoads(m, s);
            MixLanes(g2, MixLanes(g1, v, l.x1), l.y1) == MixColumns(Compose(g1, g2), m, s, v)
  {
  }

  lemma VectorDiagonals<W>(g1: HalfMix<W>, g2: HalfMix<W>, m: seq<W>, s: seq<Index>, v: Rows<W>)
    requires |m| == 16 && |s| == 16
    ensures var l := SigmaLoads(m, s);
            Undiagonalize(MixLanes(g2, MixLanes(g1, Diagonalize(v), l.x2), l.y2))
            == MixDiagonals(Compose(g1, g2), m, s, v)
  {
  }

  /** The unrotated-b diagonalisation with its adjusted loads is the round of the specification. */
  lemma VectorRoundIsRound<W>(g1: HalfMix<W>, g2: HalfMix<W>, m: seq<W>, r: nat, v: Rows<W>)
    requires |m| == 16
    ensures VectorRound(g1, g2, v, SigmaLoads(m, Sigma(r % 10))) == Round(Compose(g1, g2), m, r, v)
  {
    var s := Sigma(r % 10);
    VectorColumns(g1, g2, m, s, v);
    VectorDiagonals(g1, g2, m, s, MixColumns(Compose(g1, g2), m, s, v));
  }

  ghost predicate SpecStep<W>(mix: Mix<W>, m: seq<W>, spec: nat -> Rows<W>, r: nat)
    requires |m| == 16
  {
    spec(r + 1) == Round(mix, m, r, spec(r))
  }

  /** `spec` lists the states of the specification: round r leads from entry r to entry r + 1. */
  ghost predicate IsSpec<W>(mix: Mix<W>, m: seq<W>, spec: nat -> Rows<W>)
    requires |m| == 16
  {
    forall r: nat :: SpecStep(mix, m, spec, r)
  }

  /** The ten rounds are written out; the loop leaves in the middle when the count runs out. */
  method VectorRounds<W>(g1: HalfMix<W>, g2: HalfMix<W>, m: seq<W>, rounds: nat, start: Rows<W>,
                         ghost spec: nat -> Rows<W>)
    returns (v: Rows<W>)
    requires |m| == 16 && spec(0) == start
    requires IsSpec(Compose(g1, g2), m, spec)
    ensures v == spec(rounds)
  {
    v := start;
    var left := rounds;
    ghost var cycle := 0;
    while true
      invariant 10 * cycle + left == rounds && v == spec(10 * cycle)
      decreases left
    {
      if left == 0 {
        break;
      }
      left := left - 1;
      v := Round1(g1, g2, m, v, cycle, spec);

      if left == 0 {
        break;
      }
      left := left - 1;
      v := Round2(g1, g2, m, v, cycle, spec);

      if left == 0 {
        break;
      }
      left := left - 1;
      v := Round3(g1, g2, m, v, cycle, spec);

      if left == 0 {
        break;
      }
      left := left - 1;
      v := Round4(g1, g2, m, v, cycle, spec);

      if left == 0 {
        break;
      }
      left := left - 1;
      v := Round5(g1, g2, m, v, cycle, spec);

      if left == 0 {
        break;
      }
      left := left - 1;
      v := Round6(g1, g2, m, v, cycle, spec);

      if left == 0 {
        break;
      }
      left := left - 1;
      v := Round7(g1, g2, m, v, cycle, spec);

      if left == 0 {
        break;
      }
      left := left - 1;
      v := Round8(g1, g2, m, v, cycle, spec);

      if left == 0 {
        break;
      }
      left := left - 1;
      v := Round9(g1, g2, m, v, cycle, spec);

      if left == 0 {
        break;
      }
      left := left - 1;
      v := Round10(g1, g2, m, v, cycle, spec);

      cycle := cycle + 1;
    }
  }

  /** One written-out round, given that its loads are those of its row of the schedule. */
  method NextRound<W>(g1: HalfMix<W>, g2: HalfMix<W>, m: seq<W>, ghost r: nat, v: Rows<W>, l: Loads<W>,
                      ghost k: nat, ghost spec: nat -> Rows<W>)
    returns (v': Rows<W>)
    requires |m| == 16 && k < 10 && r % 10 == k && l == SigmaLoads(m, Sigma(k))
    requires v == spec(r) && IsSpec(Compose(g1, g2), m, spec)
    ensures v' == spec(r + 1)
  {
    assert SpecStep(Compose(g1, g2), m, spec, r);
    VectorRoundIsRound(g1, g2, m, r, v);
    v' := VectorRound(g1, g2, v, l);
  }

  method Round1<W>(g1: HalfMix<W>, g2: HalfMix<W>, m: seq<W>, v: Rows<W>, ghost cycle: nat, ghost spec: nat -> Rows<W>)
    returns (v': Rows<W>)
    requires |m| == 16 && v == spec(10 * cycle + 0) && IsSpec(Compose(g1, g2), m, spec)
    ensures v' == spec(10 * cycle + 1)
  {
    var l := Loads1(m);
    v' := NextRound(g1, g2, m, 10 * cycle + 0, v, l, 0, spec);
  }

  method Round2<W>(g1: HalfMix<W>, g2: HalfMix<W>, m: seq<W>, v: Rows<W>, ghost cycle: nat, ghost spec: nat -> Rows<W>)
    returns (v': Rows<W>)
    requires |m| == 16 && v == spec(10 * cycle + 1) && IsSpec(Compose(g1, g2), m, spec)
    ensures v' == spec(10 * cycle + 2)
  {
    var l := Loads2(m);
    v' := NextRound(g1, g2, m, 10 * cycle + 1, v, l, 1, spec);
  }

  method Round3<W>(g1: HalfMix<W>, g2: HalfMix<W>, m: seq<W>, v: Rows<W>, ghost cycle: nat, ghost spec: nat -> Rows<W>)
    returns (v': Rows<W>)
    requires |m| == 16 && v == spec(10 * cycle + 2) && IsSpec(Compose(g1, g2), m, spec)
    ensures v' == spec(10 * cycle + 3)
  {
    var l := Loads3(m);
    v' := NextRound(g1, g2, m, 10 * cycle + 2, v, l, 2, spec);
  }

  method Round4<W>(g1: HalfMix<W>, g2: HalfMix<W>, m: seq<W>, v: Rows<W>, ghost cycle: nat, ghost spec: nat -> Rows<W>)
    returns (v': Rows<W>)
    requires |m| == 16 && v == spec(10 * cycle + 3) && IsSpec(Compose(g1, g2), m, spec)
    ensures v' == spec(10 * cycle + 4)
  {
    var l := Loads4(m);
    v' := NextRound(g1, g2, m, 10 * cycle + 3, v, l, 3, spec);
  }

  method Round5<W>(g1: HalfMix<W>, g2: HalfMix<W>, m: seq<W>, v: Rows<W>, ghost cycle: nat, ghost spec: nat -> Rows<W>)
    returns (v': Rows<W>)
    requires |m| == 16 && v == spec(10 * cycle + 4) && IsSpec(Compose(g1, g2), m, spec)
    ensures v' == spec(10 * cycle + 5)
  {
    var l := Loads5(m);
    v' := NextRound(g1, g2, m, 10 * cycle + 4, v, l, 4, spec);
  }

  method Round6<W>(g1: HalfMix<W>, g2: HalfMix<W>, m: seq<W>, v: Rows<W>, ghost cycle: nat, ghost spec: nat -> Rows<W>)
    returns (v': Rows<W>)
    requires |m| == 16 && v == spec(10 * cycle + 5) && IsSpec(Compose(g1, g2), m, spec)
    ensures v' == spec(10 * cycle + 6)
  {
    var l := Loads6(m);
    v' := NextRound(g1, g2, m, 10 * cycle + 5, v, l, 5, spec);
  }

  method Round7<W>(g1: HalfMix<W>, g2: HalfMix<W>, m: seq<W>, v: Rows<W>, ghost cycle: nat, ghost spec: nat -> Rows<W>)
    returns (v': Rows<W>)
    requires |m| == 16 && v == spec(10 * cycle + 6) && IsSpec(Compose(g1, g2), m, spec)
    ensures v' == spec(10 * cycle + 7)
  {
    var l := Loads7(m);
    v' := NextRound(g1, g2, m, 10 * cycle + 6, v, l, 6, spec);
  }

  method Round8<W>(g1: HalfMix<W>, g2: HalfMix<W>, m: seq<W>, v: Rows<W>, ghost cycle: nat, ghost spec: nat -> Rows<W>)
    returns (v': Rows<W>)
    requires |m| == 16 && v == spec(10 * cycle + 7) && IsSpec(Compose(g1, g2), m, spec)
    ensures v' == spec(10 * cycle + 8)
  {
    var l := Loads8(m);
    v' := NextRound(g1, g2, m, 10 * cycle + 7, v, l, 7, spec);
  }

  method Round9<W>(g1: HalfMix<W>, g2: HalfMix<W>, m: seq<W>, v: Rows<W>, ghost cycle: nat, ghost spec: nat -> Rows<W>)
    returns (v': Rows<W>)
    requires |m| == 16 && v == spec(10 * cycle + 8) && IsSpec(Compose(g1, g2), m, spec)
    ensures v' == spec(10 * cycle + 9)
  {
    var l := Loads9(m);
    v' := NextRound(g1, g2, m, 10 * cycle + 8, v, l, 8, spec);
  }

  method Round10<W>(g1: HalfMix<W>, g2: HalfMix<W>, m: seq<W>, v: Rows<W>, ghost cycle: nat, ghost spec: nat -> Rows<W>)
    returns (v': Rows<W>)
    requires |m| == 16 && v == spec(10 * cycle + 9) && IsSpec(Compose(g1, g2), m, spec)
    ensures v' == spec(10 * cycle + 10)
  {
    var l := Loads10(m);
    v' := NextRound(g1, g2, m, 10 * cycle + 9, v, l, 9, spec);
  }
}
