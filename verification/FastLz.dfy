/** The FastLZ length estimator of the Optimism fee code (crates/op-revm/src/fast_lz.rs).

    The source computes the length of a compressed form that it never builds.  Here a FastLZ
    level-1 decompressor is the specification: the computed number is the length of a byte string
    that the decompressor expands to exactly the input. */
module FastLz {
  import opened Wrappers

  type Byte = x: int | 0 <= x < 0x100
  type U32 = x: int | 0 <= x < 0x1_0000_0000

  // ---------- Specification: a FastLZ level-1 decompressor ----------

  /** Appends `len` bytes to `out`, one at a time, each copied from `dist` bytes back.  The source
      and the destination may overlap. */
  function CopyBack(out: seq<Byte>, dist: nat, len: nat): (r: seq<Byte>)
    requires 1 <= dist <= |out|
    decreases len, |out|
  {
    if len == 0 then out else CopyBack(out + [out[|out| - dist]], dist, len - 1)
  }

  /** The distance held by the low five bits of an instruction and a following byte. */
  function Offset(op: Byte, low: Byte): (dist: nat)
  {
    op as int % 32 * 256 + low as int + 1
  }

  /** Instruction `000nnnnn` is a run of n+1 literals; `lllooooo oooooooo` with 1 <= l <= 6 copies
      l+2 bytes; `111ooooo mmmmmmmm oooooooo` copies m+9 bytes.  The 13 offset bits hold the
      distance minus one.  The result is the number of stream bytes read and the new output. */
  function Instruction(z: seq<Byte>, out: seq<Byte>): (r: Option<(nat, seq<Byte>)>)
    requires z != []
    ensures r.Some? ==> 1 <= r.value.0 <= |z|
  {
    if z[0] < 32 then
      if |z| < z[0] + 2 then None else Some((z[0] + 2, out + z[1..z[0] + 2]))
    else
      var size := if z[0] < 224 then 2 else 3;
      if |z| < size then None
      else
        var dist := Offset(z[0], z[size - 1]);
        var len := if z[0] < 224 then z[0] as int / 32 + 2 else z[1] as int + 9;
        if |out| < dist then None else Some((size, CopyBack(out, dist, len)))
  }

  function Decompress(z: seq<Byte>, out: seq<Byte>): (r: Option<seq<Byte>>)
    decreases |z|
  {
    if z == [] then Some(out)
    else
      var step := Instruction(z, out);
      if step.None? then None else Decompress(z[step.value.0..], step.value.1)
  }

  /** Some FastLZ stream of exactly `size` bytes decompresses to `input`. */
  ghost predicate CompressesTo(input: seq<Byte>, size: nat) {
    exists z: seq<Byte> :: |z| == size && Decompress(z, []) == Some(input)
  }

  // ---------- The source's pure helpers ----------

  function Literals(r: nat, size: nat): (s: nat)
  {
    var size' := size + 0x21 * (r / 0x20);
    var r' := r % 0x20;
    if r' != 0 then size' + r' + 1 else size'
  }

  function FlzMatch(l: nat, size: nat): (s: nat)
    requires 1 <= l
  {
    var l' := l - 1;
    var size' := size + 3 * (l' / 262);
    if l' % 262 >= 6 then size' + 3 else size' + 2
  }

  function Hash(v: nat): (h: nat)
    ensures h < 8192
  {
    v * 2654435769 / 0x8_0000 % 0x1_0000 % 0x2000
  }

  function U24(input: seq<Byte>, idx: nat): (v: U32)
    requires idx + 2 < |input|
  {
    input[idx] as int + input[idx + 1] as int * 0x100 + input[idx + 2] as int * 0x1_0000
  }

  // ---------- Streams as instructions ----------

  datatype Instr = Run(bytes: seq<Byte>) | Copy(len: nat, dist: nat)

  ghost predicate WellFormed(i: Instr) {
    match i
    case Run(bytes) => 1 <= |bytes| <= 32
    case Copy(len, dist) => 3 <= len <= 264 && 1 <= dist <= 8192
  }

  ghost predicate AllWellFormed(s: seq<Instr>) {
    forall i :: i in s ==> WellFormed(i)
  }

  ghost function Apply(i: Instr, out: seq<Byte>): Option<seq<Byte>>
    requires WellFormed(i)
  {
    match i
    case Run(bytes) => Some(out + bytes)
    case Copy(len, dist) => if |out| < dist then None else Some(CopyBack(out, dist, len))
  }

  ghost function Expand(s: seq<Instr>, out: seq<Byte>): Option<seq<Byte>>
    requires AllWellFormed(s)
  {
    if s == [] then Some(out)
    else
      var next := Apply(s[0], out);
      if next.None? then None else Expand(s[1..], next.value)
  }

  ghost function Encoding(i: Instr): (z: seq<Byte>)
    requires WellFormed(i)
    ensures |z| == EncodedSize(i)
  {
    match i
    case Run(bytes) => [|bytes| - 1] + bytes
    case Copy(len, dist) =>
      if len >= 9 then [224 + (dist - 1) / 256, len - 9, (dist - 1) % 256]
      else [(len - 2) * 32 + (dist - 1) / 256, (dist - 1) % 256]
  }

  ghost function EncodedSize(i: Instr): nat {
    match i
    case Run(bytes) => 1 + |bytes|
    case Copy(len, dist) => if len >= 9 then 3 else 2
  }

  ghost function Encode(s: seq<Instr>): (z: seq<Byte>)
    requires AllWellFormed(s)
    ensures |z| == Size(s)
  {
    if s == [] then [] else Encoding(s[0]) + Encode(s[1..])
  }

  ghost function Size(s: seq<Instr>): nat {
    if s == [] then 0 else EncodedSize(s[0]) + Size(s[1..])
  }

  lemma OffsetOfDistance(op: Byte, dist: nat)
    requires 1 <= dist <= 8192 && op as int % 32 == (dist - 1) / 256
    ensures Offset(op, (dist - 1) % 256) == dist
  {
  }

  /** The decompressor reads back each instruction it is given. */
  lemma InstructionOfEncoding(i: Instr, rest: seq<Byte>, out: seq<Byte>)
    requires WellFormed(i)
    ensures var r := Instruction(Encoding(i) + rest, out);
            && (r.Some? <==> Apply(i, out).Some?)
            && (r.Some? ==> r.value == (EncodedSize(i), Apply(i, out).value))
  {
    var z := Encoding(i) + rest;
    match i
    case Run(bytes) =>
      assert z[1..|bytes| + 1] == bytes;
    case Copy(len, dist) =>
      OffsetOfDistance(z[0], dist);
  }

  /** On well-formed instructions the byte-level decompressor is the instruction-level expansion. */
  lemma {:induction false} DecompressEncode(s: seq<Instr>, out: seq<Byte>)
    requires AllWellFormed(s)
    ensures Decompress(Encode(s), out) == Expand(s, out)
    decreases |s|
  {
    if s != [] {
      var rest := Encode(s[1..]);
      InstructionOfEncoding(s[0], rest, out);
      assert (Encoding(s[0]) + rest)[EncodedSize(s[0])..] == rest;
      if Apply(s[0], out).Some? {
        DecompressEncode(s[1..], Apply(s[0], out).value);
      }
    }
  }

  lemma ExpandCons(i: Instr, s: seq<Instr>, out: seq<Byte>)
    requires WellFormed(i) && AllWellFormed(s) && Apply(i, out).Some?
    ensures AllWellFormed([i] + s) && Expand([i] + s, out) == Expand(s, Apply(i, out).value)
  {
    assert ([i] + s)[1..] == s;
  }

  /** Streams compose: expanding a concatenation expands the second part on the first part's output. */
  lemma {:induction false} ExpandAppend(s: seq<Instr>, t: seq<Instr>, out: seq<Byte>)
    requires AllWellFormed(s) && AllWellFormed(t) && Expand(s, out).Some?
    ensures AllWellFormed(s + t) && Size(s + t) == Size(s) + Size(t)
    ensures Expand(s + t, out) == Expand(t, Expand(s, out).value)
    decreases |s|
  {
    if s == [] {
      assert s + t == t;
    } else {
      assert (s + t)[1..] == s[1..] + t;
      ExpandAppend(s[1..], t, Apply(s[0], out).value);
    }
  }

  // ---------- The stream behind the counted bytes ----------

  /** The instructions `Literals` counts: full runs of 32, then the remainder. */
  ghost function LiteralRuns(b: seq<Byte>): (s: seq<Instr>)
    ensures AllWellFormed(s)
  {
    if |b| == 0 then []
    else if |b| <= 32 then [Run(b)]
    else [Run(b[..32])] + LiteralRuns(b[32..])
  }

  /** The instructions `FlzMatch` counts for `l`: chunks of 262 bytes, then one last reference. */
  ghost function MatchChunks(l: nat, dist: nat): (s: seq<Instr>)
    requires 1 <= l && 1 <= dist <= 8192
    ensures AllWellFormed(s)
  {
    if l >= 263 then [Copy(262, dist)] + MatchChunks(l - 262, dist) else [Copy(l + 2, dist)]
  }

  lemma SizeCons(i: Instr, s: seq<Instr>)
    ensures Size([i] + s) == EncodedSize(i) + Size(s)
  {
    assert ([i] + s)[1..] == s;
  }

  /** The source's literal count is the size of the runs it stands for. */
  lemma {:induction false} LiteralRunsSize(b: seq<Byte>)
    ensures Size(LiteralRuns(b)) == Literals(|b|, 0)
    decreases |b|
  {
    if |b| > 32 {
      SizeCons(Run(b[..32]), LiteralRuns(b[32..]));
      LiteralRunsSize(b[32..]);
    }
  }

  /** The source's match count is the size of the chunks it stands for. */
  lemma {:induction false} MatchChunksSize(l: nat, dist: nat)
    requires 1 <= l && 1 <= dist <= 8192
    ensures Size(MatchChunks(l, dist)) == FlzMatch(l, 0)
    decreases l
  {
    if l >= 263 {
      SizeCons(Copy(262, dist), MatchChunks(l - 262, dist));
      MatchChunksSize(l - 262, dist);
    }
  }

  lemma {:induction false} LiteralRunsExpand(b: seq<Byte>, out: seq<Byte>)
    ensures Expand(LiteralRuns(b), out) == Some(out + b)
    decreases |b|
  {
    if |b| == 0 {
      assert out + b == out;
    } else if |b| > 32 {
      ExpandCons(Run(b[..32]), LiteralRuns(b[32..]), out);
      LiteralRunsExpand(b[32..], out + b[..32]);
      assert out + b[..32] + b[32..] == out + b;
    }
  }

  /** The `len` bytes at `i` are those found `dist` bytes earlier; the two stretches may overlap. */
  ghost predicate Repeats(input: seq<Byte>, i: nat, len: nat, dist: nat)
    requires dist <= i && i + len <= |input|
  {
    input[i..i + len] == input[i - dist..i - dist + len]
  }

  lemma RepeatsDrop(input: seq<Byte>, i: nat, len: nat, dist: nat, k: nat)
    requires dist <= i && k <= len && i + len <= |input| && Repeats(input, i, len, dist)
    ensures Repeats(input, i, k, dist) && Repeats(input, i + k, len - k, dist)
    ensures k < len ==> input[i + k] == input[i - dist + k]
  {
    var a, b := input[i..i + len], input[i - dist..i - dist + len];
    assert a[..k] == input[i..i + k] && b[..k] == input[i - dist..i - dist + k];
    assert a[k..] == input[i + k..i + len] && b[k..] == input[i + k - dist..i + len - dist];
    assert k < len ==> a[k] == input[i + k] && b[k] == input[i - dist + k];
  }

  lemma RepeatsJoin(input: seq<Byte>, i: nat, a: nat, b: nat, dist: nat)
    requires dist <= i && i + a + b <= |input|
    requires Repeats(input, i, a, dist) && Repeats(input, i + a, b, dist)
    ensures Repeats(input, i, a + b, dist)
  {
    assert input[i..i + a + b] == input[i..i + a] + input[i + a..i + a + b];
    assert input[i - dist..i - dist + a + b] == input[i - dist..i - dist + a] + input[i + a - dist..i + a + b - dist];
  }

  /** A back reference over bytes that really repeat reproduces them, overlapping or not. */
  lemma {:induction false} CopyBackReproduces(input: seq<Byte>, i: nat, dist: nat, len: nat)
    requires 1 <= dist <= i && i + len <= |input| && Repeats(input, i, len, dist)
    ensures CopyBack(input[..i], dist, len) == input[..i + len]
    decreases len
  {
    if len > 0 {
      RepeatsDrop(input, i, len, dist, 0);
      RepeatsDrop(input, i, len, dist, 1);
      assert input[..i] + [input[i - dist]] == input[..i + 1];
      CopyBackReproduces(input, i + 1, dist, len - 1);
    }
  }

  lemma {:induction false} CopyBackSplit(out: seq<Byte>, dist: nat, a: nat, b: nat)
    requires 1 <= dist <= |out|
    ensures |CopyBack(out, dist, a)| == |out| + a
    ensures CopyBack(CopyBack(out, dist, a), dist, b) == CopyBack(out, dist, a + b)
    decreases a
  {
    if a > 0 {
      CopyBackSplit(out + [out[|out| - dist]], dist, a - 1, b);
    }
  }

  /** Splitting a long match into 262-byte chunks copies the same bytes as one long copy. */
  lemma {:induction false} MatchChunksExpand(l: nat, dist: nat, out: seq<Byte>)
    requires 1 <= l && 1 <= dist <= 8192 && dist <= |out|
    ensures Expand(MatchChunks(l, dist), out) == Some(CopyBack(out, dist, l + 2))
    decreases l
  {
    if l >= 263 {
      CopyBackSplit(out, dist, 262, l - 260);
      ExpandCons(Copy(262, dist), MatchChunks(l - 262, dist), out);
      MatchChunksExpand(l - 262, dist, CopyBack(out, dist, 262));
    } else {
      ExpandCons(Copy(l + 2, dist), [], out);
    }
  }

  // ---------- Size bounds ----------

  function Ceil32(r: nat): nat { (r + 31) / 32 }

  lemma LiteralsIsCeil(r: nat, size: nat)
    ensures Literals(r, size) == size + r + Ceil32(r)
  {
  }

  /** A match is cheaper than the literals it replaces by at least one byte, the price of splitting
      a literal run in two, and never shrinks more than 88 to 1. */
  lemma MatchCost(l: nat, size: nat)
    requires 1 <= l
    ensures FlzMatch(l, size) == size + FlzMatch(l, 0)
    ensures FlzMatch(l, 0) + 1 <= l + 2 <= 88 * FlzMatch(l, 0)
  {
  }

  lemma Ceil32Split(a: nat, c: nat, b: nat)
    ensures Ceil32(a) + Ceil32(b) <= Ceil32(a + c + b) + 1
  {
  }

  lemma U24Injective(input: seq<Byte>, i: nat, j: nat)
    requires i + 2 < |input| && j < i && U24(input, i) == U24(input, j)
    ensures Repeats(input, i, 3, i - j)
  {
    assert input[i] == input[j] && input[i + 1] == input[j + 1] && input[i + 2] == input[j + 2];
    assert input[i..i + 3] == [input[i], input[i + 1], input[i + 2]];
    assert input[j..j + 3] == [input[j], input[j + 1], input[j + 2]];
  }

  // ---------- The source's loops ----------

  /** One more than the number of equal bytes at `p` and `q` before the first difference, or the
      whole window when there is none. */
  method Cmp(input: seq<Byte>, p: U32, q: U32, r: U32) returns (l: U32)
    requires p <= q <= r <= |input|
    ensures l <= r - q && (q < r ==> 1 <= l)
    ensures 1 <= l ==> input[q..q + l - 1] == input[p..p + l - 1]
    ensures l == r - q || input[p + l - 1] != input[q + l - 1]
  {
    l := 0;
    var r': U32 := r - q;
    while l < r'
      invariant 0 <= l <= r - q
      invariant r' == 0 || r' == r - q
      invariant r' == r - q ==> input[q..q + l] == input[p..p + l]
      invariant r' != r - q ==> 1 <= l && input[p + l - 1] != input[q + l - 1]
      invariant 1 <= l ==> input[q..q + l - 1] == input[p..p + l - 1]
      decreases r' - l
    {
      assert input[q..q + l + 1] == input[q..q + l] + [input[q + l]];
      assert input[p..p + l + 1] == input[p..p + l] + [input[p + l]];
      if input[p + l] != input[q + l] {
        r' := 0;
      }
      l := l + 1;
    }
  }

  method SetNextHash(htab: array<U32>, input: seq<Byte>, idx: U32) returns (next: U32)
    requires htab.Length == 8192 && idx + 2 < |input| < 0x1_0000_0000
    modifies htab
    ensures next == idx + 1
    ensures forall h :: 0 <= h < 8192 ==>
              htab[h] == if h == Hash(U24(input, idx)) then idx else old(htab[h])
  {
    htab[Hash(U24(input, idx))] := idx;
    next := idx + 1;
  }

  ghost function Window(input: seq<Byte>, i: nat): seq<Byte>
    requires i + 2 < |input|
  {
    input[i..i + 3]
  }

  /** No three bytes occur twice. */
  ghost predicate NoRepeats(input: seq<Byte>) {
    forall i: nat, j: nat :: j < i && i + 2 < |input| ==> Window(input, i) != Window(input, j)
  }

  lemma RepeatsIsRepeat(input: seq<Byte>, i: nat, dist: nat)
    requires 1 <= dist <= i && i + 2 < |input| && Repeats(input, i, 3, dist)
    ensures !NoRepeats(input)
  {
    assert Window(input, i) == Window(input, i - dist);
  }

  ghost predicate Constant(input: seq<Byte>) {
    forall i :: 0 <= i < |input| ==> input[i] == input[0]
  }

  /** The only two states of the main loop on a constant input of length `n`: nothing found yet, and
      everything up to the last five bytes matched at once. */
  ghost predicate ConstantProgress(n: nat, anchor: nat, idx: nat, size: nat) {
    if idx == 2 then anchor == 0 && size == 0
    else n >= 17 && anchor == idx == n - 5 && size == FlzMatch(n - 9, Literals(2, 0))
  }

  lemma ConstantWindows(input: seq<Byte>, i: nat, j: nat)
    requires Constant(input) && i + 2 < |input| && j + 2 < |input|
    ensures U24(input, i) == U24(input, j)
  {
  }

  lemma ConstantTotal(n: nat)
    requires n >= 17
    ensures Literals(5, FlzMatch(n - 9, Literals(2, 0))) == FlzMatch(n - 9, 0) + 9
  {
  }

  /** What holds between two rounds of the main loop: `size` bytes of stream stand for the first
      `anchor` bytes of input, and they are within both size bounds. */
  ghost predicate Progress(input: seq<Byte>, anchor: nat, size: nat, s: seq<Instr>)
  {
    && anchor <= |input|
    && AllWellFormed(s) && Size(s) == size && Expand(s, []) == Some(input[..anchor])
    && size + Ceil32(|input| - anchor) <= anchor + Ceil32(|input|)
    && anchor <= 88 * size
  }

  /** The inner loop: advance until a position repeats three bytes seen within the window, or until
      the limit.  On a match `idx` is left one past the position. */
  method FindMatch(htab: array<U32>, input: seq<Byte>, start: U32, idxLimit: U32)
    returns (idx: U32, r: U32, distance: U32)
    requires htab.Length == 8192 && start < idxLimit && idxLimit + 13 == |input| < 0x1_0000_0000
    requires forall h :: 0 <= h < 8192 ==> htab[h] < start
    modifies htab
    ensures start <= idx <= idxLimit
    ensures forall h :: 0 <= h < 8192 ==> htab[h] <= idx
    ensures idx < idxLimit ==>
              && start < idx && 1 <= distance < 8192 && r + distance == idx - 1
              && (forall h :: 0 <= h < 8192 ==> htab[h] < idx)
              && Repeats(input, idx - 1, 3, distance)
    ensures var r0 := old(htab[Hash(U24(input, start))]);
            start - r0 < 8192 && U24(input, start) == U24(input, r0) ==> idx == start + 1 && r == r0
  {
    idx := start;
    ghost var r0 := htab[Hash(U24(input, start))];
    while true
      invariant start <= idx <= idxLimit
      invariant forall h :: 0 <= h < 8192 ==> htab[h] < idx
      invariant idx == start ==> htab[Hash(U24(input, start))] == r0
      invariant idx > start ==> !(start - r0 < 8192 && U24(input, start) == U24(input, r0))
      decreases idxLimit - idx
    {
      var sequence := U24(input, idx);
      var hash := Hash(sequence);
      r := htab[hash];
      htab[hash] := idx;
      distance := idx - r;
      if idx >= idxLimit {
        break;
      }
      idx := idx + 1;
      if distance < 8192 && sequence == U24(input, r) {
        U24Injective(input, idx - 1, r);
        break;
      }
    }
  }

  /** The rest of one round: count the literals before the match at `idx` and the match itself, and
      record the two positions that follow it. */
  method CountMatch(htab: array<U32>, input: seq<Byte>, idxLimit: U32, anchor: U32, idx: U32, r: U32,
                    distance: U32, size: U32, ghost s: seq<Instr>)
    returns (size': U32, next: U32, ghost s': seq<Instr>)
    requires htab.Length == 8192 && anchor <= idx < idxLimit && idxLimit + 13 == |input|
    requires Literals(|input|, 0) < 0x1_0000_0000
    requires 1 <= distance < 8192 && r + distance == idx && Repeats(input, idx, 3, distance)
    requires Progress(input, anchor, size, s)
    requires forall h :: 0 <= h < 8192 ==> htab[h] <= idx
    modifies htab
    ensures idx < next <= |input|
    ensures forall h :: 0 <= h < 8192 ==> htab[h] < next
    ensures Progress(input, next, size', s')
    ensures Constant(input) ==>
              next == |input| - 5 && size' == FlzMatch(|input| - 7 - idx, Literals(idx - anchor, size))
  {
    LiteralsIsCeil(|input|, 0);
    var len := Cmp(input, r + 3, idx + 3, idxLimit + 9);
    s' := MatchStep(input, anchor, idx, len, distance, size, s);
    size' := if idx > anchor then Literals(idx - anchor, size) else size;
    size' := FlzMatch(len, size');
    next := SetNextHash(htab, input, idx + len);
    next := SetNextHash(htab, input, next);
  }

  /** The `U32` variables make every addition and subtraction of the source a proof obligation: none
      leaves the 32-bit range. */
  method FlzCompressLen(input: seq<Byte>) returns (size: U32)
    requires Literals(|input|, 0) < 0x1_0000_0000
    ensures CompressesTo(input, size)
    ensures size <= Literals(|input|, 0)
    ensures |input| <= 88 * size
    ensures NoRepeats(input) ==> size == Literals(|input|, 0)
    ensures Constant(input) && |input| >= 17 ==> size == FlzMatch(|input| - 9, 0) + 9
  {
    LiteralsIsCeil(|input|, 0);
    var idx: U32 := 2;
    var idxLimit: U32 := if |input| < 13 then 0 else |input| - 13;
    var anchor: U32 := 0;
    size := 0;
    var htab := new U32[8192](_ => 0);
    ghost var s: seq<Instr> := [];
    assert input[..0] == [];

    while idx < idxLimit
      invariant 0 <= anchor <= idx
      invariant forall h :: 0 <= h < 8192 ==> htab[h] < idx
      invariant Progress(input, anchor, size, s)
      invariant NoRepeats(input) ==> anchor == 0
      invariant Constant(input) && |input| >= 17 ==>
                  ConstantProgress(|input|, anchor, idx, size)
      invariant idx == 2 ==> forall h :: 0 <= h < 8192 ==> htab[h] == 0
      decreases |input| - idx
    {
      var r: U32;
      var distance: U32;
      if Constant(input) {
        ConstantWindows(input, 0, 2);
      }
      idx, r, distance := FindMatch(htab, input, idx, idxLimit);
      if idx >= idxLimit {
        break;
      }
      idx := idx - 1;
      RepeatsIsRepeat(input, idx, distance);
      size, idx, s := CountMatch(htab, input, idxLimit, anchor, idx, r, distance, size, s);
      anchor := idx;
    }

    FinalSize(input, anchor, idx, size, s);
    size := Literals(|input| - anchor, size);
  }

  /** Ghost step: the stream grows by the literal runs for `input[anchor..idx]`. */
  lemma LiteralStep(input: seq<Byte>, anchor: nat, idx: nat, size: nat, s: seq<Instr>) returns (s': seq<Instr>)
    requires anchor <= idx <= |input| && Progress(input, anchor, size, s)
    ensures Literals(idx - anchor, size) == size + (idx - anchor) + Ceil32(idx - anchor) == Size(s')
    ensures AllWellFormed(s') && Expand(s', []) == Some(input[..idx])
    ensures Size(s') <= Literals(|input|, 0) && idx <= 88 * Size(s')
  {
    LiteralsIsCeil(idx - anchor, size);
    LiteralsIsCeil(idx - anchor, 0);
    LiteralsIsCeil(|input|, 0);
    var b := input[anchor..idx];
    s' := s + LiteralRuns(b);
    ExpandAppend(s, LiteralRuns(b), []);
    LiteralRunsExpand(b, input[..anchor]);
    LiteralRunsSize(b);
    assert input[..anchor] + b == input[..idx];
  }

  /** What the trailing literals make of the state after the main loop. */
  lemma FinalSize(input: seq<Byte>, anchor: nat, idx: nat, size: nat, s: seq<Instr>)
    requires Progress(input, anchor, size, s)
    requires NoRepeats(input) ==> anchor == 0
    requires Constant(input) && |input| >= 17 ==> idx != 2 && ConstantProgress(|input|, anchor, idx, size)
    ensures var total := Literals(|input| - anchor, size);
            && CompressesTo(input, total)
            && total <= Literals(|input|, 0)
            && |input| <= 88 * total
            && (NoRepeats(input) ==> total == Literals(|input|, 0))
            && (Constant(input) && |input| >= 17 ==> total == FlzMatch(|input| - 9, 0) + 9)
  {
    var s' := LiteralStep(input, anchor, |input|, size, s);
    assert input[..|input|] == input;
    DecompressEncode(s', []);
    LiteralsIsCeil(|input|, 0);
    if |input| >= 17 {
      ConstantTotal(|input|);
    }
  }

  /** Ghost step: the stream grows by the literals before a match of `len + 2` bytes, and by the
      references for the match. */
  lemma MatchStep(input: seq<Byte>, anchor: nat, i: nat, len: nat, dist: nat, size: nat, s: seq<Instr>)
    returns (s': seq<Instr>)
    requires 1 <= len && 1 <= dist <= 8191 && dist <= i && anchor <= i && i + len + 2 <= |input|
    requires Repeats(input, i, 3, dist) && Repeats(input, i + 3, len - 1, dist)
    requires Progress(input, anchor, size, s)
    ensures Literals(0, size) == size
    ensures Progress(input, i + len + 2, FlzMatch(len, Literals(i - anchor, size)), s')
    ensures Literals(i - anchor, size) <= FlzMatch(len, Literals(i - anchor, size)) <= Literals(|input|, 0)
  {
    var s1 := LiteralStep(input, anchor, i, size, s);
    s' := s1 + MatchChunks(len, dist);
    ExpandAppend(s1, MatchChunks(len, dist), []);
    RepeatsJoin(input, i, 3, len - 1, dist);
    MatchChunksExpand(len, dist, input[..i]);
    CopyBackReproduces(input, i, dist, len + 2);
    MatchChunksSize(len, dist);
    MatchCost(len, Size(s1));
    Ceil32Split(i - anchor, len + 2, |input| - i - len - 2);
    LiteralsIsCeil(|input|, 0);
  }
}
