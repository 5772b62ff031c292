/**
 * AES-CMAC as BeamioSun.ts computes it over byte buffers, against RFC 4493
 * (section 2.3 for the subkeys, section 2.4 for the MAC). The block cipher is
 * an arbitrary function from 16-byte blocks to 16-byte blocks.
 */
module Cmac {

  type Bytes = seq<bv8>

  function ZeroByte(): bv8 { 0 }

  function Zeros(n: nat): (r: Bytes)
    ensures |r| == n && forall i :: 0 <= i < n ==> r[i] == ZeroByte()
  {
    seq(n, i requires 0 <= i < n => ZeroByte())
  }

  const ZERO: Bytes := Zeros(16)

  type Block = b: Bytes | |b| == 16 witness ZERO

  type Cipher = Block -> Block

  // ---- Bytes ----

  function Msb(b: bv8): bv8 { b >> 7 }

  function ShiftIn(b: bv8, low: bv8): bv8 { (b << 1) | low }

  function ShiftDown(b: bv8, above: bv8): bv8 { (b >> 1) | (above << 7) }

  function XorByte(a: bv8, b: bv8): bv8 { a ^ b }

  lemma ShiftByte(b: bv8, c: bv8)
    requires c <= 1
    ensures 2 * (b as int) + c as int == 256 * (Msb(b) as int) + ShiftIn(b, c) as int
  {
  }

  function Xor(a: Bytes, b: Bytes): (r: Bytes)
    requires |a| == |b|
    ensures |r| == |a|
  {
    seq(|a|, i requires 0 <= i < |a| => XorByte(a[i], b[i]))
  }

  // ---- Doubling, section 2.3 ----

  /** The constant Rb: zero except for its last byte. */
  const RB: Block := ZERO[15 := 0x87]

  /** One bit to the left; the bit that falls off the front is lost. */
  function LeftShift(x: Bytes): (r: Bytes)
    ensures |r| == |x|
  {
    seq(|x|, i requires 0 <= i < |x| => ShiftIn(x[i], if i + 1 < |x| then Msb(x[i + 1]) else 0))
  }

  function Double(x: Block): Block {
    if Msb(x[0]) == 0 then LeftShift(x) else Xor(LeftShift(x), RB)
  }

  /** One bit to the right, with the low bit of `top` entering at the front. */
  function RightShift(x: Bytes, top: bv8): (r: Bytes)
    ensures |r| == |x|
  {
    seq(|x|, i requires 0 <= i < |x| => ShiftDown(x[i], if i == 0 then top else x[i - 1]))
  }

  function IsOdd(b: bv8): bool { b & 1 == 1 }

  function Halve(y: Block): Block {
    if IsOdd(y[15]) then RightShift(Xor(y, RB), 1) else RightShift(y, 0)
  }

  function Power256(n: nat): nat {
    if n == 0 then 1 else 256 * Power256(n - 1)
  }

  /** The number a digit string to base 256 stands for, most significant digit first. */
  function Number(ds: seq<nat>): nat {
    if ds == [] then 0 else ds[0] * Power256(|ds| - 1) + Number(ds[1..])
  }

  function Digits(x: Bytes): seq<nat> {
    seq(|x|, i requires 0 <= i < |x| => x[i] as nat)
  }

  function Value(x: Bytes): nat {
    Number(Digits(x))
  }

  lemma {:induction false} NumberBound(ds: seq<nat>)
    requires forall i :: 0 <= i < |ds| ==> ds[i] <= 255
    ensures Number(ds) < Power256(|ds|)
  {
    if ds != [] {
      NumberBound(ds[1..]);
      BoundStep(ds[0], Power256(|ds| - 1), Number(ds[1..]));
    }
  }

  lemma BoundStep(d: nat, p: nat, r: nat)
    requires d <= 255 && r < p
    ensures d * p + r < 256 * p
  {
    assert (255 - d) * p >= 0;
    assert (255 - d) * p == 255 * p - d * p;
  }

  lemma Distribute(d: nat, c: nat, m: nat, s: nat, p: nat)
    requires 2 * d + c == 256 * m + s
    ensures 2 * (d * p) + c * p == m * (256 * p) + s * p
  {
    assert (2 * d + c) * p == 2 * (d * p) + c * p;
    assert (256 * m + s) * p == m * (256 * p) + s * p;
  }

  /** Doubling digit by digit, right to left: `cs[i]` is the carry out of digit `i`. */
  lemma {:induction false} CarryChain(ds: seq<nat>, out: seq<nat>, cs: seq<nat>)
    requires |out| == |ds| && |cs| == |ds| + 1 && cs[|ds|] == 0
    requires forall i :: 0 <= i < |ds| ==> 2 * ds[i] + cs[i + 1] == 256 * cs[i] + out[i]
    ensures 2 * Number(ds) == cs[0] * Power256(|ds|) + Number(out)
  {
    if ds != [] {
      CarryChain(ds[1..], out[1..], cs[1..]);
      Distribute(ds[0], cs[1], cs[0], out[0], Power256(|ds| - 1));
    }
  }

  function TopBit(x: Bytes, i: nat): nat {
    if i < |x| then Msb(x[i]) as nat else 0
  }

  /** The carry out of each byte under the shift, and the zero that enters at the end. */
  function Carries(x: Bytes): seq<nat> {
    seq(|x| + 1, i requires 0 <= i <= |x| => TopBit(x, i))
  }

  lemma ShiftDigit(x: Bytes, i: nat)
    requires i < |x|
    ensures 2 * Digits(x)[i] + TopBit(x, i + 1) == 256 * TopBit(x, i) + Digits(LeftShift(x))[i]
    ensures TopBit(x, i) <= 1 && Digits(LeftShift(x))[i] <= 255
  {
    ShiftByte(x[i], if i + 1 < |x| then Msb(x[i + 1]) else 0);
  }

  lemma MulMonotone(p: nat, q: nat)
    requires q >= 2
    ensures p * q >= 2 * p
  {
    assert p * q == 2 * p + p * (q - 2);
  }

  lemma DivideOnce(a: nat, m: nat, v: nat, p: nat)
    requires a == m * p + v && v < p && m <= 1
    ensures v == a % p
  {
    var q := a / p;
    assert a == p * q + a % p;
    if q > 1 { MulMonotone(p, q); }
  }

  lemma LeftShiftCarries(x: Bytes)
    requires x != []
    ensures Value(LeftShift(x)) < Power256(|x|)
    ensures 2 * Value(x) == TopBit(x, 0) * Power256(|x|) + Value(LeftShift(x))
  {
    ShiftDigits(x);
    CarryChain(Digits(x), Digits(LeftShift(x)), Carries(x));
    NumberBound(Digits(LeftShift(x)));
  }

  lemma ShiftDigits(x: Bytes)
    ensures forall i :: 0 <= i < |x| ==>
      && 2 * Digits(x)[i] + Carries(x)[i + 1] == 256 * Carries(x)[i] + Digits(LeftShift(x))[i]
      && Digits(LeftShift(x))[i] <= 255
  {
    forall i | 0 <= i < |x|
      ensures 2 * Digits(x)[i] + Carries(x)[i + 1] == 256 * Carries(x)[i] + Digits(LeftShift(x))[i]
      ensures Digits(LeftShift(x))[i] <= 255
    {
      ShiftDigit(x, i);
    }
  }

  /** On byte strings of any length, the shift is multiplication by two modulo 256 to that length:
      2^128 on the blocks it is used for. */
  lemma LeftShiftIsDoubling(x: Bytes)
    requires x != []
    ensures Power256(|x|) > 0 && Value(LeftShift(x)) == (2 * Value(x)) % Power256(|x|)
  {
    LeftShiftCarries(x);
    ShiftDigit(x, 0);
    DivideOnce(2 * Value(x), TopBit(x, 0), Value(LeftShift(x)), Power256(|x|));
  }

  lemma ShiftsUndo(b: bv8, low: bv8, above: bv8)
    requires low <= 1
    ensures ShiftDown(ShiftIn(b, low), ShiftIn(above, Msb(b))) == b
    ensures ShiftDown(ShiftIn(b, low), Msb(b)) == b
    ensures !IsOdd(b) ==> ShiftIn(ShiftDown(b, above), 0) == b
    ensures Msb(b) <= 1
  {
  }

  lemma LowBits(b: bv8)
    ensures !IsOdd(ShiftIn(b, 0))
    ensures IsOdd(XorByte(b, 0x87)) == !IsOdd(b)
    ensures XorByte(XorByte(b, 0x87), 0x87) == b && XorByte(b, 0) == b
    ensures Msb(ShiftDown(b, 1)) == 1 && Msb(ShiftDown(b, 0)) == 0
  {
  }

  lemma RightUndoesLeft(x: Block)
    ensures RightShift(LeftShift(x), Msb(x[0])) == x && !IsOdd(LeftShift(x)[15])
  {
    var y := LeftShift(x);
    forall i | 0 <= i < 16 ensures RightShift(y, Msb(x[0]))[i] == x[i] { UndoneAt(x, i); }
    LowBits(x[15]);
  }

  lemma UndoneAt(x: Block, i: nat)
    requires i < 16
    ensures RightShift(LeftShift(x), Msb(x[0]))[i] == x[i]
  {
    if i + 1 < 16 { ShiftsUndo(x[i + 1], 0, 0); }
    ShiftsUndo(x[i], if i + 1 < 16 then Msb(x[i + 1]) else 0, if i == 0 then 0 else x[i - 1]);
  }

  lemma LeftUndoesRight(y: Block, top: bv8)
    requires top <= 1 && !IsOdd(y[15])
    ensures LeftShift(RightShift(y, top)) == y && Msb(RightShift(y, top)[0]) == top
  {
    var x := RightShift(y, top);
    forall i | 0 <= i < 16 ensures LeftShift(x)[i] == y[i] {
      ShiftsUndo(y[i], 0, if i == 0 then top else y[i - 1]);
      if i + 1 < 16 { MsbOfShiftDown(y[i + 1], y[i], if i == 0 then top else y[i - 1]); }
    }
    LowBits(y[0]);
  }

  lemma MsbOfShiftDown(b: bv8, a: bv8, above: bv8)
    ensures ShiftIn(ShiftDown(a, above), Msb(ShiftDown(b, a))) == a
  {
  }

  lemma XorRbTwice(x: Block)
    ensures Xor(Xor(x, RB), RB) == x
    ensures Xor(x, RB)[0] == x[0] && IsOdd(Xor(x, RB)[15]) == !IsOdd(x[15])
  {
    forall i | 0 <= i < 16 ensures Xor(Xor(x, RB), RB)[i] == x[i] { LowBits(x[i]); }
    LowBits(x[0]);
    LowBits(x[15]);
  }

  /** The doubling of section 2.3 is a bijection on blocks. */
  lemma DoubleIsBijective(x: Block)
    ensures Halve(Double(x)) == x && Double(Halve(x)) == x
  {
    RightUndoesLeft(x);
    XorRbTwice(LeftShift(x));
    ShiftsUndo(x[0], 0, 0);
    XorRbTwice(x);
    if IsOdd(x[15]) { LeftUndoesRight(Xor(x, RB), 1); } else { LeftUndoesRight(x, 0); }
  }

  // ---- The MAC, section 2.4 ----

  /** A message as the blocks M_1 .. M_n of the RFC, the last one padded with a one bit and zeros
      unless it is complete. The empty message is one incomplete block. */
  datatype Padded = Padded(blocks: seq<Block>, complete: bool)

  function Pad(m: Bytes): Block
    requires |m| < 16
  {
    m + [0x80] + Zeros(15 - |m|)
  }

  function PadMessage(m: Bytes): (r: Padded)
    ensures r.blocks != []
  {
    if |m| < 16 then Padded([Pad(m)], false)
    else if |m| == 16 then Padded([m], true)
    else
      var rest := PadMessage(m[16..]);
      Padded([m[..16]] + rest.blocks, rest.complete)
  }

  /** X after the given blocks have been chained in. */
  function Chain(cipher: Cipher, x: Block, blocks: seq<Block>): Block
    decreases |blocks|
  {
    if blocks == [] then x else Chain(cipher, cipher(Xor(x, blocks[0])), blocks[1..])
  }

  function Subkey1(cipher: Cipher): Block { Double(cipher(ZERO)) }

  function Subkey2(cipher: Cipher): Block { Double(Subkey1(cipher)) }

  /** AES-CMAC of a padded message: the last block is masked with K1 or K2 before the last call. */
  function Mac(cipher: Cipher, p: Padded): Block
    requires p.blocks != []
  {
    var n := |p.blocks|;
    var x := Chain(cipher, ZERO, p.blocks[..n - 1]);
    cipher(Xor(x, Xor(p.blocks[n - 1], if p.complete then Subkey1(cipher) else Subkey2(cipher))))
  }

  lemma PadTail(m: Bytes, k: nat)
    requires |m| < k < 16
    ensures Pad(m)[k] == 0
  {
  }

  lemma PadInjective(a: Bytes, b: Bytes)
    requires |a| <= |b| < 16 && Pad(a) == Pad(b)
    ensures a == b
  {
    if |a| < |b| { PadTail(a, |b|); }
    assert Pad(b)[|b|] == 0x80;
    assert a == Pad(a)[..|a|] && b == Pad(b)[..|b|];
  }

  /** No two messages pad to the same blocks and flag. */
  lemma {:induction false} PadMessageInjective(a: Bytes, b: Bytes)
    requires PadMessage(a) == PadMessage(b)
    ensures a == b
    decreases |a|
  {
    var p, q := PadMessage(a), PadMessage(b);
    if |a| > 16 && |b| > 16 {
      assert p.blocks[1..] == PadMessage(a[16..]).blocks && q.blocks[1..] == PadMessage(b[16..]).blocks;
      PadMessageInjective(a[16..], b[16..]);
      assert p.blocks[0] == a[..16] && q.blocks[0] == b[..16];
      assert a == a[..16] + a[16..] && b == b[..16] + b[16..];
    } else {
      assert |p.blocks| == |q.blocks|;
      assert p.blocks[0] == q.blocks[0];
      if |a| < 16 { if |a| <= |b| { PadInjective(a, b); } else { PadInjective(b, a); } }
    }
  }

  function BlockCount(length: nat): nat {
    if length == 0 then 1 else (length + 15) / 16
  }

  lemma {:induction false} PadMessageShape(m: Bytes)
    ensures |PadMessage(m).blocks| == BlockCount(|m|)
    ensures PadMessage(m).complete <==> |m| > 0 && |m| % 16 == 0
    decreases |m|
  {
    if |m| > 16 { PadMessageShape(m[16..]); }
  }

  /** All blocks but the last are consecutive slices. */
  lemma {:induction false} FullBlockAt(m: Bytes, i: nat)
    requires i + 1 < |PadMessage(m).blocks|
    ensures i * 16 + 16 <= |m| && PadMessage(m).blocks[i] == m[i * 16..i * 16 + 16]
    decreases i
  {
    if i > 0 {
      var rest, j := m[16..], i - 1;
      FullBlockAt(rest, j);
      assert rest[j * 16..j * 16 + 16] == m[i * 16..i * 16 + 16];
    }
  }

  lemma LastBlockOfRest(m: Bytes)
    requires |m| > 16
    ensures var p, q := PadMessage(m), PadMessage(m[16..]); p.blocks[|p.blocks| - 1] == q.blocks[|q.blocks| - 1]
  {
    assert |PadMessage(m).blocks| == 1 + |PadMessage(m[16..]).blocks|;
  }

  /** The last block is what is left, padded unless it is complete. */
  lemma {:induction false} LastBlockAt(m: Bytes, start: nat)
    requires |m| == 0 == start || start < |m| <= start + 16
    requires start % 16 == 0
    ensures var p := PadMessage(m);
      p.blocks[|p.blocks| - 1] == if |m| == start + 16 then m[start..start + 16] else Pad(m[start..])
    decreases |m|
  {
    if |m| > 16 {
      var rest, from := m[16..], start - 16;
      LastBlockAt(rest, from);
      LastBlockOfRest(m);
      assert rest[from..] == m[start..];
      if |m| == start + 16 { assert rest[from..from + 16] == m[start..start + 16]; }
    } else {
      assert start == 0;
      assert m[0..] == m && (|m| == 16 ==> m[0..16] == m);
    }
  }

  lemma {:induction false} ChainAppend(cipher: Cipher, x: Block, blocks: seq<Block>, b: Block)
    ensures Chain(cipher, x, blocks + [b]) == cipher(Xor(Chain(cipher, x, blocks), b))
    decreases |blocks|
  {
    if blocks == [] {
      assert (blocks + [b])[1..] == [];
    } else {
      ChainAppend(cipher, cipher(Xor(x, blocks[0])), blocks[1..], b);
      assert (blocks + [b])[1..] == blocks[1..] + [b];
    }
  }

  // ---- The MAC in terms of the message's bytes ----

  lemma {:induction false} NumberConcat(a: seq<nat>, b: seq<nat>)
    ensures Number(a + b) == Number(a) * Power256(|b|) + Number(b)
  {
    if a == [] {
      assert a + b == b;
    } else {
      NumberConcat(a[1..], b);
      assert (a + b)[1..] == a[1..] + b;
      PowerSum(|a| - 1, |b|);
      Regroup(a[0], Power256(|a| - 1), Power256(|b|), Number(a[1..]));
    }
  }

  lemma Regroup(d: nat, p: nat, q: nat, x: nat)
    ensures (d * p + x) * q == d * (p * q) + x * q
  {
    assert (d * p) * q == d * (p * q);
  }

  lemma {:induction false} PowerSum(a: nat, b: nat)
    ensures Power256(a + b) == Power256(a) * Power256(b)
  {
    if a > 0 {
      PowerSum(a - 1, b);
      Regroup(256, Power256(a - 1), Power256(b), 0);
    }
  }

  lemma {:induction false} NumberOfZeros(ds: seq<nat>)
    requires forall i :: 0 <= i < |ds| ==> ds[i] == 0
    ensures Number(ds) == 0
  {
    if ds != [] { NumberOfZeros(ds[1..]); }
  }

  /** Padding appends a one bit and then zeros up to the end of the block. */
  lemma PadValue(m: Bytes)
    requires |m| < 16
    ensures Value(Pad(m)) == Value(m) * Power256(16 - |m|) + 128 * Power256(15 - |m|)
  {
    PadDigits(m);
    TailNumber(Digits(Zeros(15 - |m|)));
    NumberConcat(Digits(m), [128] + Digits(Zeros(15 - |m|)));
  }

  lemma TailNumber(zeros: seq<nat>)
    requires forall i :: 0 <= i < |zeros| ==> zeros[i] == 0
    ensures Number([128] + zeros) == 128 * Power256(|zeros|)
  {
    NumberOfZeros(zeros);
    assert ([128] + zeros)[1..] == zeros;
  }

  lemma PadDigits(m: Bytes)
    requires |m| < 16
    ensures Digits(Pad(m)) == Digits(m) + ([128] + Digits(Zeros(15 - |m|)))
  {
  }

  /** `y` is twice `x` in the field, where `s` is `x` shifted: reduced when a bit fell off. */
  ghost predicate Doubling(x: Block, s: Block, y: Block) {
    && Value(s) == 2 * Value(x) - (if 2 * Value(x) < Power256(16) then 0 else Power256(16))
    && y == if 2 * Value(x) < Power256(16) then s else s[15 := s[15] ^ 0x87]
  }

  ghost predicate Doubled(x: Block, y: Block) {
    exists s: Block :: Doubling(x, s, y)
  }

  lemma DoubleBytes(x: Block)
    ensures Double(x) == if TopBit(x, 0) == 0 then LeftShift(x) else LeftShift(x)[15 := LeftShift(x)[15] ^ 0x87]
    ensures TopBit(x, 0) <= 1
  {
    LastByteIsRb(x);
  }

  lemma DoublingByTopBit(x: Block, s: Block, y: Block, top: nat)
    requires 2 * Value(x) == top * Power256(16) + Value(s) && Value(s) < Power256(16) && top <= 1
    requires y == if top == 0 then s else s[15 := s[15] ^ 0x87]
    ensures Doubling(x, s, y)
  {
    var v, p := Value(s), Power256(16);
    if top == 0 {
      assert 2 * Value(x) == v;
    } else {
      assert 2 * Value(x) == p + v;
    }
  }

  lemma DoubleIs(x: Block)
    ensures Doubled(x, Double(x))
  {
    LeftShiftCarries(x);
    DoubleBytes(x);
    DoublingByTopBit(x, LeftShift(x), Double(x), TopBit(x, 0));
  }

  /** The message with its padding, byte by byte. */
  function PaddedByte(m: Bytes, i: nat): bv8 {
    if i < |m| then m[i] else if i == |m| then 0x80 else 0
  }

  /** The chained states, one before each block of the message, starting with zeros. The empty message has one block. */
  ghost predicate Chained(cipher: Cipher, m: Bytes, states: seq<Block>) {
    && states != [] && states[0] == ZERO
    && (if m == [] then |states| == 1 else 16 * (|states| - 1) < |m| <= 16 * |states|)
    && forall i :: 0 <= i < |states| - 1 ==> states[i + 1] == cipher(Xor(states[i], m[16 * i..16 * i + 16]))
  }

  /** The last state, the padded rest of the message from `start` and the subkey, mixed. */
  ghost predicate Mixed(m: Bytes, start: nat, x: Block, k: Block, last: Block) {
    forall j :: 0 <= j < 16 ==> last[j] == x[j] ^ PaddedByte(m, start + j) ^ k[j]
  }

  /** `t` is the MAC of section 2.4, over the bytes of the message: the first subkey is for messages that end with a
      complete block, the second for all others. */
  ghost predicate MacOver(cipher: Cipher, m: Bytes, states: seq<Block>, k1: Block, k2: Block, last: Block, t: Block) {
    && Chained(cipher, m, states)
    && Doubled(cipher(ZERO), k1) && Doubled(k1, k2)
    && Mixed(m, 16 * (|states| - 1), states[|states| - 1], if |m| == 16 * |states| then k1 else k2, last)
    && t == cipher(last)
  }

  lemma PadAt(r: Bytes, j: nat)
    requires |r| < 16 && j < 16
    ensures Pad(r)[j] == PaddedByte(r, j)
  {
  }

  lemma LastBlockByte(m: Bytes, start: nat, j: nat)
    requires |m| == 0 == start || start < |m| <= start + 16
    requires start % 16 == 0 && j < 16
    ensures var p := PadMessage(m); p.blocks[|p.blocks| - 1][j] == PaddedByte(m, start + j)
  {
    LastBlockAt(m, start);
    if |m| < start + 16 { PadAt(m[start..], j); }
  }

  lemma XorAssoc(a: bv8, b: bv8, c: bv8)
    ensures XorByte(a, XorByte(b, c)) == a ^ b ^ c
  {
  }

  /** The states before each block of a message. */
  lemma StatesChained(cipher: Cipher, m: Bytes) returns (states: seq<Block>)
    ensures Chained(cipher, m, states) && |states| == |PadMessage(m).blocks|
    ensures states[|states| - 1] == Chain(cipher, ZERO, PadMessage(m).blocks[..|states| - 1])
  {
    var blocks := PadMessage(m).blocks;
    states := seq(|blocks|, i requires 0 <= i < |blocks| => Chain(cipher, ZERO, blocks[..i]));
    PadMessageShape(m);
    TailBounds(|m|, |blocks|, 16 * (|blocks| - 1));
    forall i | 0 <= i < |states| - 1
      ensures 16 * i + 16 <= |m| && states[i + 1] == cipher(Xor(states[i], m[16 * i..16 * i + 16])) {
      FullBlockAt(m, i);
      ChainNext(cipher, blocks, i);
    }
  }

  lemma LastMixed(m: Bytes, start: nat, x: Block, k: Block)
    requires |m| == 0 == start || start < |m| <= start + 16
    requires start % 16 == 0
    ensures var blocks := PadMessage(m).blocks; Mixed(m, start, x, k, Xor(x, Xor(blocks[|blocks| - 1], k)))
  {
    var blocks := PadMessage(m).blocks;
    var b := blocks[|blocks| - 1];
    forall j | 0 <= j < 16 ensures Xor(x, Xor(b, k))[j] == x[j] ^ PaddedByte(m, start + j) ^ k[j] {
      LastBlockByte(m, start, j);
      XorAssoc(x[j], b[j], k[j]);
    }
  }

  lemma LastBounds(m: Bytes)
    ensures var n, start := |PadMessage(m).blocks|, 16 * (|PadMessage(m).blocks| - 1);
      && start % 16 == 0 && (|m| == 0 == start || start < |m| <= start + 16)
      && (PadMessage(m).complete <==> |m| == 16 * n)
  {
    PadMessageShape(m);
    TailBounds(|m|, |PadMessage(m).blocks|, 16 * (|PadMessage(m).blocks| - 1));
  }

  /** The MAC of every message is the one of the RFC, down to the message's bytes. */
  lemma MacIs(cipher: Cipher, m: Bytes) returns (states: seq<Block>, k1: Block, k2: Block, last: Block)
    ensures MacOver(cipher, m, states, k1, k2, last, Mac(cipher, PadMessage(m)))
  {
    var p := PadMessage(m);
    var n := |p.blocks|;
    k1, k2 := Subkey1(cipher), Subkey2(cipher);
    DoubleIs(cipher(ZERO));
    DoubleIs(k1);
    LastBounds(m);
    states := StatesChained(cipher, m);
    var k := if p.complete then k1 else k2;
    last := Xor(states[n - 1], Xor(p.blocks[n - 1], k));
    LastMixed(m, 16 * (n - 1), states[n - 1], k);
    MacOfParts(cipher, p, states[n - 1], Xor(p.blocks[n - 1], k));
  }

  // ---- The buffer code ----

  method AesEcbEncrypt(cipher: Cipher, block16: array<bv8>) returns (out: array<bv8>)
    requires block16.Length == 16
    ensures fresh(out) && out[..] == cipher(block16[..])
  {
    var result := cipher(block16[..]);
    out := new bv8[16](i requires 0 <= i < 16 => result[i]);
    assert out[..] == result;
  }

  method LeftShiftOneBit(input: array<bv8>) returns (out: array<bv8>)
    requires input.Length == 16
    ensures fresh(out) && out[..] == LeftShift(input[..])
  {
    ghost var x := input[..];
    out := new bv8[16];
    var carry: bv8 := 0;
    var i := 15;
    while i >= 0
      invariant -1 <= i <= 15 && input[..] == x
      invariant carry == if i < 15 then Msb(x[i + 1]) else 0
      invariant forall k :: i < k < 16 ==> out[k] == LeftShift(x)[k]
    {
      var b := input[i];
      out[i] := ((b << 1) & 0xFF) | carry;
      MaskIsMsb(b, carry);
      assert out[i] == LeftShift(x)[i];
      carry := if b & 0x80 != 0 then 1 else 0;
      i := i - 1;
    }
    assert out[..] == LeftShift(x);
  }

  lemma MaskIsMsb(b: bv8, c: bv8)
    ensures ((b << 1) & 0xFF) | c == ShiftIn(b, c)
    ensures (if b & 0x80 != 0 then 1 else 0) == Msb(b)
  {
  }

  method XorInto(out: array<bv8>, a: array<bv8>, b: array<bv8>)
    requires out.Length == 16 && a.Length == 16 && b.Length == 16
    modifies out
    ensures out[..] == Xor(old(a[..]), old(b[..]))
  {
    for i := 0 to 16
      invariant forall k :: 0 <= k < i ==> out[k] == XorByte(old(a[k]), old(b[k]))
      invariant forall k :: i <= k < 16 ==> a[k] == old(a[k]) && b[k] == old(b[k])
    {
      out[i] := a[i] ^ b[i];
    }
  }

  method CmacSubkeys(l: array<bv8>) returns (k1: array<bv8>, k2: array<bv8>)
    requires l.Length == 16
    ensures fresh(k1) && fresh(k2)
    ensures k1[..] == Double(l[..]) && k2[..] == Double(Double(l[..]))
  {
    k1 := ShiftAndReduce(l);
    k2 := ShiftAndReduce(k1);
  }

  method ShiftAndReduce(l: array<bv8>) returns (k: array<bv8>)
    requires l.Length == 16
    ensures fresh(k) && k[..] == Double(l[..])
  {
    k := LeftShiftOneBit(l);
    ghost var y := k[..];
    MaskIsMsb(l[0], 0);
    LastByteIsRb(l[..]);
    if l[0] & 0x80 != 0 {
      k[15] := k[15] ^ 0x87;
      assert k[..] == y[15 := XorByte(y[15], 0x87)];
    }
  }

  /** Changing only the last byte is what adding Rb amounts to. */
  lemma LastByteIsRb(x: Block)
    ensures Xor(LeftShift(x), RB) == LeftShift(x)[15 := XorByte(LeftShift(x)[15], 0x87)]
    ensures Msb(x[0]) <= 1
  {
    var y := LeftShift(x);
    forall i | 0 <= i < 16 { LowBits(y[i]); }
    ShiftsUndo(x[0], 0, 0);
  }

  method AesCmac(cipher: Cipher, message: array<bv8>) returns (mac: array<bv8>)
    ensures fresh(mac) && mac[..] == Mac(cipher, PadMessage(message[..]))
  {
    var zero := ZeroBlock();
    var l := AesEcbEncrypt(cipher, zero);
    var k1, k2 := CmacSubkeys(l);
    assert k1[..] == Subkey1(cipher) && k2[..] == Subkey2(cipher);
    var blockCount := if message.Length == 0 then 1 else (message.Length + 15) / 16;
    var mLast := MaskedLastBlock(message, blockCount, k1, k2);
    var x := ChainBlocks(cipher, message, blockCount);
    MacOfParts(cipher, PadMessage(message[..]), x[..], mLast[..]);
    mac := LastCall(cipher, x, mLast);
  }

  method LastCall(cipher: Cipher, x: array<bv8>, mLast: array<bv8>) returns (mac: array<bv8>)
    requires x.Length == 16 && mLast.Length == 16
    ensures fresh(mac) && mac[..] == cipher(Xor(x[..], mLast[..]))
  {
    var mixed := ZeroBlock();
    XorInto(mixed, x, mLast);
    mac := AesEcbEncrypt(cipher, mixed);
  }

  lemma MacOfParts(cipher: Cipher, p: Padded, x: Block, mLast: Block)
    requires p.blocks != [] && x == Chain(cipher, ZERO, p.blocks[..|p.blocks| - 1])
    requires mLast == Xor(p.blocks[|p.blocks| - 1], if p.complete then Subkey1(cipher) else Subkey2(cipher))
    ensures Mac(cipher, p) == cipher(Xor(x, mLast))
  {
  }

  /** `Buffer.alloc(16, 0)`. */
  method ZeroBlock() returns (out: array<bv8>)
    ensures fresh(out) && out[..] == ZERO
  {
    out := new bv8[16](i => ZeroByte());
    assert out[..] == ZERO;
  }

  /** A full block of the message, copied out. */
  method CopyBlock(message: array<bv8>, start: nat) returns (block: array<bv8>)
    requires start + 16 <= message.Length
    ensures fresh(block) && block[..] == message[start..start + 16]
  {
    block := ZeroBlock();
    forall k | 0 <= k < 16 { block[k] := message[start + k]; }
  }

  /** The rest of the message in a zero block, followed by the 0x80 byte. */
  method PadTailBlock(message: array<bv8>, start: nat) returns (last: array<bv8>)
    requires start <= message.Length < start + 16
    ensures fresh(last) && last[..] == Pad(message[start..])
  {
    last := ZeroBlock();
    var remain := message.Length - start;
    forall k | 0 <= k < remain { last[k] := message[start + k]; }
    last[remain] := 0x80;
  }

  lemma TailBounds(length: nat, blockCount: nat, start: nat)
    requires blockCount == BlockCount(length) && start == (blockCount - 1) * 16
    ensures start % 16 == 0 && (length == 0 == start || start < length <= start + 16)
    ensures length > 0 && length % 16 == 0 <==> length == start + 16
  {
  }

  /** The final block, padded when it is incomplete, under K1 or K2. */
  method MaskedLastBlock(message: array<bv8>, blockCount: nat, k1: array<bv8>, k2: array<bv8>)
      returns (mLast: array<bv8>)
    requires k1.Length == 16 && k2.Length == 16 && blockCount == BlockCount(message.Length)
    ensures fresh(mLast) && |PadMessage(message[..]).blocks| == blockCount
    ensures var p := PadMessage(message[..]);
      mLast[..] == Xor(p.blocks[blockCount - 1], if p.complete then k1[..] else k2[..])
  {
    ghost var m := message[..];
    PadMessageShape(m);
    var lastComplete := message.Length > 0 && message.Length % 16 == 0;
    var start := (blockCount - 1) * 16;
    TailBounds(message.Length, blockCount, start);
    LastBlockAt(m, start);
    mLast := ZeroBlock();
    if lastComplete {
      var last := CopyBlock(message, start);
      assert message[start..start + 16] == m[start..start + 16];
      XorInto(mLast, last, k1);
    } else {
      var last := PadTailBlock(message, start);
      assert message[start..] == m[start..];
      XorInto(mLast, last, k2);
    }
    assert message[..] == m;
  }

  /** The loop over all blocks but the last. */
  method ChainBlocks(cipher: Cipher, message: array<bv8>, blockCount: nat) returns (x: array<bv8>)
    requires blockCount == BlockCount(message.Length)
    ensures fresh(x) && |PadMessage(message[..]).blocks| == blockCount
    ensures x[..] == Chain(cipher, ZERO, PadMessage(message[..]).blocks[..blockCount - 1])
  {
    ghost var m := message[..];
    ghost var blocks := PadMessage(m).blocks;
    PadMessageShape(m);
    x := ZeroBlock();
    for i := 0 to blockCount - 1
      invariant x.Length == 16 && fresh(x) && message[..] == m
      invariant x[..] == Chain(cipher, ZERO, blocks[..i])
    {
      var block := CopyBlock(message, i * 16);
      FullBlockAt(m, i);
      var mixed := ZeroBlock();
      XorInto(mixed, x, block);
      ChainNext(cipher, blocks, i);
      x := AesEcbEncrypt(cipher, mixed);
    }
  }

  lemma ChainNext(cipher: Cipher, blocks: seq<Block>, i: nat)
    requires i < |blocks|
    ensures Chain(cipher, ZERO, blocks[..i + 1]) == cipher(Xor(Chain(cipher, ZERO, blocks[..i]), blocks[i]))
  {
    ChainAppend(cipher, ZERO, blocks[..i], blocks[i]);
    assert blocks[..i + 1] == blocks[..i] + [blocks[i]];
  }
}
