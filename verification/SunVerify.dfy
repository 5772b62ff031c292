/**
 * Verifying a SUN URL as a whole (src/BeamioSun.ts, `verifyBeamioSunUrl`): parameters, session key, MAC,
 * payload and freshness together. AES is a family of block ciphers indexed by the key.
 */
module SunVerify {
  import opened Common
  import opened SunUrl
  import Cmac
  import SunCounter

  type Bytes = Cmac.Bytes

  /** `decrypt(key, iv, data)` is AES-CBC decryption without padding; `key2Hex` is the configured key. */
  datatype Env = Env(cipher: Bytes -> Cmac.Cipher, decrypt: (Bytes, Bytes, Bytes) -> Bytes, key2Hex: string)

  // ---- Hex and bytes ----

  function DigitValue(c: char): nat {
    if '0' <= c <= '9' then c as int - '0' as int
    else if 'A' <= c <= 'F' then c as int - 'A' as int + 10
    else 0
  }

  function DigitChar(n: nat): char
    requires n < 16
  {
    "0123456789ABCDEF"[n]
  }

  /** A number stored in a byte of a buffer. */
  function ToByte(n: nat): bv8 {
    (n % 256) as bv8
  }

  function PairByte(hi: char, lo: char): bv8 {
    ToByte(16 * DigitValue(hi) + DigitValue(lo))
  }

  function HexToBytes(s: string): Bytes {
    if |s| < 2 then [] else [PairByte(s[0], s[1])] + HexToBytes(s[2..])
  }

  function BytesToHex(b: Bytes): string {
    if b == [] then "" else [DigitChar(b[0] as nat / 16), DigitChar(b[0] as nat % 16)] + BytesToHex(b[1..])
  }

  function Ascii(s: string): Bytes {
    if s == "" then [] else [ToByte(s[0] as nat)] + Ascii(s[1..])
  }

  function Reversed(b: Bytes): Bytes {
    if b == [] then [] else Reversed(b[1..]) + [b[0]]
  }

  /** `parseInt(hex, 16)`. */
  function HexNumber(s: string): nat {
    if s == "" then 0 else 16 * HexNumber(s[..|s| - 1]) + DigitValue(s[|s| - 1])
  }

  /** Counters of one length are equal as numbers exactly when they are equal as text. */
  lemma {:induction false} HexNumberInjective(a: string, b: string, n: nat)
    requires UpperHex(a, n) && UpperHex(b, n)
    ensures HexNumber(a) == HexNumber(b) <==> a == b
  {
    if n > 0 {
      var x, y := a[..n - 1], b[..n - 1];
      assert a == x + [a[n - 1]] && b == y + [b[n - 1]];
      assert IsUpperHex(a[n - 1]) && IsUpperHex(b[n - 1]);
      HexNumberInjective(x, y, n - 1);
    }
  }

  // ---- The code ----

  const ENC_SV_PREFIX: Bytes := [0xC3, 0x3C, 0x00, 0x01, 0x00, 0x80]
  const MAC_SV_PREFIX: Bytes := [0x3C, 0xC3, 0x00, 0x01, 0x00, 0x80]

  function AesCmac(env: Env, key: Bytes, message: Bytes): Cmac.Block {
    Cmac.Mac(env.cipher(key), Cmac.PadMessage(message))
  }

  function SessionKey(env: Env, key2: string, prefix: Bytes, uidHex: string, cHex: string): Bytes {
    AesCmac(env, HexToBytes(key2), prefix + HexToBytes(uidHex) + Reversed(HexToBytes(cHex)))
  }

  function TruncateMac16To8(full: Cmac.Block): Bytes {
    [full[1], full[3], full[5], full[7], full[9], full[11], full[13], full[15]]
  }

  /** The MAC that a tag with the master key would send for the covered text. */
  function ExpectedMac(env: Env, key2: string, uidHex: string, cHex: string, ascii: string): string {
    BytesToHex(TruncateMac16To8(AesCmac(env, SessionKey(env, key2, MAC_SV_PREFIX, uidHex, cHex), Ascii(ascii))))
  }

  function DecryptPayload(env: Env, key2: string, uidHex: string, cHex: string, eHex: string): Bytes {
    var key, lsb := SessionKey(env, key2, ENC_SV_PREFIX, uidHex, cHex), Reversed(HexToBytes(cHex));
    env.decrypt(key, env.cipher(key)(IvInput(lsb)), HexToBytes(eHex))
  }

  /** The counter bytes, filled up with zeros to a block. */
  function IvInput(lsb: Bytes): Cmac.Block {
    if |lsb| <= 16 then lsb + Cmac.Zeros(16 - |lsb|) else lsb[..16]
  }

  datatype Payload = Payload(withUid: bool, tagIdHex: string, version: bv8, uidMatches: bool, counterMatches: bool)

  function DecodePlainPayload(plain: Bytes, uidHex: string, cHex: string): Payload
    requires |plain| == 32
  {
    if BytesToHex(plain[..7]) == uidHex && BytesToHex(Reversed(plain[7..10])) == cHex
    then Payload(true, BytesToHex(plain[10..18]), plain[18], true, true)
    else Payload(false, BytesToHex(plain[..8]), plain[8], false, false)
  }

  datatype VerifyError = BadUid | BadE | BadC | BadM | BadKey | BadPlain

  datatype Verified = Verified(
    uidHex: string, cHex: string, eHex: string, mHex: Option<string>, expectedMacHex: string, input: MacInput,
    payload: Payload, macValid: bool, counterFresh: bool, valid: bool)

  function OrEmpty(s: Option<string>): string {
    if s.Some? then s.value else ""
  }

  /** A verified tap as a step on the counter table. */
  function TapOf(uidHex: string, cHex: string, macValid: bool, tagCheck: Option<bool>, now: int, storedAt: int):
    SunCounter.Tap {
    SunCounter.Tap(uidHex, HexNumber(cHex), macValid, tagCheck, now, storedAt)
  }

  /** What is computed once all parameters are well formed. */
  function Assess(env: Env, url: string, rows: SunCounter.Table, now: int,
                  key2: string, uidHex: string, eHex: string, cHex: string, mHex: Option<string>):
    Result<Verified, VerifyError> {
    var plain := DecryptPayload(env, key2, uidHex, cHex, eHex);
    if |plain| != 32 then Err(BadPlain)
    else
      var payload, input := DecodePlainPayload(plain, uidHex, cHex), DeriveMacInputAscii(url, uidHex, cHex, eHex);
      var expected := ExpectedMac(env, key2, uidHex, cHex, input.ascii);
      var macValid := mHex == Some(expected);
      var isFresh := SunCounter.CounterFresh(Lookup(rows, uidHex), TapOf(uidHex, cHex, macValid, None, now, now));
      Ok(Verified(uidHex, cHex, eHex, mHex, expected, input, payload, macValid, isFresh,
                  macValid && isFresh && (!payload.withUid || (payload.uidMatches && payload.counterMatches))))
  }

  function VerifyBeamioSunUrl(env: Env, url: string, rows: SunCounter.Table, now: int): Result<Verified, VerifyError> {
    var uid := NormalizeHex(OrEmpty(GetQueryParam(url, "uid")), 14);
    var e := NormalizeHex(OrEmpty(GetQueryParam(url, "e")), 64);
    var c := NormalizeHex(OrEmpty(GetQueryParam(url, "c")), 6);
    var mRaw := OrEmpty(GetQueryParam(url, "m"));
    var m := NormalizeHex(mRaw, 16);
    var key2 := NormalizeHex(env.key2Hex, 32);
    if uid.None? then Err(BadUid)
    else if e.None? then Err(BadE)
    else if c.None? then Err(BadC)
    else if mRaw != "" && m.None? then Err(BadM)
    else if key2.None? then Err(BadKey)
    else Assess(env, url, rows, now, key2.value, uid.value, e.value, c.value, if mRaw == "" then None else m)
  }

  // ---- What hex text spells ----

  const HEX := "0123456789ABCDEF"

  /** The `i`-th pair of digits of `hex` is the byte `b`. */
  predicate Denotes(hex: string, i: nat, b: bv8) {
    && 2 * i + 1 < |hex|
    && hex[2 * i] == HEX[b as nat / 16] && hex[2 * i + 1] == HEX[b as nat % 16]
  }

  ghost predicate Spells(hex: string, bytes: Bytes) {
    |hex| == 2 * |bytes| && forall i :: 0 <= i < |bytes| ==> Denotes(hex, i, bytes[i])
  }

  lemma PairOfByte(b: bv8)
    ensures DigitValue(HEX[b as nat / 16]) == b as nat / 16 && DigitValue(HEX[b as nat % 16]) == b as nat % 16
    ensures DigitChar(b as nat / 16) == HEX[b as nat / 16] && DigitChar(b as nat % 16) == HEX[b as nat % 16]
  {
    DigitOfChar(b as nat / 16);
    DigitOfChar(b as nat % 16);
  }

  lemma DigitOfChar(n: nat)
    requires n < 16
    ensures DigitValue(HEX[n]) == n && DigitChar(n) == HEX[n]
  {
  }

  lemma DigitOfUpperHex(c: char)
    requires IsUpperHex(c)
    ensures DigitValue(c) < 16 && HEX[DigitValue(c)] == c
  {
  }

  lemma ByteOfNat(n: nat)
    requires n < 256
    ensures (n as bv8) as nat == n
  {
    if n < 128 { LowByte(n); } else if n < 192 { MiddleByte(n); } else { HighByte(n); }
  }

  lemma LowByte(n: nat)
    requires n < 128
    ensures (n as bv8) as nat == n
  {
    if n < 16 {} else if n < 32 {} else if n < 48 {} else if n < 64 {}
    else if n < 80 {} else if n < 96 {} else if n < 112 {} else {}
  }

  lemma MiddleByte(n: nat)
    requires 128 <= n < 192
    ensures (n as bv8) as nat == n
  {
    if n < 136 {} else if n < 144 {} else if n < 152 {} else if n < 160 {}
    else if n < 168 {} else if n < 176 {} else if n < 184 {} else {}
  }

  lemma HighByte(n: nat)
    requires 192 <= n < 256
    ensures (n as bv8) as nat == n
  {
    if n < 200 {} else if n < 208 {} else if n < 216 {} else if n < 224 {}
    else if n < 232 {} else if n < 240 {} else if n < 248 {} else {}
  }

  lemma NatOfByte(b: bv8)
    ensures b as nat < 256 && (b as nat) as bv8 == b
  {
  }

  lemma SameByte(a: bv8, b: bv8)
    requires a as nat == b as nat
    ensures a == b
  {
    NatOfByte(a);
    NatOfByte(b);
  }

  lemma ToByteIs(n: nat)
    ensures ToByte(n) as nat == n % 256
  {
    ByteOfNat(n % 256);
  }

  lemma PairRead(x: nat, y: nat)
    requires x < 16 && y < 16
    ensures ToByte(16 * x + y) as nat / 16 == x && ToByte(16 * x + y) as nat % 16 == y
  {
    ToByteIs(16 * x + y);
    assert (16 * x + y) % 256 == 16 * x + y;
  }

  lemma PairOfDigits(a: char, c: char)
    requires IsUpperHex(a) && IsUpperHex(c)
    ensures Denotes([a, c], 0, PairByte(a, c))
  {
    var x, y := DigitValue(a), DigitValue(c);
    DigitOfUpperHex(a);
    DigitOfUpperHex(c);
    PairRead(x, y);
    DenotesPair(a, c, PairByte(a, c), x, y);
  }

  lemma DenotesPair(a: char, c: char, b: bv8, x: nat, y: nat)
    requires x < 16 && y < 16 && HEX[x] == a && HEX[y] == c
    requires b as nat / 16 == x && b as nat % 16 == y
    ensures Denotes([a, c], 0, b)
  {
  }

  lemma DenotesTail(s: string, i: nat, b: bv8)
    requires |s| >= 2
    ensures Denotes(s[2..], i, b) <==> Denotes(s, i + 1, b)
    ensures Denotes(s[..2], 0, b) <==> Denotes(s, 0, b)
  {
  }

  lemma SpellsCons(s: string, b: Bytes)
    requires |s| == 2 * |b| && b != []
    ensures Spells(s, b) <==> Denotes(s[..2], 0, b[0]) && Spells(s[2..], b[1..])
  {
    var t, r := s[2..], b[1..];
    DenotesTail(s, 0, b[0]);
    if Spells(s, b) {
      forall i | 0 <= i < |r| ensures Denotes(t, i, r[i]) { DenotesTail(s, i, r[i]); }
    }
    if Denotes(s, 0, b[0]) && Spells(t, r) {
      forall i | 0 <= i < |b| ensures Denotes(s, i, b[i]) {
        if i > 0 { DenotesTail(s, i - 1, r[i - 1]); }
      }
    }
  }

  lemma SpellsPair(s: string, x: bv8, rest: Bytes)
    requires |s| == 2 * |rest| + 2
    ensures Spells(s, [x] + rest) <==> Denotes([s[0], s[1]], 0, x) && Spells(s[2..], rest)
  {
    var b := [x] + rest;
    assert b[1..] == rest && s[..2] == [s[0], s[1]];
    SpellsCons(s, b);
  }

  /** Hex digits in pairs spell the bytes they are read as, and nothing else. */
  lemma {:induction false} HexIsRead(s: string, n: nat)
    requires UpperHex(s, 2 * n)
    ensures Spells(s, HexToBytes(s))
    decreases n
  {
    if n > 0 {
      assert s[0] in s && s[1] in s && forall c :: c in s[2..] ==> c in s;
      HexIsRead(s[2..], n - 1);
      PairOfDigits(s[0], s[1]);
      SpellsPair(s, PairByte(s[0], s[1]), HexToBytes(s[2..]));
    }
  }

  lemma PairIs(a: char, c: char, b: bv8)
    requires Denotes([a, c], 0, b)
    ensures b == PairByte(a, c)
    ensures [a, c] == [DigitChar(b as nat / 16), DigitChar(b as nat % 16)]
  {
    PairOfByte(b);
    NatOfByte(b);
    assert 16 * (b as nat / 16) + b as nat % 16 == b as nat;
    ToByteIs(b as nat);
    SameByte(ToByte(b as nat), b);
  }

  lemma ReadAndWritten(s: string, x: bv8, rest: Bytes)
    requires |s| >= 2 && Denotes([s[0], s[1]], 0, x) && rest == HexToBytes(s[2..]) && s[2..] == BytesToHex(rest)
    ensures [x] + rest == HexToBytes(s) && s == BytesToHex([x] + rest)
  {
    PairIs(s[0], s[1], x);
    assert ([x] + rest)[1..] == rest;
    assert s == [s[0], s[1]] + s[2..];
  }

  lemma {:induction false} SpellingIsUnique(s: string, b: Bytes)
    requires Spells(s, b)
    ensures b == HexToBytes(s) && s == BytesToHex(b)
    decreases |b|
  {
    if b != [] {
      assert b == [b[0]] + b[1..];
      SpellsPair(s, b[0], b[1..]);
      SpellingIsUnique(s[2..], b[1..]);
      ReadAndWritten(s, b[0], b[1..]);
    }
  }

  lemma {:induction false} HexIsWritten(b: Bytes)
    ensures Spells(BytesToHex(b), b)
  {
    if b != [] {
      HexIsWritten(b[1..]);
      PairOfByte(b[0]);
      var s := BytesToHex(b);
      assert s[2..] == BytesToHex(b[1..]) && b == [b[0]] + b[1..];
      SpellsPair(s, b[0], b[1..]);
    }
  }

  lemma WrittenIffSpelled(s: string, b: Bytes)
    ensures s == BytesToHex(b) <==> Spells(s, b)
  {
    HexIsWritten(b);
    if Spells(s, b) { SpellingIsUnique(s, b); }
  }

  lemma {:induction false} ReversedAt(b: Bytes, k: nat)
    requires k < |b|
    ensures |Reversed(b)| == |b| && Reversed(b)[k] == b[|b| - 1 - k]
  {
    if |b| > 1 { ReversedAt(b[1..], if k < |b| - 1 then k else 0); }
  }

  lemma ReversedThree(b: Bytes)
    requires |b| == 3
    ensures Reversed(b) == [b[2], b[1], b[0]]
  {
    ReversedAt(b, 0);
    ReversedAt(b, 1);
    ReversedAt(b, 2);
  }

  /** `codes` are the character codes of `text`, each as a byte. */
  ghost predicate Codes(text: string, codes: Bytes) {
    |codes| == |text| && forall i :: 0 <= i < |text| ==> codes[i] as int == text[i] as int % 256
  }

  lemma {:induction false} AsciiAt(text: string, i: nat)
    requires i < |text|
    ensures |Ascii(text)| == |text| && Ascii(text)[i] == ToByte(text[i] as nat)
  {
    if i > 0 {
      AsciiAt(text[1..], i - 1);
    } else if |text| > 1 {
      AsciiAt(text[1..], 0);
    }
  }

  lemma ByteOfCode(b: bv8, n: nat)
    ensures b == ToByte(n) <==> b as int == n % 256
  {
    ToByteIs(n);
    if b as int == n % 256 { SameByte(b, ToByte(n)); }
  }

  lemma AsciiIsCodes(text: string, codes: Bytes)
    ensures codes == Ascii(text) <==> Codes(text, codes)
  {
    var a := Ascii(text);
    forall i | 0 <= i < |text| ensures |a| == |text| && a[i] as int == text[i] as int % 256 {
      AsciiAt(text, i);
      ByteOfCode(a[i], text[i] as nat);
    }
    if Codes(text, codes) {
      forall i | 0 <= i < |text| ensures codes[i] == a[i] {
        ByteOfCode(codes[i], text[i] as nat);
        ByteOfCode(a[i], text[i] as nat);
      }
    }
  }

  // ---- What a tag with the master key sends ----

  /** The message from which a session key is made: six fixed bytes, the uid in order, the counter backwards. */
  ghost predicate SessionMessage(prefix: Bytes, uidHex: string, cHex: string, msg: Bytes) {
    && |msg| == 16 && msg[..6] == prefix
    && Spells(uidHex, msg[6..13])
    && Spells(cHex, [msg[15], msg[14], msg[13]])
  }

  /** Every second byte of the full MAC, from the second one on. */
  ghost predicate ShortMac(full: Cmac.Block, m: string) {
    |m| == 16 && forall k :: 0 <= k < 8 ==> Denotes(m, k, full[2 * k + 1])
  }

  /** `key` is the AES-CMAC under the master key of the session message with these first six bytes. */
  ghost predicate TagSession(env: Env, key2: string, prefix: Bytes, uidHex: string, cHex: string, key: Cmac.Block) {
    exists k2: Bytes, msg: Bytes ::
      && Spells(key2, k2) && SessionMessage(prefix, uidHex, cHex, msg)
      && key == Cmac.Mac(env.cipher(k2), Cmac.PadMessage(msg))
  }

  /** `m` is what a tag that knows the master key sends along with the covered text. */
  ghost predicate TagMac(env: Env, key2: string, uidHex: string, cHex: string, covered: string, m: string) {
    exists key: Cmac.Block, codes: Bytes ::
      && TagSession(env, key2, [0x3C, 0xC3, 0x00, 0x01, 0x00, 0x80], uidHex, cHex, key)
      && Codes(covered, codes)
      && ShortMac(Cmac.Mac(env.cipher(key), Cmac.PadMessage(codes)), m)
  }

  /** `plain` is what the tag encrypted: CBC under the other session key, from the encrypted counter block. */
  ghost predicate TagPlain(env: Env, key2: string, uidHex: string, cHex: string, eHex: string, plain: Bytes) {
    exists key: Cmac.Block, ctr: Cmac.Block, data: Bytes ::
      && TagSession(env, key2, [0xC3, 0x3C, 0x00, 0x01, 0x00, 0x80], uidHex, cHex, key)
      && CounterBlock(cHex, ctr) && Spells(eHex, data)
      && plain == env.decrypt(key, env.cipher(key)(ctr), data)
  }

  /** The counter backwards, then zeros. */
  ghost predicate CounterBlock(cHex: string, ctr: Cmac.Block) {
    && Spells(cHex, [ctr[2], ctr[1], ctr[0]])
    && forall i :: 3 <= i < 16 ==> ctr[i] == 0
  }

  lemma SessionMessageIs(prefix: Bytes, uidHex: string, cHex: string, msg: Bytes)
    requires |prefix| == 6 && UpperHex(uidHex, 14) && UpperHex(cHex, 6)
    ensures SessionMessage(prefix, uidHex, cHex, msg)
       <==> msg == prefix + HexToBytes(uidHex) + Reversed(HexToBytes(cHex))
  {
    var u, c := HexToBytes(uidHex), HexToBytes(cHex);
    HexIsRead(uidHex, 7);
    HexIsRead(cHex, 3);
    SessionBytes(prefix, u, c, msg);
    if |msg| == 16 {
      SpelledIffRead(uidHex, msg[6..13], 7);
      SpelledIffRead(cHex, [msg[15], msg[14], msg[13]], 3);
    }
  }

  lemma SpelledIffRead(s: string, b: Bytes, n: nat)
    requires UpperHex(s, 2 * n)
    ensures Spells(s, b) <==> b == HexToBytes(s)
  {
    HexIsRead(s, n);
    if Spells(s, b) { SpellingIsUnique(s, b); }
  }

  lemma SessionBytes(prefix: Bytes, u: Bytes, c: Bytes, msg: Bytes)
    requires |prefix| == 6 && |u| == 7 && |c| == 3
    ensures msg == prefix + u + Reversed(c)
       <==> |msg| == 16 && msg[..6] == prefix && msg[6..13] == u && [msg[15], msg[14], msg[13]] == c
  {
    ReversedThree(c);
    var r := [c[2], c[1], c[0]];
    var s := prefix + u + r;
    assert s[..6] == prefix && s[6..13] == u && s[13..] == r;
    if |msg| == 16 {
      assert msg == msg[..6] + msg[6..13] + msg[13..];
      assert msg[13..] == [msg[13], msg[14], msg[15]];
    }
  }

  lemma TagSessionIs(env: Env, key2: string, prefix: Bytes, uidHex: string, cHex: string, key: Cmac.Block)
    requires |prefix| == 6 && UpperHex(key2, 32) && UpperHex(uidHex, 14) && UpperHex(cHex, 6)
    ensures TagSession(env, key2, prefix, uidHex, cHex, key) <==> key == SessionKey(env, key2, prefix, uidHex, cHex)
  {
    var k2, msg := HexToBytes(key2), prefix + HexToBytes(uidHex) + Reversed(HexToBytes(cHex));
    HexIsRead(key2, 16);
    SessionMessageIs(prefix, uidHex, cHex, msg);
    if TagSession(env, key2, prefix, uidHex, cHex, key) {
      var k: Bytes, s: Bytes :| Spells(key2, k) && SessionMessage(prefix, uidHex, cHex, s)
        && key == Cmac.Mac(env.cipher(k), Cmac.PadMessage(s));
      SpellingIsUnique(key2, k);
      SessionMessageIs(prefix, uidHex, cHex, s);
    }
  }

  lemma ShortMacIs(full: Cmac.Block, m: string)
    ensures ShortMac(full, m) <==> m == BytesToHex(TruncateMac16To8(full))
  {
    var t := TruncateMac16To8(full);
    WrittenIffSpelled(m, t);
    forall k | 0 <= k < 8 ensures t[k] == full[2 * k + 1] {
    }
    if ShortMac(full, m) {
      forall k | 0 <= k < |t| ensures Denotes(m, k, t[k]) { assert Denotes(m, k, full[2 * k + 1]); }
    }
    if Spells(m, t) {
      forall k | 0 <= k < 8 ensures Denotes(m, k, full[2 * k + 1]) { assert Denotes(m, k, t[k]); }
    }
  }

  /** The MAC that the code computes is the one the tag sends. */
  lemma TagMacIs(env: Env, key2: string, uidHex: string, cHex: string, covered: string, m: string)
    requires UpperHex(key2, 32) && UpperHex(uidHex, 14) && UpperHex(cHex, 6)
    ensures TagMac(env, key2, uidHex, cHex, covered, m) <==> m == ExpectedMac(env, key2, uidHex, cHex, covered)
  {
    var key, codes := SessionKey(env, key2, MAC_SV_PREFIX, uidHex, cHex), Ascii(covered);
    TagSessionIs(env, key2, MAC_SV_PREFIX, uidHex, cHex, key);
    AsciiIsCodes(covered, codes);
    ShortMacIs(AesCmac(env, key, codes), m);
    if TagMac(env, key2, uidHex, cHex, covered, m) {
      var k: Cmac.Block, t: Bytes :| TagSession(env, key2, [0x3C, 0xC3, 0x00, 0x01, 0x00, 0x80], uidHex, cHex, k)
        && Codes(covered, t) && ShortMac(Cmac.Mac(env.cipher(k), Cmac.PadMessage(t)), m);
      TagSessionIs(env, key2, MAC_SV_PREFIX, uidHex, cHex, k);
      AsciiIsCodes(covered, t);
    }
  }

  lemma CounterBlockIs(cHex: string, ctr: Cmac.Block)
    requires UpperHex(cHex, 6)
    ensures CounterBlock(cHex, ctr) <==> ctr == IvInput(Reversed(HexToBytes(cHex)))
  {
    HexIsRead(cHex, 3);
    SpelledIffRead(cHex, [ctr[2], ctr[1], ctr[0]], 3);
    CounterBytes(HexToBytes(cHex), ctr);
  }

  lemma CounterBytes(c: Bytes, ctr: Cmac.Block)
    requires |c| == 3
    ensures ctr == IvInput(Reversed(c)) <==> [ctr[2], ctr[1], ctr[0]] == c && forall i :: 3 <= i < 16 ==> ctr[i] == 0
  {
    ReversedThree(c);
    var z := Cmac.Zeros(13);
    assert forall i :: 0 <= i < 13 ==> z[i] == 0;
    assert IvInput([c[2], c[1], c[0]]) == [c[2], c[1], c[0]] + z;
    if [ctr[2], ctr[1], ctr[0]] == c && forall i :: 3 <= i < 16 ==> ctr[i] == 0 {
      assert ctr[0] == c[2] && ctr[1] == c[1] && ctr[2] == c[0];
      assert ctr == [c[2], c[1], c[0]] + z;
    }
  }

  lemma TagPlainIs(env: Env, key2: string, uidHex: string, cHex: string, eHex: string, plain: Bytes)
    requires UpperHex(key2, 32) && UpperHex(uidHex, 14) && UpperHex(cHex, 6) && UpperHex(eHex, 64)
    ensures TagPlain(env, key2, uidHex, cHex, eHex, plain) <==> plain == DecryptPayload(env, key2, uidHex, cHex, eHex)
  {
    var key, ctr := SessionKey(env, key2, ENC_SV_PREFIX, uidHex, cHex), IvInput(Reversed(HexToBytes(cHex)));
    TagSessionIs(env, key2, ENC_SV_PREFIX, uidHex, cHex, key);
    CounterBlockIs(cHex, ctr);
    HexIsRead(eHex, 32);
    if TagPlain(env, key2, uidHex, cHex, eHex, plain) {
      var k: Cmac.Block, t: Cmac.Block, d: Bytes :|
        TagSession(env, key2, [0xC3, 0x3C, 0x00, 0x01, 0x00, 0x80], uidHex, cHex, k)
        && CounterBlock(cHex, t) && Spells(eHex, d) && plain == env.decrypt(k, env.cipher(k)(t), d);
      TagSessionIs(env, key2, ENC_SV_PREFIX, uidHex, cHex, k);
      CounterBlockIs(cHex, t);
      SpellingIsUnique(eHex, d);
    }
  }

  // ---- What a verdict means ----

  lemma AssessIsAcceptance(env: Env, url: string, rows: SunCounter.Table, now: int, storedAt: int,
                           key2: string, uidHex: string, eHex: string, cHex: string, mHex: Option<string>)
    requires Assess(env, url, rows, now, key2, uidHex, eHex, cHex, mHex).Ok?
    ensures var v := Assess(env, url, rows, now, key2, uidHex, eHex, cHex, mHex).value;
      && v.uidHex == uidHex && v.cHex == cHex
      && v.valid == (v.macValid && v.counterFresh)
      && v.valid == SunCounter.Accepts(rows, TapOf(uidHex, cHex, v.macValid, None, now, storedAt))
      && (v.macValid <==> v.mHex == Some(v.expectedMacHex))
  {
  }

  /** The verdict is the counter table's acceptance of the tap: the MAC decides and the counter decides, and the
      comparison with the decrypted uid and counter never rejects anything. */
  lemma ValidIsAcceptance(env: Env, url: string, rows: SunCounter.Table, now: int, storedAt: int)
    requires VerifyBeamioSunUrl(env, url, rows, now).Ok?
    ensures var v := VerifyBeamioSunUrl(env, url, rows, now).value;
      && v.valid == (v.macValid && v.counterFresh)
      && v.valid == SunCounter.Accepts(rows, TapOf(v.uidHex, v.cHex, v.macValid, None, now, storedAt))
      && (v.macValid <==> v.mHex == Some(v.expectedMacHex))
      && UpperHex(v.uidHex, 14) && UpperHex(v.cHex, 6)
  {
    var uidRaw, cRaw := OrEmpty(GetQueryParam(url, "uid")), OrEmpty(GetQueryParam(url, "c"));
    var mRaw := OrEmpty(GetQueryParam(url, "m"));
    NormalizeHexCanonical(uidRaw, 14);
    NormalizeHexCanonical(cRaw, 6);
    AssessIsAcceptance(env, url, rows, now, storedAt, NormalizeHex(env.key2Hex, 32).value,
                       NormalizeHex(uidRaw, 14).value, NormalizeHex(OrEmpty(GetQueryParam(url, "e")), 64).value,
                       NormalizeHex(cRaw, 6).value, if mRaw == "" then None else NormalizeHex(mRaw, 16));
  }

  lemma AssessVerdict(env: Env, url: string, rows: SunCounter.Table, now: int,
                      key2: string, f: SunFields, covered: string)
    requires |DecryptPayload(env, key2, f.uid, f.c, f.e)| == 32
    requires DeriveMacInputAscii(url, f.uid, f.c, f.e).ascii == covered
    ensures var r := Assess(env, url, rows, now, key2, f.uid, f.e, f.c, Some(f.m));
      && r.Ok?
      && r.value.payload == DecodePlainPayload(DecryptPayload(env, key2, f.uid, f.c, f.e), f.uid, f.c)
      && (r.value.valid <==>
            && f.m == ExpectedMac(env, key2, f.uid, f.c, covered)
            && SunCounter.CounterFresh(Lookup(rows, f.uid), TapOf(f.uid, f.c, true, None, now, now)))
  {
  }

  lemma FieldsAreCanonical(f: SunFields)
    requires ValidFields(f)
    ensures NormalizeHex(f.uid, 14) == Some(f.uid) && NormalizeHex(f.c, 6) == Some(f.c)
    ensures NormalizeHex(f.e, 64) == Some(f.e) && NormalizeHex(f.m, 16) == Some(f.m)
    ensures f.m != ""
  {
    NormalizeHexCanonical(f.uid, 14);
    NormalizeHexCanonical(f.e, 64);
    NormalizeHexCanonical(f.c, 6);
    NormalizeHexCanonical(f.m, 16);
  }

  lemma ReadCanonical(env: Env, url: string, f: SunFields, rows: SunCounter.Table, now: int)
    requires NormalizeHex(f.uid, 14) == Some(f.uid) && NormalizeHex(f.c, 6) == Some(f.c)
    requires NormalizeHex(f.e, 64) == Some(f.e) && NormalizeHex(f.m, 16) == Some(f.m)
    requires NormalizeHex(env.key2Hex, 32).Some? && f.m != ""
    requires GetQueryParam(url, "uid") == Some(f.uid) && GetQueryParam(url, "c") == Some(f.c)
    requires GetQueryParam(url, "e") == Some(f.e) && GetQueryParam(url, "m") == Some(f.m)
    ensures VerifyBeamioSunUrl(env, url, rows, now)
         == Assess(env, url, rows, now, NormalizeHex(env.key2Hex, 32).value, f.uid, f.e, f.c, Some(f.m))
  {
  }

  /** The decrypted bytes repeat the uid and, backwards, the counter of the URL. */
  ghost predicate RepeatsTap(plain: Bytes, uidHex: string, cHex: string)
    requires |plain| == 32
  {
    Spells(uidHex, plain[..7]) && Spells(cHex, [plain[9], plain[8], plain[7]])
  }

  /** Freshness in terms of the counter's three bytes. */
  predicate FreshBytes(rows: SunCounter.Table, uidHex: string, ctr: Bytes, now: int)
    requires |ctr| == 3
  {
    var n := 65536 * (ctr[0] as nat) + 256 * (ctr[1] as nat) + ctr[2] as nat;
    || uidHex !in rows
    || n > rows[uidHex].counter
    || (n == rows[uidHex].counter && now < rows[uidHex].updatedAt + 120_000)
  }

  lemma PairNumber(s: string, i: nat, b: bv8)
    requires Denotes(s, i, b)
    ensures HexNumber(s[..2 * i + 2]) == 256 * HexNumber(s[..2 * i]) + b as nat
  {
    var t := s[..2 * i + 2];
    PairOfByte(b);
    assert t == s[..2 * i] + [s[2 * i], s[2 * i + 1]];
    TwoDigits(s[..2 * i], s[2 * i], s[2 * i + 1]);
  }

  lemma TwoDigits(s: string, a: char, c: char)
    ensures HexNumber(s + [a, c]) == 256 * HexNumber(s) + 16 * DigitValue(a) + DigitValue(c)
  {
    var t := s + [a, c];
    assert t[..|s| + 1] == s + [a] && (s + [a])[..|s|] == s;
  }

  lemma CounterNumber(cHex: string, ctr: Bytes)
    requires |ctr| == 3 && Spells(cHex, ctr)
    ensures HexNumber(cHex) == 65536 * (ctr[0] as nat) + 256 * (ctr[1] as nat) + ctr[2] as nat
  {
    PairNumber(cHex, 0, ctr[0]);
    PairNumber(cHex, 1, ctr[1]);
    PairNumber(cHex, 2, ctr[2]);
    assert cHex[..0] == "" && cHex[..6] == cHex;
  }

  lemma FreshByBytes(rows: SunCounter.Table, uidHex: string, cHex: string, ctr: Bytes, now: int)
    requires |ctr| == 3 && Spells(cHex, ctr)
    ensures SunCounter.CounterFresh(Lookup(rows, uidHex), TapOf(uidHex, cHex, true, None, now, now))
       <==> FreshBytes(rows, uidHex, ctr, now)
  {
    CounterNumber(cHex, ctr);
  }

  lemma PayloadRead(plain: Bytes, uidHex: string, cHex: string)
    requires |plain| == 32
    ensures var p := DecodePlainPayload(plain, uidHex, cHex);
      && (p.withUid <==> RepeatsTap(plain, uidHex, cHex))
      && Spells(p.tagIdHex, if p.withUid then plain[10..18] else plain[..8])
      && p.version == (if p.withUid then plain[18] else plain[8])
  {
    var last := plain[7..10];
    ReversedThree(last);
    assert [last[2], last[1], last[0]] == [plain[9], plain[8], plain[7]];
    WrittenIffSpelled(uidHex, plain[..7]);
    WrittenIffSpelled(cHex, [plain[9], plain[8], plain[7]]);
    HexIsWritten(plain[10..18]);
    HexIsWritten(plain[..8]);
  }

  /** The URL a tag sends, in either layout. When what the tag encrypted is not 32 bytes it is refused. Otherwise it
      gets a verdict, which is positive exactly when `m` is the MAC that the tag makes over the covered text of this
      very URL and the counter is fresh, and the tag id and version are read off the decrypted bytes. */
  lemma TagUrlVerdict(env: Env, key2: string, prefix: string, f: SunFields, a: Arrangement,
                      rows: SunCounter.Table, now: int) returns (plain: Bytes, ctr: Bytes)
    requires SunPrefix(prefix) && ValidFields(f)
    requires NormalizeHex(env.key2Hex, 32) == Some(key2)
    ensures TagPlain(env, key2, f.uid, f.c, f.e, plain) && |ctr| == 3 && Spells(f.c, ctr)
    ensures var r := VerifyBeamioSunUrl(env, prefix + Render(Arrange(f, a)), rows, now);
      && (|plain| != 32 ==> r == Err(BadPlain))
      && (|plain| == 32 ==>
            && r.Ok?
            && (r.value.valid <==>
                  && TagMac(env, key2, f.uid, f.c, CoveredText(f, a), f.m)
                  && FreshBytes(rows, f.uid, ctr, now))
            && (r.value.payload.withUid <==> RepeatsTap(plain, f.uid, f.c))
            && Spells(r.value.payload.tagIdHex, if r.value.payload.withUid then plain[10..18] else plain[..8])
            && r.value.payload.version == if r.value.payload.withUid then plain[18] else plain[8])
  {
    var url := prefix + Render(Arrange(f, a));
    ArrangedIsPlain(f, a);
    SunFieldsReadBack(prefix, f, a);
    FieldsAreCanonical(f);
    ReadCanonical(env, url, f, rows, now);
    LayoutOf(prefix, f, a);
    NormalizeHexCanonical(env.key2Hex, 32);
    plain, ctr := DecryptPayload(env, key2, f.uid, f.c, f.e), HexToBytes(f.c);
    TagPlainIs(env, key2, f.uid, f.c, f.e, plain);
    HexIsRead(f.c, 3);
    if |plain| == 32 {
      AssessVerdict(env, url, rows, now, key2, f, CoveredText(f, a));
      TagMacIs(env, key2, f.uid, f.c, CoveredText(f, a), f.m);
      FreshByBytes(rows, f.uid, f.c, ctr, now);
      PayloadRead(plain, f.uid, f.c);
    }
  }
}
