/** Decoding of a Protocol Buffers varint (core/antigravity_helper.py, `decode_protobuf_varint`).

    Python integers are unbounded, so the bitwise operators are defined on naturals, bit by bit. */
module Varint {
  import opened Arithmetic

  function BitOr(a: nat, b: nat): nat
    decreases a + b
  {
    if a == 0 && b == 0 then 0
    else 2 * BitOr(a / 2, b / 2) + if a % 2 == 1 || b % 2 == 1 then 1 else 0
  }

  function BitAnd(a: nat, b: nat): nat
    decreases a + b
  {
    if a == 0 && b == 0 then 0
    else 2 * BitAnd(a / 2, b / 2) + if a % 2 == 1 && b % 2 == 1 then 1 else 0
  }

  function Pow2(k: nat): (p: nat)
    ensures p >= 1
  {
    if k == 0 then 1 else 2 * Pow2(k - 1)
  }

  function Shifted(x: nat, k: nat): nat { x * Pow2(k) }

  datatype Decoded = Decoded(value: nat, index: nat)

  predicate IsByte(b: nat) { b < 256 }

  /** The loop of the decoder, from a byte index on. */
  function DecodeFrom(data: seq<nat>, index: nat, result: nat, shift: nat): Decoded
    decreases |data| - index
  {
    if index >= |data| then Decoded(result, index)
    else
      var b := data[index];
      var result' := BitOr(result, Shifted(BitAnd(b, 0x7F), shift));
      if BitAnd(b, 0x80) == 0 then Decoded(result', index + 1) else DecodeFrom(data, index + 1, result', shift + 7)
  }

  /** Base 128 varints: seven bits a byte, least significant group first, the high bit set on every
      byte but the last. */
  function Encode(n: nat): seq<nat> {
    if n < 128 then [n] else [n % 128 + 128] + Encode(n / 128)
  }

  // ---------------------------------------------------------------- the operators

  /** `|` acts as `+` when the right operand only has bits above those of the left one. */
  lemma {:induction false} OrIsPlus(a: nat, x: nat, k: nat)
    requires a < Pow2(k)
    ensures BitOr(a, Shifted(x, k)) == a + Shifted(x, k)
  {
    if k == 0 {
      OrWithZero(x);
    } else {
      var half := Shifted(x, k - 1);
      assert Shifted(x, k) == 2 * half by { TimesTwo(x, Pow2(k - 1)); }
      OrIsPlus(a / 2, x, k - 1);
      assert a == 2 * (a / 2) + a % 2;
      assert (2 * half) / 2 == half && (2 * half) % 2 == 0;
    }
  }

  lemma TimesTwo(x: nat, p: nat)
    ensures x * (2 * p) == 2 * (x * p)
  {
  }

  lemma {:induction false} OrWithZero(x: nat)
    ensures BitOr(0, x) == x
  {
    if x > 0 { OrWithZero(x / 2); }
  }

  /** Masking with k ones keeps the k low bits. */
  lemma {:induction false} MaskKeepsLowBits(b: nat, k: nat)
    ensures BitAnd(b, Pow2(k) - 1) == b % Pow2(k)
  {
    if k == 0 {
      AndWithZero(b);
    } else {
      var m := Pow2(k) - 1;
      assert m / 2 == Pow2(k - 1) - 1 && m % 2 == 1;
      MaskKeepsLowBits(b / 2, k - 1);
      HalveMod(b, Pow2(k - 1));
    }
  }

  lemma HalveMod(b: nat, p: nat)
    requires p >= 1
    ensures b % (2 * p) == 2 * ((b / 2) % p) + b % 2
  {
    var q, r := (b / 2) / p, (b / 2) % p;
    assert b / 2 == q * p + r;
    assert b == q * (2 * p) + (2 * r + b % 2) by { TimesTwo(q, p); }
    DivModOf(q, 2 * p, 2 * r + b % 2);
  }

  lemma {:induction false} AndWithZero(b: nat)
    ensures BitAnd(b, 0) == 0
  {
    if b > 0 { AndWithZero(b / 2); }
  }

  /** On a byte: `b & 0x7F` is the group and `b & 0x80` tells whether another byte follows. */
  lemma ByteMasks(b: nat)
    requires IsByte(b)
    ensures BitAnd(b, 0x7F) == b % 128
    ensures BitAnd(b, 0x80) == 0 <==> b < 128
  {
    SevenBits();
    MaskKeepsLowBits(b, 7);
    HighBit(b);
  }

  lemma SevenBits()
    ensures Pow2(7) == 128
  {
    assert Pow2(1) == 2 && Pow2(2) == 4 && Pow2(3) == 8;
    assert Pow2(4) == 16 && Pow2(5) == 32 && Pow2(6) == 64;
  }

  lemma {:induction false} AndWithPower(b: nat, k: nat)
    requires b < 2 * Pow2(k)
    ensures BitAnd(b, Pow2(k)) == 0 <==> b < Pow2(k)
  {
    if k == 0 {
      assert BitAnd(b, 1) == 2 * BitAnd(b / 2, 0) + if b % 2 == 1 then 1 else 0;
      AndWithZero(b / 2);
    } else {
      var half := Pow2(k - 1);
      assert Pow2(k) / 2 == half && Pow2(k) % 2 == 0;
      AndWithPower(b / 2, k - 1);
    }
  }

  lemma HighBit(b: nat)
    requires IsByte(b)
    ensures BitAnd(b, 0x80) == 0 <==> b < 128
  {
    SevenBits();
    AndWithPower(b, 7);
  }

  // ---------------------------------------------------------------- the round trip

  lemma {:induction false} EncodeGivesBytes(n: nat)
    ensures Encode(n) != [] && forall i :: 0 <= i < |Encode(n)| ==> IsByte(Encode(n)[i])
  {
    if n >= 128 { EncodeGivesBytes(n / 128); }
  }

  lemma {:induction false} PowOfSum(a: nat, b: nat)
    ensures Pow2(a + b) == Pow2(a) * Pow2(b)
  {
    if b > 0 {
      PowOfSum(a, b - 1);
      TimesTwo(Pow2(a), Pow2(b - 1));
    }
  }

  /** Seven more bits: the group joins what was read below it. */
  lemma GroupJoins(n: nat, result: nat, shift: nat)
    requires result < Pow2(shift)
    ensures var result' := BitOr(result, Shifted(n % 128, shift));
      && result' == result + Shifted(n % 128, shift)
      && result' < Pow2(shift + 7)
      && result' + Shifted(n / 128, shift + 7) == result + Shifted(n, shift)
  {
    var p := Pow2(shift);
    OrIsPlus(result, n % 128, shift);
    PowOfSum(shift, 7);
    SevenBits();
    assert n == (n / 128) * 128 + n % 128;
    SplitProduct(n / 128, n % 128, p);
    AtMostProduct(n % 128, p);
  }

  lemma SplitProduct(q: nat, r: nat, p: nat)
    ensures (q * 128 + r) * p == r * p + q * (p * 128)
  {
    assert (q * 128 + r) * p == (q * 128) * p + r * p;
    assert (q * 128) * p == q * (128 * p);
  }

  lemma AtMostProduct(r: nat, p: nat)
    requires r < 128
    ensures r * p + p <= p * 128
  {
    assert (r + 1) * p <= 128 * p;
  }

  predicate EncodedAt(data: seq<nat>, i: nat, n: nat) {
    i + |Encode(n)| <= |data| && data[i..i+|Encode(n)|] == Encode(n)
  }

  lemma EncodedTail(data: seq<nat>, i: nat, n: nat)
    requires EncodedAt(data, i, n) && n >= 128
    ensures i < |data| && data[i] == n % 128 + 128 && EncodedAt(data, i + 1, n / 128)
  {
    var e := Encode(n);
    assert data[i..i+|e|][0] == e[0];
    assert data[i..i+|e|][1..] == data[i+1..i+|e|];
    assert e[1..] == Encode(n / 128);
  }

  lemma GroupByte(n: nat)
    ensures var b := n % 128 + 128; IsByte(b) && BitAnd(b, 0x7F) == n % 128 && BitAnd(b, 0x80) != 0
  {
    ByteMasks(n % 128 + 128);
  }

  /** One step of the loop on a byte that is followed by another. */
  lemma DecodeGroup(data: seq<nat>, i: nat, n: nat, result: nat, shift: nat)
    requires i < |data| && data[i] == n % 128 + 128
    ensures DecodeFrom(data, i, result, shift)
      == DecodeFrom(data, i + 1, BitOr(result, Shifted(n % 128, shift)), shift + 7)
  {
    GroupByte(n);
  }

  lemma DecodeLast(data: seq<nat>, i: nat, result: nat, shift: nat)
    requires i < |data| && data[i] < 128
    ensures DecodeFrom(data, i, result, shift) == Decoded(BitOr(result, Shifted(data[i], shift)), i + 1)
  {
    ByteMasks(data[i]);
  }

  lemma {:induction false} DecodeOfEncode(data: seq<nat>, i: nat, n: nat, result: nat, shift: nat)
    requires EncodedAt(data, i, n) && result < Pow2(shift)
    ensures DecodeFrom(data, i, result, shift) == Decoded(result + Shifted(n, shift), i + |Encode(n)|)
    decreases n
  {
    if n < 128 {
      assert data[i..i+1][0] == data[i] == n;
      DecodeLast(data, i, result, shift);
      OrIsPlus(result, n, shift);
    } else {
      EncodedTail(data, i, n);
      DecodeGroup(data, i, n, result, shift);
      GroupJoins(n, result, shift);
      DecodeOfEncode(data, i + 1, n / 128, BitOr(result, Shifted(n % 128, shift)), shift + 7);
    }
  }

  /** The varint of n is made of bytes, and decoding it, wherever it stands and whatever follows it,
      gives n and the index of the byte after it. */
  lemma RoundTrip(before: seq<nat>, n: nat, after: seq<nat>)
    ensures Encode(n) != [] && forall i :: 0 <= i < |Encode(n)| ==> IsByte(Encode(n)[i])
    ensures DecodeFrom(before + Encode(n) + after, |before|, 0, 0) == Decoded(n, |before| + |Encode(n)|)
  {
    EncodeGivesBytes(n);
    var data := before + Encode(n) + after;
    assert data[|before|..|before|+|Encode(n)|] == Encode(n);
    DecodeOfEncode(data, |before|, n, 0, 0);
  }

  predicate CutAt(data: seq<nat>, i: nat, n: nat, k: nat) {
    k < |Encode(n)| && i + k == |data| && data[i..] == Encode(n)[..k]
  }

  lemma CutTail(data: seq<nat>, i: nat, n: nat, k: nat)
    requires CutAt(data, i, n, k) && k > 0
    ensures n >= 128 && data[i] == n % 128 + 128 && CutAt(data, i + 1, n / 128, k - 1)
  {
    var e := Encode(n);
    assert data[i] == data[i..][0] == e[0];
    assert data[i+1..] == data[i..][1..] == e[..k][1..] == e[1..][..k-1];
  }

  /** Input cut in the middle of a varint is not refused: the groups that are there come out, the
      number modulo a power of 128. */
  lemma {:induction false} CutInputLosesHighGroups(data: seq<nat>, i: nat, n: nat, k: nat, result: nat, shift: nat)
    requires CutAt(data, i, n, k) && result < Pow2(shift)
    ensures DecodeFrom(data, i, result, shift) == Decoded(result + Shifted(n % Pow2(7 * k), shift), |data|)
    decreases k
  {
    if k == 0 {
      assert Pow2(0) == 1 && n % 1 == 0 && Shifted(0, shift) == 0;
    } else {
      CutTail(data, i, n, k);
      DecodeGroup(data, i, n, result, shift);
      GroupsOfRemainder(n, k);
      GroupJoins(n % Pow2(7 * k), result, shift);
      CutInputLosesHighGroups(data, i + 1, n / 128, k - 1, BitOr(result, Shifted(n % 128, shift)), shift + 7);
    }
  }

  lemma Regroup(n: nat, p: nat, q: nat, r: nat, low: nat)
    requires n == (q * p + r) * 128 + low && r < p && low < 128
    ensures n % (128 * p) == r * 128 + low
  {
    assert (q * p) * 128 == q * (128 * p);
    DivModOf(q, 128 * p, r * 128 + low);
  }

  lemma GroupsOf(n: nat, p: nat)
    requires p >= 1
    ensures (n % (128 * p)) % 128 == n % 128 && (n % (128 * p)) / 128 == (n / 128) % p
  {
    var high, low := n / 128, n % 128;
    var q, r := high / p, high % p;
    Regroup(n, p, q, r, low);
    DivModOf(r, 128, low);
  }

  lemma GroupsOfRemainder(n: nat, k: nat)
    requires k >= 1
    ensures var m := n % Pow2(7 * k); m % 128 == n % 128 && m / 128 == (n / 128) % Pow2(7 * (k - 1))
  {
    var p := Pow2(7 * (k - 1));
    PowOfSum(7, 7 * (k - 1));
    SevenBits();
    assert Pow2(7 * k) == 128 * p;
    GroupsOf(n, p);
  }

  // ---------------------------------------------------------------- the loop

  method DecodeProtobufVarint(data: seq<nat>, start: nat) returns (result: nat, index: nat)
    requires start <= |data|
    ensures Decoded(result, index) == DecodeFrom(data, start, 0, 0)
  {
    result, index := 0, start;
    var shift := 0;
    while index < |data|
      invariant start <= index <= |data|
      invariant DecodeFrom(data, index, result, shift) == DecodeFrom(data, start, 0, 0)
    {
      var b := data[index];
      index := index + 1;
      result := BitOr(result, Shifted(BitAnd(b, 0x7F), shift));
      if BitAnd(b, 0x80) == 0 { return; }
      shift := shift + 7;
    }
  }
}
