/** UTF-8 as `Buffer.toString()` reads it: ill-formed input is replaced, not rejected (Unicode Standard, section 3.9;
    WHATWG Encoding Standard, section 8.1.1). */
module Utf8 {
  import opened Common

  newtype byte = x: int | 0 <= x < 256

  const REPLACEMENT: char := '\U{FFFD}'

  function EncodeChar(c: char): (b: seq<byte>)
    ensures 1 <= |b| <= 4
  {
    var k := c as int;
    if k < 0x80 then [k as byte]
    else if k < 0x800 then [(0xC0 + k / 0x40) as byte, (0x80 + k % 0x40) as byte]
    else if k < 0x1_0000 then
      [(0xE0 + k / 0x1000) as byte, (0x80 + k / 0x40 % 0x40) as byte, (0x80 + k % 0x40) as byte]
    else
      [(0xF0 + k / 0x4_0000) as byte, (0x80 + k / 0x1000 % 0x40) as byte,
       (0x80 + k / 0x40 % 0x40) as byte, (0x80 + k % 0x40) as byte]
  }

  function Encode(s: string): seq<byte> {
    if s == "" then [] else EncodeChar(s[0]) + Encode(s[1..])
  }

  predicate IsContinuation(b: byte) {
    0x80 <= b < 0xC0
  }

  /** How many continuation bytes a lead byte announces; 0 for bytes that lead nothing. */
  function Announced(lead: byte): nat {
    if 0xC2 <= lead < 0xE0 then 1
    else if 0xE0 <= lead < 0xF0 then 2
    else if 0xF0 <= lead < 0xF5 then 3
    else 0
  }

  /** Overlong forms, surrogates and values past the last code point are excluded by the second byte. */
  predicate SecondFits(lead: byte, b: byte) {
    && (if lead == 0xE0 then 0xA0 else if lead == 0xF0 then 0x90 else 0x80) <= b
    && b <= (if lead == 0xED then 0x9F else if lead == 0xF4 then 0x8F else 0xBF)
  }

  /** The length of the longest prefix of `b` that begins a well-formed character. */
  function Begun(b: seq<byte>): (n: nat)
    requires b != [] && Announced(b[0]) > 0
    ensures 1 <= n <= |b| && n <= Announced(b[0]) + 1
    ensures 2 <= n ==> SecondFits(b[0], b[1])
    ensures 3 <= n ==> IsContinuation(b[2])
    ensures 4 <= n ==> IsContinuation(b[3])
  {
    var need := Announced(b[0]);
    if |b| < 2 || !SecondFits(b[0], b[1]) then 1
    else if need < 2 || |b| < 3 || !IsContinuation(b[2]) then 2
    else if need < 3 || |b| < 4 || !IsContinuation(b[3]) then 3
    else 4
  }

  function Scalar(b: seq<byte>): char
    requires b != [] && Announced(b[0]) > 0 && |b| == Announced(b[0]) + 1 == Begun(b)
  {
    if |b| == 2 then ((b[0] as int - 0xC0) * 0x40 + (b[1] as int - 0x80)) as char
    else if |b| == 3 then
      ((b[0] as int - 0xE0) * 0x1000 + (b[1] as int - 0x80) * 0x40 + (b[2] as int - 0x80)) as char
    else
      ((b[0] as int - 0xF0) * 0x4_0000 + (b[1] as int - 0x80) * 0x1000
       + (b[2] as int - 0x80) * 0x40 + (b[3] as int - 0x80)) as char
  }

  /** `Buffer.toString('utf-8')`: every maximal ill-formed piece becomes one replacement character. */
  function Decode(b: seq<byte>): string
    decreases |b|
  {
    if b == [] then ""
    else if b[0] < 0x80 then [b[0] as char] + Decode(b[1..])
    else if Announced(b[0]) == 0 then [REPLACEMENT] + Decode(b[1..])
    else
      var n := Begun(b);
      if n == Announced(b[0]) + 1 then [Scalar(b[..n])] + Decode(b[n..])
      else [REPLACEMENT] + Decode(b[n..])
  }

  /** The base-64 digits of a code point. */
  lemma Digits(k: nat)
    requires k < 0x11_0000
    ensures k == k / 0x1000 * 0x1000 + k / 0x40 % 0x40 * 0x40 + k % 0x40
    ensures k / 0x1000 == k / 0x4_0000 * 0x40 + k / 0x1000 % 0x40
  {
  }

  ghost predicate WellFormed(c: char, e: seq<byte>) {
    && e != []
    && (|e| == 1 ==> e[0] < 0x80 && e[0] as char == c)
    && (|e| > 1 ==>
          && e[0] >= 0x80 && Announced(e[0]) == |e| - 1 && SecondFits(e[0], e[1])
          && Begun(e) == |e| && Scalar(e) == c)
    && (forall k | 1 <= k < |e| :: IsContinuation(e[k]))
  }

  lemma ThreeBytes(c: char)
    requires 0x800 <= c as int < 0x1_0000
    ensures WellFormed(c, EncodeChar(c))
  {
  }

  lemma FourBytes(c: char)
    requires 0x1_0000 <= c as int
    ensures WellFormed(c, EncodeChar(c))
  {
    var k := c as int;
    Digits(k);
    var e := EncodeChar(c);
    var w, x, y, z := k / 0x4_0000, k / 0x1000 % 0x40, k / 0x40 % 0x40, k % 0x40;
    assert e[0] as int == 0xF0 + w && e[1] as int == 0x80 + x && e[2] as int == 0x80 + y && e[3] as int == 0x80 + z;
    assert w == 0 ==> x >= 0x10;
    assert w == 4 ==> x < 0x10;
    assert Begun(e) == 4;
  }

  lemma EncodedCharShape(c: char)
    ensures WellFormed(c, EncodeChar(c))
    ensures |EncodeChar(c)| == 1 <==> c as int < 0x80
  {
    var k := c as int;
    Digits(k);
    if 0x800 <= k < 0x1_0000 {
      ThreeBytes(c);
    } else if 0x1_0000 <= k {
      FourBytes(c);
    }
  }

  lemma DecodeWholeChar(c: char, rest: seq<byte>)
    ensures Decode(EncodeChar(c) + rest) == [c] + Decode(rest)
  {
    EncodedCharShape(c);
    var e := EncodeChar(c);
    var b := e + rest;
    assert b[|e|..] == rest && b[..|e|] == e;
    if |e| > 1 {
      assert Begun(b) == |e|;
    }
  }

  /** A character cut short at the end of a chunk reads as one replacement. */
  lemma DecodeCutChar(c: char, n: nat)
    requires 0 < n < |EncodeChar(c)|
    ensures Decode(EncodeChar(c)[..n]) == [REPLACEMENT]
  {
    EncodedCharShape(c);
    var b := EncodeChar(c)[..n];
    assert Begun(b) == n;
    assert b[n..] == [];
  }

  /** The rest of a cut character reads as one replacement for each of its bytes. */
  lemma DecodeStrayByte(b: byte, rest: seq<byte>)
    requires IsContinuation(b)
    ensures Decode([b] + rest) == [REPLACEMENT] + Decode(rest)
  {
  }

  /** Decoding undoes encoding, and what follows is decoded on its own. */
  lemma {:induction false} DecodeEncode(s: string, rest: seq<byte>)
    ensures Decode(Encode(s) + rest) == s + Decode(rest)
  {
    if s == "" {
      assert Encode(s) + rest == rest;
    } else {
      assert Encode(s) + rest == EncodeChar(s[0]) + (Encode(s[1..]) + rest);
      DecodeWholeChar(s[0], Encode(s[1..]) + rest);
      DecodeEncode(s[1..], rest);
    }
  }

  lemma {:induction false} EncodeConcat(s: string, t: string)
    ensures Encode(s + t) == Encode(s) + Encode(t)
  {
    if s == "" {
      assert s + t == t;
    } else {
      assert (s + t)[1..] == s[1..] + t;
      EncodeConcat(s[1..], t);
    }
  }

  /** What the bytes up to the first that does not continue a character read as. */
  function Lead(b: seq<byte>): char
    requires b != [] && Announced(b[0]) > 0
  {
    if Begun(b) == Announced(b[0]) + 1 then Scalar(b[..Begun(b)]) else REPLACEMENT
  }

  lemma DecodeLead(b: seq<byte>)
    requires b != [] && Announced(b[0]) > 0
    ensures Decode(b) == [Lead(b)] + Decode(b[Begun(b)..])
  {
    assert b[0] >= 0x80;
  }

  lemma LeadAtAscii(a: seq<byte>, b: seq<byte>)
    requires a != [] && Announced(a[0]) > 0 && b != [] && b[0] < 0x80
    ensures Begun(a + b) == Begun(a) && Lead(a + b) == Lead(a) && (a + b)[Begun(a)..] == a[Begun(a)..] + b
  {
    assert (a + b)[..Begun(a)] == a[..Begun(a)];
  }

  lemma DecodeShort(b: seq<byte>, c: char)
    requires b != [] && Announced(b[0]) == 0 && c == if b[0] < 0x80 then b[0] as char else REPLACEMENT
    ensures Decode(b) == [c] + Decode(b[1..])
  {
  }

  /** What `a` and `b` are decoded to apart is what they are decoded to together. */
  ghost predicate DecodeApart(a: seq<byte>, b: seq<byte>) {
    Decode(a + b) == Decode(a) + Decode(b)
  }

  lemma ShortAtAscii(a: seq<byte>, b: seq<byte>)
    requires a != [] && Announced(a[0]) == 0 && DecodeApart(a[1..], b)
    ensures DecodeApart(a, b)
  {
    var c := if a[0] < 0x80 then a[0] as char else REPLACEMENT;
    assert (a + b)[1..] == a[1..] + b;
    DecodeShort(a, c);
    DecodeShort(a + b, c);
    Regroup([c], Decode(a[1..]), Decode(b));
  }

  lemma LongAtAscii(a: seq<byte>, b: seq<byte>)
    requires a != [] && Announced(a[0]) > 0 && b != [] && b[0] < 0x80 && DecodeApart(a[Begun(a)..], b)
    ensures DecodeApart(a, b)
  {
    LeadAtAscii(a, b);
    DecodeLead(a);
    DecodeLead(a + b);
    Regroup([Lead(a)], Decode(a[Begun(a)..]), Decode(b));
  }

  /** An ASCII byte ends whatever came before it: what precedes it and what starts with it are decoded on their own. */
  lemma {:induction false} DecodeAtAscii(a: seq<byte>, b: seq<byte>)
    requires b != [] && b[0] < 0x80
    ensures DecodeApart(a, b)
    decreases |a|
  {
    if a == [] {
      assert a + b == b;
    } else if Announced(a[0]) == 0 {
      DecodeAtAscii(a[1..], b);
      ShortAtAscii(a, b);
    } else {
      DecodeAtAscii(a[Begun(a)..], b);
      LongAtAscii(a, b);
    }
  }

  // ---------------------------------------------------------------- nothing ill-formed passes

  lemma TwoByteScalar(e: seq<byte>)
    requires |e| == 2 && Announced(e[0]) == 1 && Begun(e) == 2
    ensures EncodeChar(Scalar(e)) == e
  {
    var k := Scalar(e) as int;
    assert k == (e[0] as int - 0xC0) * 0x40 + (e[1] as int - 0x80);
    assert k / 0x40 == e[0] as int - 0xC0 && k % 0x40 == e[1] as int - 0x80;
  }

  lemma ThreeByteScalar(e: seq<byte>)
    requires |e| == 3 && Announced(e[0]) == 2 && Begun(e) == 3
    ensures EncodeChar(Scalar(e)) == e
  {
    var k := Scalar(e) as int;
    var x, y, z := e[0] as int - 0xE0, e[1] as int - 0x80, e[2] as int - 0x80;
    assert k == (x * 0x40 + y) * 0x40 + z && 0 <= y < 0x40 && 0 <= z < 0x40;
    assert k / 0x40 == x * 0x40 + y && k % 0x40 == z;
    assert k / 0x40 % 0x40 == y && k / 0x1000 == x;
    assert 0x800 <= k < 0x1_0000;
  }

  lemma FourByteScalar(e: seq<byte>)
    requires |e| == 4 && Announced(e[0]) == 3 && Begun(e) == 4
    ensures EncodeChar(Scalar(e)) == e
  {
    var k := Scalar(e) as int;
    var w, x, y, z := e[0] as int - 0xF0, e[1] as int - 0x80, e[2] as int - 0x80, e[3] as int - 0x80;
    assert k == ((w * 0x40 + x) * 0x40 + y) * 0x40 + z && 0 <= x < 0x40 && 0 <= y < 0x40 && 0 <= z < 0x40;
    assert k / 0x40 == (w * 0x40 + x) * 0x40 + y && k % 0x40 == z;
    assert k / 0x40 % 0x40 == y && k / 0x1000 == w * 0x40 + x;
    assert k / 0x1000 % 0x40 == x && k / 0x4_0000 == w;
    assert 0x1_0000 <= k;
  }

  /** One character in front. */
  lemma LeadsOn(e: seq<byte>, c: char, rest: seq<byte>)
    requires EncodeChar(c) == e && Encode(Decode(rest)) == rest
    ensures Encode([c] + Decode(rest)) == e + rest
  {
    assert ([c] + Decode(rest))[1..] == Decode(rest);
  }

  lemma ScalarEncodes(e: seq<byte>)
    requires e != [] && Announced(e[0]) > 0 && |e| == Announced(e[0]) + 1 == Begun(e)
    ensures EncodeChar(Scalar(e)) == e
  {
    if |e| == 2 {
      TwoByteScalar(e);
    } else if |e| == 3 {
      ThreeByteScalar(e);
    } else {
      FourByteScalar(e);
    }
  }

  /** The first character of such bytes is whole. */
  lemma FirstIsWhole(b: seq<byte>)
    requires b != [] && b[0] >= 0x80 && REPLACEMENT !in Decode(b)
    ensures Announced(b[0]) > 0 && Begun(b) == Announced(b[0]) + 1 && Begun(b[..Begun(b)]) == Begun(b)
    ensures Decode(b) == [Scalar(b[..Begun(b)])] + Decode(b[Begun(b)..])
  {
    assert Decode(b)[0] in Decode(b);
  }

  /** Bytes that decode without a replacement are well-formed: they are the encoding of what they decode to. */
  lemma {:induction false} DecodeIsStrict(b: seq<byte>)
    requires REPLACEMENT !in Decode(b)
    ensures Encode(Decode(b)) == b
    decreases |b|, 1
  {
    if b == [] {
    } else if b[0] < 0x80 {
      DecodeIsStrict(b[1..]);
      assert EncodeChar(b[0] as char) == [b[0]];
      LeadsOn([b[0]], b[0] as char, b[1..]);
    } else {
      DecodeLonger(b);
    }
  }

  lemma {:induction false} DecodeLonger(b: seq<byte>)
    requires b != [] && b[0] >= 0x80 && REPLACEMENT !in Decode(b)
    ensures Encode(Decode(b)) == b
    decreases |b|, 0
  {
    FirstIsWhole(b);
    var n := Begun(b);
    var e, rest := b[..n], b[n..];
    DecodeIsStrict(rest);
    ScalarEncodes(e);
    LeadsOn(e, Scalar(e), rest);
    assert b == e + rest;
  }
}
