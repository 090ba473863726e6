/** UTF-8 as in section 3 of RFC 3629, and character boundaries of encoded text. */
module Utf8 {

  type Byte = x: int | 0 <= x < 256

  function EncodeChar(c: char): (b: seq<Byte>)
    ensures 1 <= |b| <= 4 && !Continuation(b[0]) && forall i :: 1 <= i < |b| ==> Continuation(b[i])
  {
    var n := c as int;
    if n < 0x80 then [n]
    else if n < 0x800 then [0xC0 + n / 0x40, 0x80 + n % 0x40]
    else if n < 0x1_0000 then [0xE0 + n / 0x1000, 0x80 + n / 0x40 % 0x40, 0x80 + n % 0x40]
    else [0xF0 + n / 0x4_0000, 0x80 + n / 0x1000 % 0x40, 0x80 + n / 0x40 % 0x40, 0x80 + n % 0x40]
  }

  predicate Continuation(b: Byte) {
    0x80 <= b < 0xC0
  }

  function Encode(s: string): seq<Byte> {
    if s == [] then [] else Encode(s[..|s| - 1]) + EncodeChar(s[|s| - 1])
  }

  /** `str::is_char_boundary`. */
  predicate IsBoundary(bytes: seq<Byte>, i: nat) {
    i == 0 || i == |bytes| || (i < |bytes| && !Continuation(bytes[i]))
  }

  /** Length of the encoding that starts with this byte. */
  function LengthFrom(lead: Byte): nat {
    if lead < 0x80 then 1 else if lead < 0xE0 then 2 else if lead < 0xF0 then 3 else 4
  }

  function Scalar(n: int): char {
    if 0 <= n < 0xD800 || 0xE000 <= n < 0x11_0000 then n as char else '\U{FFFD}'
  }

  /** Six more bits. */
  function Shift(n: int, b: int): int {
    n * 0x40 + (b - 0x80)
  }

  /** The character whose encoding starts at `i`. */
  function DecodeAt(bytes: seq<Byte>, i: nat): char
    requires i < |bytes|
  {
    var n, lead: int := LengthFrom(bytes[i]), bytes[i];
    if i + n > |bytes| then '\U{FFFD}'
    else if n == 1 then Scalar(lead)
    else if n == 2 then Scalar(Shift(lead - 0xC0, bytes[i + 1]))
    else if n == 3 then Scalar(Shift(Shift(lead - 0xE0, bytes[i + 1]), bytes[i + 2]))
    else Scalar(Shift(Shift(Shift(lead - 0xF0, bytes[i + 1]), bytes[i + 2]), bytes[i + 3]))
  }

  lemma {:induction false} EncodeAppend(a: string, b: string)
    ensures Encode(a + b) == Encode(a) + Encode(b)
  {
    if b == [] {
      assert a + b == a;
    } else {
      var n := |b| - 1;
      assert (a + b)[..|a + b| - 1] == a + b[..n];
      EncodeAppend(a, b[..n]);
    }
  }

  lemma EncodeOne(c: char)
    ensures Encode([c]) == EncodeChar(c)
  {
    assert [c][..0] == [];
    assert [] + EncodeChar(c) == EncodeChar(c);
  }

  /** Text split at a character: what its encoding looks like there. */
  lemma EncodeSplit(a: string, c: char, b: string)
    ensures Encode(a + [c] + b) == Encode(a) + EncodeChar(c) + Encode(b)
    ensures Encode(a + [c]) == Encode(a) + EncodeChar(c)
  {
    EncodeAppend(a, [c]);
    EncodeAppend(a + [c], b);
    EncodeOne(c);
  }

  lemma ShiftBack(n: nat)
    ensures Shift(n / 0x40, 0x80 + n % 0x40) == n
    ensures n / 0x1000 == n / 0x40 / 0x40 && n / 0x4_0000 == n / 0x1000 / 0x40
  {
  }

  lemma EncodedValue(c: char)
    ensures var b, n := EncodeChar(c), c as int;
            && LengthFrom(b[0]) == |b| && Scalar(n) == c
            && (|b| == 1 ==> b[0] == n)
            && (|b| == 2 ==> Shift(b[0] as int - 0xC0, b[1]) == n)
            && (|b| == 3 ==> Shift(Shift(b[0] as int - 0xE0, b[1]), b[2]) == n)
            && (|b| == 4 ==> Shift(Shift(Shift(b[0] as int - 0xF0, b[1]), b[2]), b[3]) == n)
  {
    var n := c as int;
    ShiftBack(n);
    ShiftBack(n / 0x40);
    ShiftBack(n / 0x1000);
  }

  /** Decoding gives back the encoded character and its length, wherever it stands. */
  lemma DecodeEncoded(before: seq<Byte>, c: char, after: seq<Byte>)
    ensures var bytes := before + EncodeChar(c) + after;
            && DecodeAt(bytes, |before|) == c
            && LengthFrom(bytes[|before|]) == |EncodeChar(c)|
  {
    hide EncodeChar, Shift, Scalar, LengthFrom;
    var bytes, b, i := before + EncodeChar(c) + after, EncodeChar(c), |before|;
    EncodedValue(c);
    assert bytes[i] == b[0];
    assert |b| > 1 ==> bytes[i + 1] == b[1];
    assert |b| > 2 ==> bytes[i + 2] == b[2];
    assert |b| > 3 ==> bytes[i + 3] == b[3];
  }

  lemma PrefixIsBoundary(s: string, k: nat)
    requires k <= |s|
    ensures |Encode(s[..k])| <= |Encode(s)| && IsBoundary(Encode(s), |Encode(s[..k])|)
  {
    if k < |s| {
      assert s == s[..k] + [s[k]] + s[k + 1..];
      EncodeSplit(s[..k], s[k], s[k + 1..]);
    } else {
      assert s[..k] == s;
    }
  }

  lemma {:induction false} BoundaryIsPrefix(s: string, i: nat) returns (k: nat)
    requires IsBoundary(Encode(s), i)
    ensures k <= |s| && |Encode(s[..k])| == i
  {
    if i == 0 {
      k := 0;
    } else if i == |Encode(s)| {
      k := |s|;
      assert s[..k] == s;
    } else {
      var n := |s| - 1;
      var front := s[..n];
      assert Encode(s) == Encode(front) + EncodeChar(s[n]);
      if i < |Encode(front)| {
        assert Encode(s)[i] == Encode(front)[i];
      } else {
        assert Encode(s)[i] == EncodeChar(s[n])[i - |Encode(front)|];
      }
      k := BoundaryIsPrefix(front, i);
      assert front[..k] == s[..k];
    }
  }

  /** The offsets that are character boundaries are exactly the lengths of encoded prefixes. */
  lemma BoundaryIff(s: string, i: nat)
    ensures IsBoundary(Encode(s), i) <==> exists k :: 0 <= k <= |s| && |Encode(s[..k])| == i
  {
    if IsBoundary(Encode(s), i) {
      var k := BoundaryIsPrefix(s, i);
    }
    if k :| 0 <= k <= |s| && |Encode(s[..k])| == i {
      PrefixIsBoundary(s, k);
    }
  }

  lemma {:induction false} PrefixShorter(s: string, j: nat, k: nat)
    requires j <= k <= |s|
    ensures |Encode(s[..j])| <= |Encode(s[..k])|
    ensures j < k ==> |Encode(s[..j])| < |Encode(s[..k])|
    decreases k - j
  {
    if j < k {
      assert s[..k][..k - 1] == s[..k - 1];
      PrefixShorter(s, j, k - 1);
    }
  }

  lemma EncodeFirst(s: string)
    requires s != []
    ensures Encode(s) == EncodeChar(s[0]) + Encode(s[1..])
    ensures DecodeAt(Encode(s), 0) == s[0]
  {
    hide Encode, EncodeChar, DecodeAt, LengthFrom;
    assert s == [s[0]] + s[1..];
    EncodeAppend([s[0]], s[1..]);
    EncodeOne(s[0]);
    DecodeEncoded([], s[0], Encode(s[1..]));
    assert [] + EncodeChar(s[0]) + Encode(s[1..]) == EncodeChar(s[0]) + Encode(s[1..]);
  }

  /** Different texts have different encodings. */
  lemma {:induction false} EncodeInjective(a: string, b: string)
    requires Encode(a) == Encode(b)
    ensures a == b
  {
    hide Encode, EncodeChar, DecodeAt;
    if a != [] && b != [] {
      EncodeFirst(a);
      EncodeFirst(b);
      var n := |EncodeChar(a[0])|;
      assert Encode(a)[n..] == Encode(a[1..]) && Encode(b)[n..] == Encode(b[1..]);
      EncodeInjective(a[1..], b[1..]);
      assert a == [a[0]] + a[1..] && b == [b[0]] + b[1..];
    } else {
      if a != [] { EncodeFirst(a); NothingEncoded(); }
      if b != [] { EncodeFirst(b); NothingEncoded(); }
    }
  }

  lemma NothingEncoded()
    ensures Encode("") == []
  {
  }
}
