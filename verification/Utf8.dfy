/** UTF-8 as section 4 of RFC 3629 defines it, and the cut that keeps a byte string valid. */
module Utf8 {
  newtype byte = x: int | 0 <= x < 256

  type Bytes = seq<byte>

  predicate Tail(b: byte) {
    0x80 <= b <= 0xBF
  }

  /** The second octet that may follow this first one in a character of three or four octets. */
  predicate SecondOf(first: byte, second: byte) {
    if first == 0xE0 then 0xA0 <= second <= 0xBF
    else if first == 0xED then 0x80 <= second <= 0x9F
    else if first == 0xF0 then 0x90 <= second <= 0xBF
    else if first == 0xF4 then 0x80 <= second <= 0x8F
    else Tail(second)
  }

  /** The length of the character s begins with, 0 if it begins with none. */
  function CharLength(s: Bytes): (n: nat)
    ensures n <= 4 && n <= |s|
  {
    if |s| >= 1 && s[0] <= 0x7F then 1
    else if |s| >= 2 && 0xC2 <= s[0] <= 0xDF && Tail(s[1]) then 2
    else if |s| >= 3 && 0xE0 <= s[0] <= 0xEF && SecondOf(s[0], s[1]) && Tail(s[2]) then 3
    else if |s| >= 4 && 0xF0 <= s[0] <= 0xF4 && SecondOf(s[0], s[1]) && Tail(s[2]) && Tail(s[3]) then 4
    else 0
  }

  predicate Valid(s: Bytes) {
    s == [] || (CharLength(s) > 0 && Valid(s[CharLength(s)..]))
  }

  /** The longest valid prefix of at most n bytes. */
  function LongestValid(s: Bytes, n: nat): (r: Bytes)
    requires n <= |s|
    ensures r <= s && |r| <= n && Valid(r)
    ensures forall m | |r| < m <= n :: !Valid(s[..m])
  {
    if Valid(s[..n]) then s[..n] else LongestValid(s, n - 1)
  }

  function Truncated(s: Bytes, limit: int): Bytes {
    if limit <= 0 then [] else if |s| <= limit then s else LongestValid(s, limit)
  }

  /** truncateUTF8Bytes. */
  method TruncateUtf8Bytes(data: Bytes, limit: int) returns (truncated: Bytes)
    ensures truncated == Truncated(data, limit)
  {
    if limit <= 0 {
      return [];
    }
    if |data| <= limit {
      return data;
    }
    truncated := data[..limit];
    while |truncated| > 0 && !Valid(truncated)
      invariant |truncated| <= limit && truncated == data[..|truncated|]
      invariant LongestValid(data, |truncated|) == LongestValid(data, limit)
    {
      truncated := truncated[..|truncated| - 1];
    }
  }

  /** In valid text some character ends within the last four positions up to any cut. */
  lemma {:induction false} BoundaryNearCut(s: Bytes, cut: nat) returns (b: nat)
    requires Valid(s) && cut <= |s|
    ensures b <= cut <= b + 3 && Valid(s[..b])
    decreases |s|
  {
    var n := CharLength(s);
    if cut < n || s == [] {
      b := 0;
    } else {
      var rest := BoundaryNearCut(s[n..], cut - n);
      b := n + rest;
      var prefix := s[..b];
      assert prefix[n..] == s[n..][..rest];
      assert CharLength(prefix) == n;
    }
  }

  /** A cut of valid text is a valid prefix of it, within the limit, at most 3 bytes below it. */
  lemma CutIsValidPrefix(s: Bytes, limit: int)
    requires Valid(s)
    ensures
      var r := Truncated(s, limit);
      && Valid(r) && r <= s
      && (limit > 0 ==> |r| <= limit && (r == s || limit <= |r| + 3))
  {
    if 0 < limit < |s| {
      var b := BoundaryNearCut(s, limit);
    }
  }

  /** The bound of 3 is met: a character of four bytes cut before its last byte goes entirely. */
  lemma CutMayLoseThree()
    ensures var s := [0xF0, 0x9F, 0x98, 0x80]; Valid(s) && |Truncated(s, 3)| == 0
  {
    var s: Bytes := [0xF0, 0x9F, 0x98, 0x80];
    assert s[4..] == [];
    assert s[..3] == [0xF0, 0x9F, 0x98] && s[..2] == [0xF0, 0x9F] && s[..1] == [0xF0];
    assert LongestValid(s, 3) == LongestValid(s, 2) == LongestValid(s, 1) == LongestValid(s, 0);
  }

  // ----- Valid text is the encoding of characters -----

  /** A Unicode scalar value: a code point that is no surrogate. */
  predicate Scalar(c: nat) {
    c <= 0x10FFFF && !(0xD800 <= c <= 0xDFFF)
  }

  /** The octets of a character, section 3 of RFC 3629. */
  function Encode(c: nat): (octets: Bytes)
    requires Scalar(c)
    ensures 1 <= |octets| <= 4
  {
    if c < 0x80 then [c as byte]
    else if c < 0x800 then [(0xC0 + c / 64) as byte, (0x80 + c % 64) as byte]
    else if c < 0x1_0000 then [(0xE0 + c / 4096) as byte, (0x80 + c / 64 % 64) as byte, (0x80 + c % 64) as byte]
    else [(0xF0 + c / 262144) as byte, (0x80 + c / 4096 % 64) as byte, (0x80 + c / 64 % 64) as byte, (0x80 + c % 64) as byte]
  }

  function EncodeAll(characters: seq<nat>): Bytes
    requires forall i | 0 <= i < |characters| :: Scalar(characters[i])
  {
    if characters == [] then [] else Encode(characters[0]) + EncodeAll(characters[1..])
  }

  /** An encoded character is recognised, whatever follows. */
  lemma EncodedIsRead(c: nat, rest: Bytes)
    requires Scalar(c)
    ensures CharLength(Encode(c) + rest) == |Encode(c)|
  {
  }

  /** A number and its digits to the base 64. */
  lemma Digits64(high: nat, low: nat)
    requires low < 64
    ensures (high * 64 + low) / 64 == high && (high * 64 + low) % 64 == low
  {
  }

  lemma ReadTwo(s: Bytes) returns (c: nat)
    requires CharLength(s) == 2
    ensures Scalar(c) && Encode(c) == s[..2]
  {
    c := (s[0] as nat - 0xC0) * 64 + (s[1] as nat - 0x80);
    Digits64(s[0] as nat - 0xC0, s[1] as nat - 0x80);
  }

  lemma ReadThree(s: Bytes) returns (c: nat)
    requires CharLength(s) == 3
    ensures Scalar(c) && Encode(c) == s[..3]
  {
    var a, b, d := s[0] as nat - 0xE0, s[1] as nat - 0x80, s[2] as nat - 0x80;
    c := (a * 64 + b) * 64 + d;
    Digits64(a * 64 + b, d);
    Digits64(a, b);
    assert c / 4096 == c / 64 / 64;
  }

  lemma ReadFour(s: Bytes) returns (c: nat)
    requires CharLength(s) == 4
    ensures Scalar(c) && Encode(c) == s[..4]
  {
    var a, b, d, e := s[0] as nat - 0xF0, s[1] as nat - 0x80, s[2] as nat - 0x80, s[3] as nat - 0x80;
    c := ((a * 64 + b) * 64 + d) * 64 + e;
    Digits64((a * 64 + b) * 64 + d, e);
    Digits64(a * 64 + b, d);
    Digits64(a, b);
    assert c / 4096 == c / 64 / 64 && c / 262144 == c / 64 / 64 / 64;
  }

  /** What is recognised is an encoded character. */
  lemma ReadIsEncoded(s: Bytes) returns (c: nat)
    requires CharLength(s) > 0
    ensures Scalar(c) && Encode(c) == s[..CharLength(s)]
  {
    var n := CharLength(s);
    if n == 1 {
      c := s[0] as nat;
    } else if n == 2 {
      c := ReadTwo(s);
    } else if n == 3 {
      c := ReadThree(s);
    } else {
      c := ReadFour(s);
    }
  }

  /** Valid text is exactly what some characters are encoded to. */
  lemma {:induction false} EncodedIsValid(characters: seq<nat>)
    requires forall i | 0 <= i < |characters| :: Scalar(characters[i])
    ensures Valid(EncodeAll(characters))
  {
    if characters != [] {
      var first, rest := Encode(characters[0]), EncodeAll(characters[1..]);
      EncodedIsValid(characters[1..]);
      EncodedIsRead(characters[0], rest);
      assert (first + rest)[|first|..] == rest;
    }
  }

  lemma {:induction false} ValidIsEncoded(s: Bytes) returns (characters: seq<nat>)
    requires Valid(s)
    ensures forall i | 0 <= i < |characters| :: Scalar(characters[i])
    ensures EncodeAll(characters) == s
    decreases |s|
  {
    characters := [];
    if s != [] {
      var n := CharLength(s);
      var first := ReadIsEncoded(s);
      var rest := ValidIsEncoded(s[n..]);
      characters := [first] + rest;
      assert characters[1..] == rest;
      assert s == s[..n] + s[n..];
    }
  }
}
