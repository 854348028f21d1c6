/** Cuts of UTF-8 text at a byte limit. Validity is the grammar of section 4 of
    RFC 3629. */
module Utf8Cuts {
  import opened LineFraming

  predicate Tail(b: Byte) {
    0x80 <= b <= 0xBF
  }

  /** The length of the character at the front, or 0 when there is none. */
  function CharLength(s: seq<Byte>): (n: nat)
    ensures n <= |s| && n <= 4
    ensures 0 < n ==> !Tail(s[0]) && forall i | 1 <= i < n :: Tail(s[i])
  {
    if s == [] then 0
    else if s[0] <= 0x7F then 1
    else if |s| < 2 || !Tail(s[1]) then 0
    else if 0xC2 <= s[0] <= 0xDF then 2
    else if |s| < 3 || !Tail(s[2]) then 0
    else if || (s[0] == 0xE0 && 0xA0 <= s[1])
            || 0xE1 <= s[0] <= 0xEC
            || (s[0] == 0xED && s[1] <= 0x9F)
            || 0xEE <= s[0] <= 0xEF then 3
    else if |s| < 4 || !Tail(s[3]) then 0
    else if || (s[0] == 0xF0 && 0x90 <= s[1])
            || 0xF1 <= s[0] <= 0xF3
            || (s[0] == 0xF4 && s[1] <= 0x8F) then 4
    else 0
  }

  predicate ValidUtf8(s: seq<Byte>) {
    s == [] || (0 < CharLength(s) && ValidUtf8(s[CharLength(s)..]))
  }

  // ----- The encoder -----

  /** A Unicode scalar value: a code point that is no surrogate. */
  type Scalar = c: nat | c < 0xD800 || 0xE000 <= c < 0x11_0000 witness 0

  /** The octets of a scalar value, by the table in section 3 of RFC 3629. */
  function Encode(c: Scalar): (s: seq<Byte>)
    ensures s != []
  {
    if c < 0x80 then [c]
    else if c < 0x800 then [0xC0 + c / 0x40, 0x80 + c % 0x40]
    else if c < 0x1_0000 then [0xE0 + c / 0x1000, 0x80 + c / 0x40 % 0x40, 0x80 + c % 0x40]
    else [0xF0 + c / 0x4_0000, 0x80 + c / 0x1000 % 0x40, 0x80 + c / 0x40 % 0x40, 0x80 + c % 0x40]
  }

  function EncodeAll(cs: seq<Scalar>): seq<Byte> {
    if cs == [] then [] else Encode(cs[0]) + EncodeAll(cs[1..])
  }

  lemma FrontDecides(s: seq<Byte>, rest: seq<Byte>)
    requires 0 < CharLength(s)
    ensures CharLength(s + rest) == CharLength(s)
  {
  }

  lemma EncodedIsACharacter(c: Scalar)
    ensures CharLength(Encode(c)) == |Encode(c)|
  {
  }

  /** What the encoder wrote for one value is read as one character. */
  lemma EncodedIsOneCharacter(c: Scalar, rest: seq<Byte>)
    ensures CharLength(Encode(c) + rest) == |Encode(c)|
  {
    hide CharLength, Encode;
    EncodedIsACharacter(c);
    FrontDecides(Encode(c), rest);
  }

  /** The digits of a number to the base 64. */
  lemma Digits(a: nat, b: nat, c: nat)
    requires b < 0x40 && c < 0x40
    ensures var n := 0x1000 * a + 0x40 * b + c;
            n / 0x1000 == a && n / 0x40 % 0x40 == b && n % 0x40 == c && n / 0x40 == 0x40 * a + b
  {
  }

  lemma TwoOctets(s: seq<Byte>) returns (c: Scalar)
    requires CharLength(s) == 2
    ensures [s[0], s[1]] == Encode(c)
  {
    var x: int, y: int := s[0], s[1];
    Digits(0, x - 0xC0, y - 0x80);
    c := 0x40 * (x - 0xC0) + (y - 0x80);
  }

  lemma ThreeOctets(s: seq<Byte>) returns (c: Scalar)
    requires CharLength(s) == 3
    ensures [s[0], s[1], s[2]] == Encode(c)
  {
    var x: int, y: int, z: int := s[0], s[1], s[2];
    Digits(x - 0xE0, y - 0x80, z - 0x80);
    c := 0x1000 * (x - 0xE0) + 0x40 * (y - 0x80) + (z - 0x80);
  }

  lemma FourOctets(s: seq<Byte>) returns (c: Scalar)
    requires CharLength(s) == 4
    ensures [s[0], s[1], s[2], s[3]] == Encode(c)
  {
    var w: int, x: int, y: int, z: int := s[0], s[1], s[2], s[3];
    var high := 0x40 * (w - 0xF0) + (x - 0x80);
    Digits(high, y - 0x80, z - 0x80);
    Digits(0, w - 0xF0, x - 0x80);
    c := 0x1000 * high + 0x40 * (y - 0x80) + (z - 0x80);
    assert c / 0x4_0000 == w - 0xF0;
  }

  /** What is read as one character was written for some value. */
  lemma CharacterIsEncoded(s: seq<Byte>) returns (c: Scalar)
    requires 0 < CharLength(s)
    ensures s[..CharLength(s)] == Encode(c)
  {
    match CharLength(s)
    case 1 => c := s[0];
    case 2 => c := TwoOctets(s);
    case 3 => c := ThreeOctets(s);
    case _ => c := FourOctets(s);
  }

  lemma {:induction false} EncodedIsValid(cs: seq<Scalar>)
    ensures ValidUtf8(EncodeAll(cs))
  {
    if cs != [] {
      var rest := EncodeAll(cs[1..]);
      EncodedIsOneCharacter(cs[0], rest);
      EncodedIsValid(cs[1..]);
      assert (Encode(cs[0]) + rest)[|Encode(cs[0])|..] == rest;
    }
  }

  lemma EncodeOneMore(c: Scalar, cs: seq<Scalar>)
    ensures EncodeAll([c] + cs) == Encode(c) + EncodeAll(cs)
  {
    hide Encode;
    assert ([c] + cs)[1..] == cs;
  }

  lemma {:induction false} ValidIsEncoded(s: seq<Byte>) returns (cs: seq<Scalar>)
    requires ValidUtf8(s)
    ensures s == EncodeAll(cs)
    decreases |s|
  {
    if s == [] {
      assert EncodeAll([]) == [];
      return [];
    }
    var n := CharLength(s);
    assert 0 < n && ValidUtf8(s[n..]);
    hide CharLength, Encode, EncodeAll, ValidUtf8;
    var front, back := s[..n], s[n..];
    assert s == front + back;
    var c := CharacterIsEncoded(s);
    var rest := ValidIsEncoded(back);
    EncodeOneMore(c, rest);
    return [c] + rest;
  }

  /** The valid texts are exactly the encoded ones. */
  lemma ValidExactlyWhenEncoded(s: seq<Byte>)
    ensures ValidUtf8(s) <==> exists cs :: s == EncodeAll(cs)
  {
    if ValidUtf8(s) {
      var cs := ValidIsEncoded(s);
    }
    if cs :| s == EncodeAll(cs) {
      EncodedIsValid(cs);
    }
  }

  /** `str::is_char_boundary`. */
  predicate IsBoundary(s: seq<Byte>, i: nat) {
    i == 0 || i == |s| || (i < |s| && !Tail(s[i]))
  }

  lemma CharLengthIsLocal(s: seq<Byte>, i: nat)
    requires CharLength(s) <= i <= |s| && 0 < CharLength(s)
    ensures CharLength(s[..i]) == CharLength(s)
  {
  }

  /** A cut splits no character exactly when it is at a boundary. */
  lemma CutIsCleanExactlyAtBoundaries(s: seq<Byte>, i: nat)
    requires ValidUtf8(s) && i <= |s|
    ensures ValidUtf8(s[..i]) && ValidUtf8(s[i..]) <==> IsBoundary(s, i)
  {
    if IsBoundary(s, i) {
      BoundarySplitsNoCharacter(s, i);
    } else {
      assert s[i..][0] == s[i];
    }
  }

  lemma {:induction false} BoundarySplitsNoCharacter(s: seq<Byte>, i: nat)
    requires ValidUtf8(s) && i <= |s| && IsBoundary(s, i)
    ensures ValidUtf8(s[..i]) && ValidUtf8(s[i..])
  {
    if i == 0 {
      assert s[..0] == [] && s[0..] == s;
    } else if i == |s| {
      assert s[..i] == s;
    } else {
      var n := CharLength(s);
      assert n <= i;
      CharLengthIsLocal(s, i);
      BoundarySplitsNoCharacter(s[n..], i - n);
      assert s[..i][n..] == s[n..][..i - n] && s[n..][i - n..] == s[i..];
    }
  }

  /** Every position has a boundary at most three bytes away on either side. */
  lemma {:induction false} BoundaryIsNear(s: seq<Byte>, i: nat) returns (lo: nat, hi: nat)
    requires ValidUtf8(s) && i <= |s|
    ensures lo <= i <= hi <= |s| && i - lo <= 3 && hi - i <= 3
    ensures IsBoundary(s, lo) && IsBoundary(s, hi)
  {
    if i == 0 || i == |s| {
      return i, i;
    }
    var n := CharLength(s);
    if i < n {
      assert s[n..] == [] || 0 < CharLength(s[n..]);
      return 0, n;
    }
    lo, hi := BoundaryIsNear(s[n..], i - n);
    if lo == 0 && s[n..] != [] {
      assert 0 < CharLength(s[n..]);
    }
    return lo + n, hi + n;
  }

  /** `truncate_tail`, and the drain of the observed activity: the longest suffix of at
      most `maximum` bytes that starts with a whole character. */
  method TruncateTail(value: seq<Byte>, maximum: nat) returns (r: seq<Byte>)
    requires ValidUtf8(value)
    ensures ValidUtf8(r) && |r| <= |value| && r == value[|value| - |r|..]
    ensures |value| <= maximum ==> r == value
    ensures maximum < |value| ==> |r| <= maximum <= |r| + 3
    ensures forall i: nat | i <= |value| && IsBoundary(value, i) && |value| - i <= maximum :: |value| - i <= |r|
  {
    if |value| <= maximum {
      return value;
    }
    var first := |value| - maximum;
    var start := first;
    var lo, hi := BoundaryIsNear(value, first);
    while !IsBoundary(value, start)
      invariant first <= start <= hi
      invariant forall i | first <= i < start :: !IsBoundary(value, i)
      decreases hi - start
    {
      start := start + 1;
    }
    BoundarySplitsNoCharacter(value, start);
    return value[start..];
  }

  /** `truncate_head`: the longest prefix of at most `maximum` bytes that ends with a whole
      character. */
  method TruncateHead(value: seq<Byte>, maximum: nat) returns (r: seq<Byte>)
    requires ValidUtf8(value)
    ensures ValidUtf8(r) && r <= value
    ensures |value| <= maximum ==> r == value
    ensures maximum < |value| ==> |r| <= maximum <= |r| + 3
    ensures forall i: nat | i <= |value| && IsBoundary(value, i) && i <= maximum :: i <= |r|
  {
    if |value| <= maximum {
      return value;
    }
    var end := maximum;
    var lo, hi := BoundaryIsNear(value, maximum);
    while !IsBoundary(value, end)
      invariant lo <= end <= maximum
      invariant forall i: nat | end < i <= maximum :: !IsBoundary(value, i)
      decreases end
    {
      end := end - 1;
    }
    BoundarySplitsNoCharacter(value, end);
    return value[..end];
  }

  /** "[truncated]" and a newline. */
  const TRUNCATED: seq<Byte> := [91, 116, 114, 117, 110, 99, 97, 116, 101, 100, 93, 10]

  lemma AsciiIsOneByte(s: seq<Byte>)
    requires s != [] && s[0] <= 0x7F
    ensures ValidUtf8(s) <==> ValidUtf8(s[1..])
  {
    assert CharLength(s) == 1;
  }

  lemma {:induction false} AsciiThenValid(ascii: seq<Byte>, s: seq<Byte>)
    requires ValidUtf8(s) && forall i | 0 <= i < |ascii| :: ascii[i] <= 0x7F
    ensures ValidUtf8(ascii + s)
  {
    hide CharLength;
    if ascii == [] {
      assert ascii + s == s;
    } else {
      AsciiThenValid(ascii[1..], s);
      assert (ascii + s)[1..] == ascii[1..] + s;
      AsciiIsOneByte(ascii + s);
    }
  }

  /** `bounded_context` on text that is already sanitised. */
  method BoundedContext(value: seq<Byte>, maximum: nat) returns (r: seq<Byte>)
    requires ValidUtf8(value)
    ensures ValidUtf8(r)
    ensures |value| <= maximum ==> r == value
    ensures maximum < |value| ==>
              && 12 <= |r| && (forall i | 0 <= i < 12 :: r[i] == "[truncated]\n"[i] as int)
              && var kept := |r| - 12; kept <= maximum <= kept + 3 && r[12..] == value[|value| - kept..]
  {
    if |value| <= maximum {
      return value;
    }
    var tail := TruncateTail(value, maximum);
    AsciiThenValid(TRUNCATED, tail);
    return TRUNCATED + tail;
  }
}
