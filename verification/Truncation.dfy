/** Cutting UTF-8 text to a byte budget: `truncate_at_line_boundary` in
    `artifacts.rs` and `cap_utf8` in `docs.rs`. */
module Truncation {

  type Byte = b: int | 0 <= b < 256

  type Text = seq<Byte>

  const NEWLINE: Byte := 10

  predicate Continuation(b: Byte) {
    0x80 <= b <= 0xBF
  }

  /** Length of the character at the front of `s`, by the syntax in section 4 of
      RFC 3629; 0 when there is none. */
  function CharLength(s: Text): (n: nat)
    ensures n <= 4 && n <= |s|
    ensures n > 0 ==> !Continuation(s[0]) && forall i | 1 <= i < n :: Continuation(s[i])
    ensures n > 1 ==> s[0] != NEWLINE
  {
    if s == [] then 0
    else if s[0] <= 0x7F then 1
    else if 0xC2 <= s[0] <= 0xDF && |s| >= 2 && Continuation(s[1]) then 2
    else if |s| >= 3 && Continuation(s[2])
      && ((s[0] == 0xE0 && 0xA0 <= s[1] <= 0xBF)
        || ((0xE1 <= s[0] <= 0xEC || 0xEE <= s[0] <= 0xEF) && Continuation(s[1]))
        || (s[0] == 0xED && 0x80 <= s[1] <= 0x9F)) then 3
    else if |s| >= 4 && Continuation(s[2]) && Continuation(s[3])
      && ((s[0] == 0xF0 && 0x90 <= s[1] <= 0xBF)
        || (0xF1 <= s[0] <= 0xF3 && Continuation(s[1]))
        || (s[0] == 0xF4 && 0x80 <= s[1] <= 0x8F)) then 4
    else 0
  }

  predicate Valid(s: Text)
    decreases |s|
  {
    s == [] || (CharLength(s) > 0 && Valid(s[CharLength(s)..]))
  }

  // ------------------------------------------------------ characters and bytes

  /** A character number, as section 3 of RFC 3629 limits them. */
  predicate Scalar(c: nat) {
    c < 0xD800 || 0xE000 <= c < 0x11_0000
  }

  /** Its bytes, by the table in section 3 of RFC 3629. */
  function Encode(c: nat): (bytes: Text)
    requires Scalar(c)
    ensures 1 <= |bytes| <= 4
  {
    if c < 0x80 then [c]
    else if c < 0x800 then [0xC0 + c / 64, 0x80 + c % 64]
    else if c < 0x1_0000 then [0xE0 + c / 4096, 0x80 + c / 64 % 64, 0x80 + c % 64]
    else [0xF0 + c / 262144, 0x80 + c / 4096 % 64, 0x80 + c / 64 % 64, 0x80 + c % 64]
  }

  function EncodeAll(text: seq<nat>): Text
    requires forall i | 0 <= i < |text| :: Scalar(text[i])
  {
    if text == [] then [] else Encode(text[0]) + EncodeAll(text[1..])
  }

  /** An encoded character is recognised whatever follows it. */
  lemma EncodedIsChar(c: nat, rest: Text)
    requires Scalar(c)
    ensures CharLength(Encode(c) + rest) == |Encode(c)|
  {
    var code := Encode(c);
    var s := code + rest;
    assert s[0] == code[0];
    assert |code| > 1 ==> s[1] == code[1];
    assert |code| > 2 ==> s[2] == code[2];
    assert |code| > 3 ==> s[3] == code[3];
  }

  // The numbers that two, three and four bytes stand for.

  lemma FromTwo(x: nat, y: nat)
    requires 2 <= x < 32 && y < 64
    ensures var c := x * 64 + y; Scalar(c) && Encode(c) == [0xC0 + x, 0x80 + y]
  {
    var c := x * 64 + y;
    assert c / 64 == x && c % 64 == y;
  }

  lemma FromThree(x: nat, y: nat, z: nat)
    requires x < 16 && y < 64 && z < 64 && (x == 0 ==> y >= 32) && (x == 13 ==> y < 32)
    ensures var c := x * 4096 + y * 64 + z; Scalar(c) && Encode(c) == [0xE0 + x, 0x80 + y, 0x80 + z]
  {
    var c := x * 4096 + y * 64 + z;
    assert c / 64 == x * 64 + y && c % 64 == z;
    assert (x * 64 + y) % 64 == y && c / 4096 == x;
  }

  lemma FromFour(x: nat, y: nat, z: nat, u: nat)
    requires x < 5 && y < 64 && z < 64 && u < 64 && (x == 0 ==> y >= 16) && (x == 4 ==> y < 16)
    ensures var c := x * 262144 + y * 4096 + z * 64 + u; Scalar(c) && Encode(c) == [0xF0 + x, 0x80 + y, 0x80 + z, 0x80 + u]
  {
    var c := x * 262144 + y * 4096 + z * 64 + u;
    assert c / 64 == x * 4096 + y * 64 + z && c % 64 == u;
    assert (x * 4096 + y * 64 + z) % 64 == z && c / 4096 == x * 64 + y;
    assert (x * 64 + y) % 64 == y && c / 262144 == x;
  }

  /** Whatever is recognised is an encoded character. */
  lemma CharIsEncoded(s: Text) returns (c: nat)
    requires CharLength(s) > 0
    ensures Scalar(c) && s[..CharLength(s)] == Encode(c)
  {
    hide Encode, Scalar;
    var n := CharLength(s);
    var first: int := s[0];
    if n == 1 {
      OneByte(first);
      return first;
    }
    var second: int := s[1];
    if n == 2 {
      FromTwo(first - 0xC0, second - 0x80);
      return (first - 0xC0) * 64 + (second - 0x80);
    }
    var third: int := s[2];
    if n == 3 {
      FromThree(first - 0xE0, second - 0x80, third - 0x80);
      return (first - 0xE0) * 4096 + (second - 0x80) * 64 + (third - 0x80);
    }
    var fourth: int := s[3];
    FromFour(first - 0xF0, second - 0x80, third - 0x80, fourth - 0x80);
    c := (first - 0xF0) * 262144 + (second - 0x80) * 4096 + (third - 0x80) * 64 + (fourth - 0x80);
  }

  lemma OneByte(b: nat)
    requires b < 0x80
    ensures Scalar(b) && Encode(b) == [b]
  {
  }

  /** Text is valid exactly when it is the encoding of some characters. */
  lemma {:induction false} ValidIsEncoded(s: Text) returns (text: seq<nat>)
    requires Valid(s)
    ensures (forall i | 0 <= i < |text| :: Scalar(text[i])) && s == EncodeAll(text)
    decreases |s|
  {
    hide CharLength, Encode, Scalar;
    if s == [] {
      return [];
    }
    var first := CharIsEncoded(s);
    var rest := ValidIsEncoded(s[CharLength(s)..]);
    text := [first] + rest;
    assert text[1..] == rest;
    assert s == s[..CharLength(s)] + s[CharLength(s)..];
  }

  lemma {:induction false} EncodedIsValid(text: seq<nat>)
    requires forall i | 0 <= i < |text| :: Scalar(text[i])
    ensures Valid(EncodeAll(text))
  {
    hide CharLength, Encode, Scalar;
    if text != [] {
      EncodedIsValid(text[1..]);
      EncodedIsChar(text[0], EncodeAll(text[1..]));
      var s := EncodeAll(text);
      assert s[|Encode(text[0])|..] == EncodeAll(text[1..]);
    }
  }

  // ------------------------------------------------------------------ cutting

  /** `str::is_char_boundary`: looks at one byte only. */
  predicate IsCharBoundary(s: Text, i: nat) {
    i == 0 || i == |s| || (i < |s| && !Continuation(s[i]))
  }

  /** A character is recognised by its own bytes alone. */
  lemma CharLengthPrefix(s: Text, k: nat)
    requires k <= |s| && (CharLength(s) <= k || CharLength(s[..k]) > 0)
    ensures CharLength(s[..k]) == CharLength(s)
  {
  }

  /** In valid text the one-byte test finds exactly the places where the text
      may be cut into two valid texts. */
  lemma {:induction false} BoundaryIffValid(s: Text, i: nat)
    requires Valid(s) && i <= |s|
    ensures IsCharBoundary(s, i) <==> Valid(s[..i])
    ensures IsCharBoundary(s, i) ==> Valid(s[i..])
    decreases |s|
  {
    hide CharLength;
    if i == 0 {
      assert s[..i] == [] && s[i..] == s;
    } else {
      var n := CharLength(s);
      if i < n {
        if CharLength(s[..i]) > 0 {
          CharLengthPrefix(s, i);
        }
      } else {
        var rest := s[n..];
        CharLengthPrefix(s, i);
        BoundaryIffValid(rest, i - n);
        assert s[..i][n..] == rest[..i - n] && s[i..] == rest[i - n..];
        assert i < |s| ==> s[i] == rest[i - n];
      }
    }
  }

  /** A line ends at `k`. */
  predicate LineEnd(s: Text, k: nat) {
    1 <= k <= |s| && s[k - 1] == NEWLINE
  }

  lemma {:induction false} LineEndIsBoundary(s: Text, k: nat)
    requires Valid(s) && LineEnd(s, k)
    ensures IsCharBoundary(s, k)
    decreases |s|
  {
    hide CharLength;
    var n := CharLength(s);
    var rest := s[n..];
    if k > n {
      assert rest[k - n - 1] == s[k - 1];
      LineEndIsBoundary(rest, k - n);
      assert k < |s| ==> s[k] == rest[k - n];
    } else {
      assert k == n;
      assert k < |s| ==> s[k] == rest[0];
    }
  }

  ghost predicate LongestValid(s: Text, budget: nat, r: Text) {
    && r <= s && |r| <= budget && Valid(r)
    && forall k | |r| < k <= |s| && k <= budget :: !Valid(s[..k])
  }

  ghost predicate LongestLines(s: Text, budget: nat, r: Text) {
    && r <= s && |r| <= budget && LineEnd(s, |r|)
    && forall k | |r| < k <= budget :: !LineEnd(s, k)
  }

  /** The shared search: step back from the budget to a boundary. */
  method Boundary(s: Text, budget: nat) returns (cut: nat)
    requires Valid(s)
    ensures cut <= |s| && IsCharBoundary(s, cut) && LongestValid(s, budget, s[..cut])
  {
    hide Valid, CharLength;
    cut := if budget < |s| then budget else |s|;
    while cut > 0 && !IsCharBoundary(s, cut)
      invariant cut <= |s| && cut <= budget
      invariant forall k | cut < k <= |s| && k <= budget :: !Valid(s[..k])
    {
      BoundaryIffValid(s, cut);
      cut := cut - 1;
    }
    BoundaryIffValid(s, cut);
  }

  function LastNewline(s: Text): (k: nat)
    ensures k == 0 || LineEnd(s, k)
    ensures forall j | k < j <= |s| :: !LineEnd(s, j)
  {
    if s == [] then 0
    else if s[|s| - 1] == NEWLINE then |s|
    else
      var k := LastNewline(s[..|s| - 1]);
      assert forall j | k < j <= |s| - 1 :: LineEnd(s, j) <==> LineEnd(s[..|s| - 1], j);
      k
  }

  /** `truncate_at_line_boundary`: the longest run of complete lines within the
      budget, or failing that the longest run of complete characters. */
  method TruncateAtLineBoundary(text: Text, budget: nat) returns (kept: Text)
    requires Valid(text)
    ensures Valid(kept)
    ensures (exists k: nat :: k <= budget && LineEnd(text, k)) ==> LongestLines(text, budget, kept)
    ensures !(exists k: nat :: k <= budget && LineEnd(text, k)) ==> LongestValid(text, budget, kept)
  {
    hide Valid, CharLength;
    var cut := Boundary(text, budget);
    forall k: nat | k <= budget && LineEnd(text, k)
      ensures k <= cut && LineEnd(text[..cut], k)
    {
      LineEndIsBoundary(text, k);
      BoundaryIffValid(text, k);
    }
    var newline := LastNewline(text[..cut]);
    if newline > 0 {
      kept := text[..newline];
      assert LineEnd(text, newline);
      LineEndIsBoundary(text, newline);
      BoundaryIffValid(text, newline);
    } else {
      kept := text[..cut];
    }
  }

  /** `cap_utf8`. */
  method CapUtf8(value: Text, maxBytes: nat) returns (kept: Text)
    requires Valid(value)
    ensures LongestValid(value, maxBytes, kept)
  {
    if |value| <= maxBytes {
      return value;
    }
    var end := Boundary(value, maxBytes);
    kept := value[..end];
  }
}
