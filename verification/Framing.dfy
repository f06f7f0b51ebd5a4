/** Signed-message framing, the hexadecimal codec and MAC signatures shared by
    `completion.rs` and `delivery.rs`. */
module Framing {
  import opened Common

  predicate IsBytes(s: string) {
    forall i | 0 <= i < |s| :: s[i] < 256 as char
  }

  /** A string whose elements are byte values. */
  type Bytes = s: string | IsBytes(s)

  // ------------------------------------------------------------------- hex

  function Digit(n: nat): char
    requires n < 16
  {
    if n < 10 then ('0' as int + n) as char else ('a' as int + n - 10) as char
  }

  function Nibble(c: char): Option<nat> {
    if '0' <= c <= '9' then Some(c as int - '0' as int)
    else if 'a' <= c <= 'f' then Some(c as int - 'a' as int + 10)
    else if 'A' <= c <= 'F' then Some(c as int - 'A' as int + 10)
    else None
  }

  function HexEncode(bytes: Bytes): string {
    if bytes == [] then ""
    else [Digit(bytes[0] as int / 16), Digit(bytes[0] as int % 16)] + HexEncode(bytes[1..])
  }

  method HexEncodeLoop(bytes: Bytes) returns (output: string)
    ensures output == HexEncode(bytes)
  {
    output := "";
    for i := 0 to |bytes|
      invariant output + HexEncode(bytes[i..]) == HexEncode(bytes)
    {
      var byte := bytes[i] as int;
      assert bytes[i..][0] == bytes[i] && bytes[i..][1..] == bytes[i + 1..];
      output := output + [Digit(byte / 16)];
      output := output + [Digit(byte % 16)];
    }
  }

  /** The sixteen digits. */
  lemma DigitsAre(n: nat)
    requires n < 16
    ensures Digit(n) == "0123456789abcdef"[n]
  {
    assert "0123456789abcdef" == ['0', '1', '2', '3', '4', '5', '6', '7', '8', '9', 'a', 'b', 'c', 'd', 'e', 'f'];
  }

  datatype HexError = OddLength | NonHex

  function HexDecode(value: string): Result<Bytes, HexError> {
    if |value| % 2 != 0 then Err(OddLength) else DecodePairs(value)
  }

  function DecodePairs(value: string): Result<Bytes, HexError>
    requires |value| % 2 == 0
  {
    if value == "" then Ok([])
    else
      match (Nibble(value[0]), Nibble(value[1]))
      case (Some(high), Some(low)) =>
        var rest :- DecodePairs(value[2..]);
        Ok([(high * 16 + low) as char] + rest)
      case _ => Err(NonHex)
  }

  lemma {:induction false} HexEncodeShape(bytes: Bytes)
    ensures |HexEncode(bytes)| == 2 * |bytes|
  {
    if bytes != [] {
      HexEncodeShape(bytes[1..]);
    }
  }

  lemma ByteCode(byte: char)
    requires byte < 256 as char
    ensures var n := byte as int;
      && Nibble(Digit(n / 16)) == Some(n / 16) && Nibble(Digit(n % 16)) == Some(n % 16)
      && (n / 16 * 16 + n % 16) as char == byte
  {
  }

  lemma DecodeOneMore(first: char, second: char, tail: string, rest: Bytes)
    requires |tail| % 2 == 0 && DecodePairs(tail) == Ok(rest)
    requires Nibble(first).Some? && Nibble(second).Some?
    ensures DecodePairs([first, second] + tail) == Ok([(Nibble(first).value * 16 + Nibble(second).value) as char] + rest)
  {
    hide Nibble;
    assert ([first, second] + tail)[2..] == tail;
  }

  /** Decoding inverts encoding for every byte string. */
  lemma {:induction false} HexRoundTrip(bytes: Bytes)
    ensures HexDecode(HexEncode(bytes)) == Ok(bytes)
  {
    hide Digit, Nibble, DecodePairs;
    HexEncodeShape(bytes);
    if bytes == [] {
      assert HexDecode("") == Ok([]) by {
        DecodeNothing();
      }
    } else {
      var rest: Bytes := bytes[1..];
      var high, low := Digit(bytes[0] as int / 16), Digit(bytes[0] as int % 16);
      HexEncodeShape(rest);
      HexRoundTrip(rest);
      ByteCode(bytes[0]);
      DecodeOneMore(high, low, HexEncode(rest), rest);
      assert [bytes[0]] + rest == bytes;
    }
  }

  lemma DecodeNothing()
    ensures HexDecode("") == Ok([])
  {
  }

  function Lower(c: char): char {
    if 'A' <= c <= 'F' then (c as int + 32) as char else c
  }

  function LowerText(s: string): string {
    if s == "" then "" else [Lower(s[0])] + LowerText(s[1..])
  }

  lemma NibbleFacts(c: char)
    ensures Nibble(c).Some? <==> IsAsciiHexDigit(c)
    ensures Nibble(c).Some? ==> Nibble(c).value < 16 && Digit(Nibble(c).value) == Lower(c)
    ensures IsAsciiHexDigit(c) <==> IsAsciiHexDigit(Lower(c))
  {
  }

  /** The decoder accepts exactly the even-length texts of hexadecimal digits,
      in either case; encoding the result gives the text back in lower case. */
  lemma {:induction false} HexDecodeIff(value: string)
    ensures HexDecode(value).Ok? <==> |value| % 2 == 0 && forall c | c in value :: IsAsciiHexDigit(c)
    ensures HexDecode(value).Ok? ==> HexEncode(HexDecode(value).value) == LowerText(value)
    decreases |value|
  {
    hide Nibble, Digit, Lower, IsAsciiHexDigit;
    if |value| % 2 == 0 && value != "" {
      HexDecodeIff(value[2..]);
      NibbleFacts(value[0]);
      NibbleFacts(value[1]);
      assert value == [value[0], value[1]] + value[2..];
      if HexDecode(value).Ok? {
        var bytes, rest := HexDecode(value).value, HexDecode(value[2..]).value;
        assert bytes[1..] == rest;
        assert value[1..][1..] == value[2..];
        assert LowerText(value) == [Lower(value[0])] + ([Lower(value[1])] + LowerText(value[2..]));
      }
    }
  }

  lemma {:induction false} LowerTextHex(s: string)
    ensures |LowerText(s)| == |s|
    ensures (forall c | c in LowerText(s) :: IsAsciiHexDigit(c)) <==> (forall c | c in s :: IsAsciiHexDigit(c))
  {
    if s != "" {
      LowerTextHex(s[1..]);
      assert s == [s[0]] + s[1..];
      assert forall c | c in LowerText(s) :: c == Lower(s[0]) || c in LowerText(s[1..]);
      assert Lower(s[0]) in LowerText(s);
    }
  }

  // --------------------------------------------------------------- framing

  datatype Kind = CompletionReceipt | DeliveryIntent | AppliedDelivery

  function Magic(kind: Kind): string {
    match kind
    case CompletionReceipt => "deadreckon.completion-receipt.v1\0"
    case DeliveryIntent => "deadreckon.git-delivery-intent.v1\0"
    case AppliedDelivery => "deadreckon.applied-git-delivery.v1\0"
  }

  const U64_LIMIT: nat := 0x1_0000_0000_0000_0000

  /** The low `width` bytes of a number, most significant first. */
  function BigEndian(n: nat, width: nat): (s: string)
    ensures |s| == width
  {
    if width == 0 then "" else BigEndian(n / 256, width - 1) + [(n % 256) as char]
  }

  /** The bytes that are signed: magic, 64-bit big-endian length, encoding. */
  function Frame(kind: Kind, encoded: string): Option<string> {
    if |encoded| >= U64_LIMIT then None
    else Some(Magic(kind) + BigEndian(|encoded|, 8) + encoded)
  }

  lemma {:induction false} BigEndianInjective(m: nat, n: nat, width: nat, limit: nat)
    requires limit == Power256(width) && m < limit && n < limit
    requires BigEndian(m, width) == BigEndian(n, width)
    ensures m == n
    decreases width
  {
    if width > 0 {
      var a, b := BigEndian(m, width), BigEndian(n, width);
      assert a[|a| - 1] == b[|b| - 1];
      assert BigEndian(m / 256, width - 1) == a[..|a| - 1] && BigEndian(n / 256, width - 1) == b[..|b| - 1];
      BigEndianInjective(m / 256, n / 256, width - 1, limit / 256);
    }
  }

  function Power256(width: nat): (p: nat)
    ensures p > 0
  {
    if width == 0 then 1 else 256 * Power256(width - 1)
  }

  lemma EightBytes()
    ensures Power256(8) == U64_LIMIT
  {
    assert Power256(2) == 0x1_0000;
    assert Power256(4) == 0x1_0000_0000;
    assert Power256(6) == 0x1_0000_0000_0000;
  }

  lemma MagicDiffers(a: Kind, b: Kind)
    ensures |Magic(a)| > 11 && |Magic(b)| > 11
    ensures a != b ==> Magic(a)[11] != Magic(b)[11]
  {
    assert Magic(CompletionReceipt)[11] == 'c';
    assert Magic(DeliveryIntent)[11] == 'g';
    assert Magic(AppliedDelivery)[11] == 'a';
  }

  /** Framing is prefix-free across all three kinds: if one signed message
      starts another, they are the same message of the same kind. */
  lemma FramePrefixFree(a: Kind, x: string, b: Kind, y: string)
    requires Frame(a, x).Some? && Frame(b, y).Some?
    requires Frame(a, x).value <= Frame(b, y).value
    ensures a == b && x == y
  {
    hide Magic, BigEndian;
    var f, g := Frame(a, x).value, Frame(b, y).value;
    MagicDiffers(a, b);
    assert Magic(a)[11] == f[11] == g[11] == Magic(b)[11];
    var m := |Magic(a)|;
    assert BigEndian(|x|, 8) == f[m..m + 8] == g[m..m + 8] == BigEndian(|y|, 8);
    EightBytes();
    BigEndianInjective(|x|, |y|, 8, U64_LIMIT);
    assert x == f[m + 8..] && y == g[m + 8..];
  }

  // ------------------------------------------------------------ signatures

  type Mac = (string, string) -> Bytes

  function Sign(mac: Mac, key: string, message: string): string {
    HexEncode(mac(key, message))
  }

  predicate Verifies(mac: Mac, key: string, message: string, signature: string) {
    HexDecode(signature) == Ok(mac(key, message))
  }

  /** A signature verifies exactly when it is the sealed one up to letter case. */
  lemma SignatureIff(mac: Mac, key: string, message: string, signature: string)
    ensures Verifies(mac, key, message, signature) <==> LowerText(signature) == Sign(mac, key, message)
  {
    var sealed := Sign(mac, key, message);
    HexDecodeIff(signature);
    HexDecodeIff(sealed);
    HexRoundTrip(mac(key, message));
    LowerTextHex(signature);
    if LowerText(signature) == sealed {
      HexRoundTrip(HexDecode(signature).value);
    }
  }

  lemma SealedVerifies(mac: Mac, key: string, message: string)
    ensures Verifies(mac, key, message, Sign(mac, key, message))
  {
    HexRoundTrip(mac(key, message));
  }
}
