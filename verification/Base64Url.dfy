/** Unpadded base64 with the URL alphabet (base64.RawURLEncoding; section 5 of RFC 4648). */
module Base64Url {
  import opened Text

  type Byte = b: int | 0 <= b < 256

  /** The alphabet: A-Z, a-z, 0-9, '-', '_'. */
  function Digit(n: nat): (c: char)
    requires n < 64
    ensures c != '.' && !IsSpace(c)
  {
    if n < 26 then (n + 65) as char
    else if n < 52 then (n + 71) as char
    else if n < 62 then (n - 4) as char
    else if n == 62 then '-'
    else '_'
  }

  function Value(c: char): (r: Option<nat>)
    ensures r.Some? ==> r.value < 64
  {
    if 'A' <= c <= 'Z' then Some(c as int - 65)
    else if 'a' <= c <= 'z' then Some(c as int - 71)
    else if '0' <= c <= '9' then Some(c as int + 4)
    else if c == '-' then Some(62)
    else if c == '_' then Some(63)
    else None
  }

  lemma {:induction false} ValueOfDigit(n: nat)
    requires n < 64
    ensures Value(Digit(n)) == Some(n)
  {}

  function Encode(bytes: seq<Byte>): string {
    if |bytes| == 0 then ""
    else if |bytes| == 1 then
      [Digit(bytes[0] / 4), Digit(bytes[0] % 4 * 16)]
    else if |bytes| == 2 then
      [Digit(bytes[0] / 4), Digit(bytes[0] % 4 * 16 + bytes[1] / 16), Digit(bytes[1] % 16 * 4)]
    else
      [Digit(bytes[0] / 4), Digit(bytes[0] % 4 * 16 + bytes[1] / 16), Digit(bytes[1] % 16 * 4 + bytes[2] / 64), Digit(bytes[2] % 64)]
      + Encode(bytes[3..])
  }

  /** The decoder drops the unused low bits of a last group that is not full; one character alone is no group. */
  function Decode(s: string): Option<seq<Byte>> {
    if |s| == 0 then Some([])
    else if |s| == 1 || Value(s[0]).None? || Value(s[1]).None? then None
    else
      var a, b := Value(s[0]).value, Value(s[1]).value;
      var first: Byte := a * 4 + b / 16;
      if |s| == 2 then Some([first])
      else if Value(s[2]).None? then None
      else
        var c := Value(s[2]).value;
        var second: Byte := b % 16 * 16 + c / 4;
        if |s| == 3 then Some([first, second])
        else if Value(s[3]).None? then None
        else
          var third: Byte := c % 4 * 64 + Value(s[3]).value;
          match Decode(s[4..])
          case None => None
          case Some(rest) => Some([first, second, third] + rest)
  }

  lemma {:induction false} Halves(x: Byte, y: Byte)
    ensures x / 4 * 4 + (x % 4 * 16 + y / 16) / 16 == x && (x % 4 * 16 + y / 16) % 16 == y / 16 && x % 4 * 16 + y / 16 < 64
  {}

  lemma {:induction false} Quarters(y: Byte, z: Byte)
    ensures y / 16 * 16 + (y % 16 * 4 + z / 64) / 4 == y && (y % 16 * 4 + z / 64) % 4 * 64 + z % 64 == z && y % 16 * 4 + z / 64 < 64
  {}

  lemma {:induction false} OneByte(x: Byte)
    ensures Decode(Encode([x])) == Some([x])
  {
    ValueOfDigit(x / 4);
    ValueOfDigit(x % 4 * 16);
    Halves(x, 0);
  }

  lemma {:induction false} TwoBytes(x: Byte, y: Byte)
    ensures Decode(Encode([x, y])) == Some([x, y])
  {
    ValueOfDigit(x / 4);
    ValueOfDigit(x % 4 * 16 + y / 16);
    ValueOfDigit(y % 16 * 4);
    Halves(x, y);
    Quarters(y, 0);
  }

  lemma {:induction false} ThreeBytes(x: Byte, y: Byte, z: Byte, rest: seq<Byte>)
    requires Decode(Encode(rest)) == Some(rest)
    ensures Decode(Encode([x, y, z] + rest)) == Some([x, y, z] + rest)
  {
    var bytes := [x, y, z] + rest;
    assert bytes[3..] == rest;
    var s := Encode(bytes);
    assert s == [Digit(x / 4), Digit(x % 4 * 16 + y / 16), Digit(y % 16 * 4 + z / 64), Digit(z % 64)] + Encode(rest);
    assert s[4..] == Encode(rest);
    ValueOfDigit(x / 4);
    ValueOfDigit(x % 4 * 16 + y / 16);
    ValueOfDigit(y % 16 * 4 + z / 64);
    ValueOfDigit(z % 64);
    Halves(x, y);
    Quarters(y, z);
  }

  lemma {:induction false} RoundTrip(bytes: seq<Byte>)
    ensures Decode(Encode(bytes)) == Some(bytes)
  {
    if |bytes| == 1 {
      OneByte(bytes[0]);
      assert bytes == [bytes[0]];
    } else if |bytes| == 2 {
      TwoBytes(bytes[0], bytes[1]);
      assert bytes == [bytes[0], bytes[1]];
    } else if |bytes| > 2 {
      RoundTrip(bytes[3..]);
      ThreeBytes(bytes[0], bytes[1], bytes[2], bytes[3..]);
      assert bytes == [bytes[0], bytes[1], bytes[2]] + bytes[3..];
    }
  }

  /** The text holds neither the separator of a token nor white space. */
  lemma {:induction false} PlainText(bytes: seq<Byte>)
    ensures '.' !in Encode(bytes) && forall c :: c in Encode(bytes) ==> !IsSpace(c)
  {
    if |bytes| > 2 { PlainText(bytes[3..]); }
  }

  /** The texts of section 10 of RFC 4648 for "f", "fo" and "foobar", and one that needs the two characters of the URL
      alphabet. */
  lemma {:induction false} KnownTexts()
    ensures Encode([]) == "" && Encode([102]) == "Zg" && Encode([102, 111]) == "Zm8" && Encode([251, 255]) == "-_8"
    ensures Encode([102, 111, 111, 98, 97, 114]) == "Zm9vYmFy"
  {
    var bytes: seq<Byte> := [102, 111, 111, 98, 97, 114];
    assert bytes[3..] == [98, 97, 114] && bytes[3..][3..] == [];
    assert Encode(bytes[3..]) == "YmFy";
  }
}
