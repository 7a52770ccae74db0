/** Unpadded base64url, section 5 of RFC 4648, as cursors are written and read back. */
module Base64Url {
  type Byte = n: nat | n < 256

  /** The character of a six-bit digit. */
  function Letter(d: nat): (c: char)
    requires d < 64
  {
    if d < 26 then ('A' as int + d) as char
    else if d < 52 then ('a' as int + d - 26) as char
    else if d < 62 then ('0' as int + d - 52) as char
    else if d == 62 then '-' else '_'
  }

  predicate IsLetter(c: char) {
    'A' <= c <= 'Z' || 'a' <= c <= 'z' || '0' <= c <= '9' || c == '-' || c == '_'
  }

  function Digit(c: char): (d: nat)
    requires IsLetter(c)
    ensures d < 64
  {
    if 'A' <= c <= 'Z' then c as int - 'A' as int
    else if 'a' <= c <= 'z' then c as int - 'a' as int + 26
    else if '0' <= c <= '9' then c as int - '0' as int + 52
    else if c == '-' then 62 else 63
  }

  predicate Sixes(s: seq<nat>) {
    forall i | 0 <= i < |s| :: s[i] < 64
  }

  /** The bits of the bytes in groups of six, the last group filled up with zeros. */
  function Sextets(bytes: seq<Byte>): (s: seq<nat>)
    ensures Sixes(s)
  {
    if |bytes| == 0 then []
    else if |bytes| == 1 then [bytes[0] as nat / 4, bytes[0] % 4 * 16]
    else if |bytes| == 2 then [bytes[0] as nat / 4, bytes[0] % 4 * 16 + bytes[1] / 16, bytes[1] % 16 * 4]
    else [bytes[0] as nat / 4, bytes[0] % 4 * 16 + bytes[1] / 16, bytes[1] % 16 * 4 + bytes[2] / 64, bytes[2] % 64] + Sextets(bytes[3..])
  }

  /** The whole bytes in a row of six-bit groups; left-over bits are dropped. */
  function Bytes(s: seq<nat>): seq<Byte>
    requires Sixes(s)
  {
    if |s| < 2 then []
    else if |s| == 2 then [s[0] * 4 + s[1] / 16]
    else if |s| == 3 then [s[0] * 4 + s[1] / 16, s[1] % 16 * 16 + s[2] / 4]
    else [s[0] * 4 + s[1] / 16, s[1] % 16 * 16 + s[2] / 4, s[2] % 4 * 64 + s[3]] + Bytes(s[4..])
  }

  function Encode(bytes: seq<Byte>): (text: string)
    ensures |text| == |Sextets(bytes)| && forall i | 0 <= i < |text| :: text[i] == Letter(Sextets(bytes)[i])
  {
    var s := Sextets(bytes);
    seq(|s|, i requires 0 <= i < |s| => Letter(s[i]))
  }

  predicate AllLetters(text: string) {
    forall i | 0 <= i < |text| :: IsLetter(text[i])
  }

  /** Lenient reading; whether the text was canonical is checked by encoding again. */
  function Decode(text: string): seq<Byte>
    requires AllLetters(text)
  {
    Bytes(seq(|text|, i requires 0 <= i < |text| => Digit(text[i])))
  }

  lemma DigitOfLetter(d: nat)
    requires d < 64
    ensures IsLetter(Letter(d)) && Digit(Letter(d)) == d
  {
  }

  lemma {:induction false} BytesOfSextets(bytes: seq<Byte>)
    ensures Bytes(Sextets(bytes)) == bytes
  {
    if |bytes| > 2 {
      var x, y, z := bytes[0], bytes[1], bytes[2];
      var s := Sextets(bytes);
      BytesOfSextets(bytes[3..]);
      assert s[4..] == Sextets(bytes[3..]);
      assert s[0] * 4 + s[1] / 16 == x && s[1] % 16 * 16 + s[2] / 4 == y && s[2] % 4 * 64 + s[3] == z;
      assert bytes == [x, y, z] + bytes[3..];
    } else if |bytes| == 2 {
      assert bytes == [bytes[0], bytes[1]];
    }
  }

  lemma DecodeEncode(bytes: seq<Byte>)
    ensures AllLetters(Encode(bytes)) && Decode(Encode(bytes)) == bytes
  {
    var text, s := Encode(bytes), Sextets(bytes);
    forall i | 0 <= i < |text| ensures IsLetter(text[i]) && Digit(text[i]) == s[i] {
      DigitOfLetter(s[i]);
    }
    assert seq(|text|, i requires 0 <= i < |text| => Digit(text[i])) == s;
    BytesOfSextets(bytes);
  }

  lemma EncodeInjective(a: seq<Byte>, b: seq<Byte>)
    requires Encode(a) == Encode(b)
    ensures a == b
  {
    DecodeEncode(a);
    DecodeEncode(b);
  }
}
