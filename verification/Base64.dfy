/** Base64 as the gateway encodes images, against an encoder and a decoder by section 4 of RFC 4648. */
module Base64 {
  import opened Options
  import opened Bytes

  const UPPER := "ABCDEFGHIJKLMNOPQRSTUVWXYZ"
  const LOWER := "abcdefghijklmnopqrstuvwxyz"
  const DIGITS := "0123456789"
  const ALPHABET := UPPER + LOWER + DIGITS + "+/"

  // The value of a character, or -1
  function ValueOf(c: char): (v: int)
    ensures v < 64
  {
    if 'A' <= c <= 'Z' then c as int - 'A' as int
    else if 'a' <= c <= 'z' then c as int - 'a' as int + 26
    else if '0' <= c <= '9' then c as int - '0' as int + 52
    else if c == '+' then 62
    else if c == '/' then 63
    else -1
  }

  function CharOf(v: int): char
    requires 0 <= v < 64
  {
    ALPHABET[v]
  }

  lemma UpperAt(v: nat)
    requires v < 26
    ensures UPPER[v] as int == 'A' as int + v
  {
  }

  lemma LowerAt(v: nat)
    requires v < 26
    ensures LOWER[v] as int == 'a' as int + v
  {
  }

  lemma AlphabetInverts(v: int)
    requires 0 <= v < 64
    ensures ValueOf(CharOf(v)) == v && CharOf(v) != '='
  {
    if v < 26 {
      UpperAt(v);
      assert CharOf(v) == UPPER[v];
    } else if v < 52 {
      LowerAt(v - 26);
      assert CharOf(v) == LOWER[v - 26];
    } else if v < 62 {
      assert CharOf(v) == DIGITS[v - 52];
    }
  }

  // The alphabet of table 1 of RFC 4648
  lemma AlphabetIsTable(v: int)
    requires 0 <= v < 64
    ensures CharOf(v) as int ==
            if v < 26 then 'A' as int + v
            else if v < 52 then 'a' as int + v - 26
            else if v < 62 then '0' as int + v - 52 else if v == 62 then '+' as int else '/' as int
  {
    hide CharOf;
    AlphabetInverts(v);
  }

  lemma ValueIsInjective(c: char, d: char)
    requires ValueOf(c) == ValueOf(d) >= 0
    ensures c == d
  {
  }

  lemma ValueInverts(c: char)
    requires ValueOf(c) >= 0
    ensures ValueOf(c) < 64 && CharOf(ValueOf(c)) == c
  {
    hide ValueOf, CharOf;
    AlphabetInverts(ValueOf(c));
    ValueIsInjective(c, CharOf(ValueOf(c)));
  }

  // The four sextets of three bytes, and the three bytes of four sextets
  function Sextet1(a: byte): (v: int)
    ensures 0 <= v < 64
  {
    a as int / 4
  }

  function Sextet2(a: byte, b: byte): (v: int)
    ensures 0 <= v < 64
  {
    a as int % 4 * 16 + b as int / 16
  }

  function Sextet3(b: byte, c: byte): (v: int)
    ensures 0 <= v < 64
  {
    b as int % 16 * 4 + c as int / 64
  }

  function Sextet4(c: byte): (v: int)
    ensures 0 <= v < 64
  {
    c as int % 64
  }

  function Byte1(p: int, q: int): byte
    requires 0 <= p < 64 && 0 <= q < 64
  {
    (p * 4 + q / 16) as byte
  }

  function Byte2(q: int, r: int): byte
    requires 0 <= q < 64 && 0 <= r < 64
  {
    (q % 16 * 16 + r / 4) as byte
  }

  function Byte3(r: int, t: int): byte
    requires 0 <= r < 64 && 0 <= t < 64
  {
    (r % 4 * 64 + t) as byte
  }

  lemma BytesBack(a: byte, b: byte, c: byte)
    ensures Byte1(Sextet1(a), Sextet2(a, b)) == a && Byte2(Sextet2(a, b), Sextet3(b, c)) == b
    ensures Byte3(Sextet3(b, c), Sextet4(c)) == c
  {
  }

  lemma SextetsBack(p: int, q: int, r: int, t: int)
    requires 0 <= p < 64 && 0 <= q < 64 && 0 <= r < 64 && 0 <= t < 64
    ensures Sextet1(Byte1(p, q)) == p && Sextet2(Byte1(p, q), Byte2(q, r)) == q
    ensures Sextet3(Byte2(q, r), Byte3(r, t)) == r && Sextet4(Byte3(r, t)) == t
  {
  }

  // The sextet of a last byte leaves its low bits clear, and such a sextet starts no further byte.
  lemma LastSextets(a: byte, b: byte)
    ensures Sextet2(a, 0) % 16 == 0 && Sextet3(b, 0) % 4 == 0
  {
  }

  lemma NoFurtherByte(q: int, r: int)
    requires 0 <= q < 64 && 0 <= r < 64
    ensures (q % 16 == 0 ==> Byte2(q, 0) == 0) && (r % 4 == 0 ==> Byte3(r, 0) == 0)
  {
  }

  // The encoding of the standard: groups of three bytes, and a last one padded with one or two '='
  function Encode(x: seq<byte>): string {
    if |x| == 0 then ""
    else if |x| == 1 then [CharOf(Sextet1(x[0])), CharOf(Sextet2(x[0], 0)), '=', '=']
    else if |x| == 2 then [CharOf(Sextet1(x[0])), CharOf(Sextet2(x[0], x[1])), CharOf(Sextet3(x[1], 0)), '=']
    else
      [CharOf(Sextet1(x[0])), CharOf(Sextet2(x[0], x[1])), CharOf(Sextet3(x[1], x[2])), CharOf(Sextet4(x[2]))]
      + Encode(x[3..])
  }

  // The examples of section 10 of RFC 4648, for one, two and three bytes
  lemma KnownEncodings()
    ensures Encode([0x66]) == "Zg==" && Encode([0x66, 0x6f]) == "Zm8=" && Encode([0x66, 0x6f, 0x6f]) == "Zm9v"
  {
    hide CharOf;
    AlphabetIsTable(25);
    AlphabetIsTable(32);
    AlphabetIsTable(38);
    AlphabetIsTable(60);
    AlphabetIsTable(61);
    AlphabetIsTable(47);
  }

  // A strict decoder: it takes no other characters, and no bits in the padding.
  function Decode(s: string): Option<seq<byte>> {
    if s == "" then Some([])
    else if |s| < 4 then None
    else
      var p, q, r, t := ValueOf(s[0]), ValueOf(s[1]), ValueOf(s[2]), ValueOf(s[3]);
      if p < 0 || q < 0 then None
      else if |s| == 4 && s[2] == '=' && s[3] == '=' then
        if q % 16 == 0 then Some([Byte1(p, q)]) else None
      else if r < 0 then None
      else if |s| == 4 && s[3] == '=' then
        if r % 4 == 0 then Some([Byte1(p, q), Byte2(q, r)]) else None
      else if t < 0 || Decode(s[4..]).None? then None
      else Some([Byte1(p, q), Byte2(q, r), Byte3(r, t)] + Decode(s[4..]).value)
  }

  lemma {:induction false} DecodeEncode(x: seq<byte>)
    ensures Decode(Encode(x)) == Some(x)
  {
    hide CharOf, ValueOf, Sextet1, Sextet2, Sextet3, Sextet4, Byte1, Byte2, Byte3;
    if |x| > 0 {
      AlphabetInverts(Sextet1(x[0]));
      var b := if |x| > 1 then x[1] else 0;
      var c := if |x| > 2 then x[2] else 0;
      AlphabetInverts(Sextet2(x[0], b));
      AlphabetInverts(Sextet3(b, c));
      AlphabetInverts(Sextet4(c));
      BytesBack(x[0], b, c);
      LastSextets(x[0], b);
      EqualsIsNone();
      if |x| == 1 {
        assert Encode(x) == [CharOf(Sextet1(x[0])), CharOf(Sextet2(x[0], b)), '=', '='] && x == [x[0]];
      } else if |x| == 2 {
        assert Encode(x) == [CharOf(Sextet1(x[0])), CharOf(Sextet2(x[0], b)), CharOf(Sextet3(b, c)), '=']
          && x == [x[0], b];
      } else {
        DecodeEncode(x[3..]);
        var e := Encode(x);
        assert e[..4] == [CharOf(Sextet1(x[0])), CharOf(Sextet2(x[0], b)), CharOf(Sextet3(b, c)), CharOf(Sextet4(c))];
        assert e[4..] == Encode(x[3..]);
        assert e[0] == e[..4][0] && e[1] == e[..4][1] && e[2] == e[..4][2] && e[3] == e[..4][3];
        assert x == [x[0], b, c] + x[3..];
      }
    }
  }

  lemma EqualsIsNone()
    ensures ValueOf('=') == -1
  {
  }

  // What the decoder takes is an encoding, so that no two texts stand for the same bytes.
  lemma {:induction false} EncodeDecode(s: string)
    requires Decode(s).Some?
    ensures Encode(Decode(s).value) == s
  {
    hide CharOf, ValueOf, Sextet1, Sextet2, Sextet3, Sextet4, Byte1, Byte2, Byte3;
    if s != "" {
      var p, q, r, t := ValueOf(s[0]), ValueOf(s[1]), ValueOf(s[2]), ValueOf(s[3]);
      ValueInverts(s[0]);
      ValueInverts(s[1]);
      EqualsIsNone();
      if r < 0 {
        SextetsBack(p, q, 0, 0);
        NoFurtherByte(q, 0);
      } else if t < 0 {
        ValueInverts(s[2]);
        SextetsBack(p, q, r, 0);
        NoFurtherByte(q, r);
      } else {
        ValueInverts(s[2]);
        ValueInverts(s[3]);
        SextetsBack(p, q, r, t);
        EncodeDecode(s[4..]);
      }
    }
  }

  // What the loop writes: every group in full, with zeros for the bytes that are not there
  function Raw(x: seq<byte>): string
    decreases |x|
  {
    if |x| == 0 then ""
    else
      var b := if |x| > 1 then x[1] else 0;
      var c := if |x| > 2 then x[2] else 0;
      Group(x[0], b, c) + Raw(if |x| > 3 then x[3..] else [])
  }

  function Group(a: byte, b: byte, c: byte): (r: string)
    ensures |r| == 4
  {
    var t := (a as int * 256 + b as int) * 256 + c as int;
    [CharOf(t / 0x40000 % 64), CharOf(t / 0x1000 % 64), CharOf(t / 0x40 % 64), CharOf(t % 64)]
  }

  lemma GroupSextets(a: byte, b: byte, c: byte)
    ensures Group(a, b, c) == [CharOf(Sextet1(a)), CharOf(Sextet2(a, b)), CharOf(Sextet3(b, c)), CharOf(Sextet4(c))]
  {
    hide Sextet1, Sextet2, Sextet3, Sextet4, CharOf;
    SextetDigits(Sextet1(a), Sextet2(a, b), Sextet3(b, c), Sextet4(c));
    WordOfSextets(a, b, c);
  }

  lemma WordOfSextets(a: byte, b: byte, c: byte)
    ensures (a as int * 256 + b as int) * 256 + c as int ==
            ((Sextet1(a) * 64 + Sextet2(a, b)) * 64 + Sextet3(b, c)) * 64 + Sextet4(c)
  {
  }

  lemma SextetDigits(p: int, q: int, r: int, t: int)
    requires 0 <= p < 64 && 0 <= q < 64 && 0 <= r < 64 && 0 <= t < 64
    ensures var n := ((p * 64 + q) * 64 + r) * 64 + t;
            n / 0x40000 % 64 == p && n / 0x1000 % 64 == q && n / 0x40 % 64 == r && n % 64 == t
  {
  }

  function Padding(x: seq<byte>): nat {
    (3 - |x| % 3) % 3
  }

  function Equals(n: nat): (r: string)
    ensures |r| == n
  {
    seq(n, _ => '=')
  }

  // Replacing the characters of the bytes that are not there by '=' gives the encoding.
  lemma {:induction false} RawPadded(x: seq<byte>)
    ensures |Raw(x)| == 4 * ((|x| + 2) / 3) && Padding(x) <= |Raw(x)|
    ensures Encode(x) == Raw(x)[..|Raw(x)| - Padding(x)] + Equals(Padding(x))
  {
    hide CharOf, Sextet1, Sextet2, Sextet3, Sextet4, Group, Encode, Raw;
    if 0 < |x| <= 3 {
      RawPaddedShort(x);
    } else if |x| > 3 {
      RawPadded(x[3..]);
      RawPaddedLong(x);
    } else {
      assert Raw(x) == "" == Encode(x) by { RawOfNothing(); }
    }
  }

  lemma RawOfNothing()
    ensures Raw([]) == "" == Encode([])
  {
  }

  lemma RawPaddedShort(x: seq<byte>)
    requires 0 < |x| <= 3
    ensures |Raw(x)| == 4 && Encode(x) == Raw(x)[..4 - Padding(x)] + Equals(Padding(x))
  {
    hide CharOf, Sextet1, Sextet2, Sextet3, Sextet4, Group;
    GroupSextets(x[0], if |x| > 1 then x[1] else 0, if |x| > 2 then x[2] else 0);
    assert Raw([]) == "" && Encode([]) == "" && (|x| == 3 ==> x[3..] == []);
  }

  lemma RawPaddedLong(x: seq<byte>)
    requires |x| > 3
    ensures Raw(x) == Group(x[0], x[1], x[2]) + Raw(x[3..]) && Encode(x) == Group(x[0], x[1], x[2]) + Encode(x[3..])
  {
    hide CharOf, Sextet1, Sextet2, Sextet3, Sextet4, Group;
    GroupSextets(x[0], x[1], x[2]);
  }

  // local_encode_base64
  method EncodeBase64(input: seq<byte>, output: array<char>) returns (len: int)
    modifies output
    ensures var n := 4 * ((|input| + 2) / 3);
            if n >= output.Length then len == -1 && output[..] == old(output[..])
            else && len == n && output[..n] == Encode(input) && output[n] == '\0'
                 && output[n + 1..] == old(output[n + 1..])
  {
    hide Group, Encode, Raw;
    len := 4 * ((|input| + 2) / 3);
    if len >= output.Length {
      return -1;
    }
    RawPadded(input);
    WriteGroups(input, output);
    PadOver(output, len, Padding(input));
    output[len] := '\0';
  }

  // Replaces the last characters of the first len by '='.
  method PadOver(output: array<char>, len: nat, pad: nat)
    requires pad <= len <= output.Length
    modifies output
    ensures output[..len] == old(output[..len - pad]) + Equals(pad) && output[len..] == old(output[len..])
  {
    for i := 0 to pad
      invariant forall k :: 0 <= k < output.Length ==> output[k] == if len - i <= k < len then '=' else old(output[k])
    {
      output[len - 1 - i] := '=';
    }
    assert output[..len] == old(output[..len - pad]) + Equals(pad);
  }

  method WriteGroup(output: array<char>, j: nat, g: string)
    requires |g| == 4 && j + 4 <= output.Length
    modifies output
    ensures output[..j + 4] == old(output[..j]) + g && output[j + 4..] == old(output[j + 4..])
  {
    output[j], output[j + 1], output[j + 2], output[j + 3] := g[0], g[1], g[2], g[3];
  }

  method WriteGroups(input: seq<byte>, output: array<char>)
    requires |Raw(input)| <= output.Length
    modifies output
    ensures output[..|Raw(input)|] == Raw(input) && output[|Raw(input)|..] == old(output[|Raw(input)|..])
  {
    hide Group;
    var i, j := 0, 0;
    while i < |input|
      invariant i <= |input| && j <= |Raw(input)| && output[..j] + Raw(input[i..]) == Raw(input)
      invariant output[|Raw(input)|..] == old(output[|Raw(input)|..])
    {
      ghost var rest := input[i..];
      var a, b, c: byte := input[i], 0, 0;
      i := i + 1;
      if i < |input| {
        b, i := input[i], i + 1;
      }
      if i < |input| {
        c, i := input[i], i + 1;
      }
      var g := Group(a, b, c);
      assert Raw(rest) == g + Raw(input[i..]);
      WriteGroup(output, j, g);
      j := j + 4;
    }
  }

  // So the decoder gets the input back.
  method EncodeThenDecode(input: seq<byte>, output: array<char>) returns (len: int)
    requires 4 * ((|input| + 2) / 3) < output.Length
    modifies output
    ensures 0 <= len < output.Length && Decode(output[..len]) == Some(input)
  {
    len := EncodeBase64(input, output);
    DecodeEncode(input);
  }
}
