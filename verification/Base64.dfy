/** Base64 with padding: section 4 of RFC 4648. */
module Base64 {
  import opened Wrappers

  type Byte = b: int | 0 <= b < 256

  type Sextet = d: int | 0 <= d < 64

  /** The alphabet of Table 1. */
  function Letter(d: Sextet): (c: char)
    ensures c != '=' && c != '\n'
  {
    if d < 26 then (d + 65) as char
    else if d < 52 then (d + 71) as char
    else if d < 62 then (d - 4) as char
    else if d == 62 then '+' else '/'
  }

  function Value(c: char): Option<Sextet> {
    var n := c as int;
    if 65 <= n <= 90 then Some(n - 65)
    else if 97 <= n <= 122 then Some(n - 71)
    else if 48 <= n <= 57 then Some(n + 4)
    else if c == '+' then Some(62)
    else if c == '/' then Some(63)
    else None
  }

  lemma {:induction false} ValueOfLetter(d: Sextet)
    ensures Value(Letter(d)) == Some(d)
  {
  }

  /** The alphabet, written out. */
  lemma {:induction false} Alphabet()
    ensures seq(26, i requires 0 <= i < 26 => Letter(i)) == "ABCDEFGHIJKLMNOPQRSTUVWXYZ"
    ensures seq(26, i requires 0 <= i < 26 => Letter(26 + i)) == "abcdefghijklmnopqrstuvwxyz"
    ensures seq(12, i requires 0 <= i < 12 => Letter(52 + i)) == "0123456789+/"
  {
  }

  /** The four sextets of three octets. */
  function Quad(a: Byte, b: Byte, c: Byte): (q: seq<Sextet>)
    ensures |q| == 4
  {
    [a / 4, (a % 4) * 16 + b / 16, (b % 16) * 4 + c / 64, c % 64]
  }

  /** The three octets of four sextets. */
  function Octets(p: int, q: int, r: int, s: int): (bytes: seq<Byte>)
    requires 0 <= p < 64 && 0 <= q < 64 && 0 <= r < 64 && 0 <= s < 64
    ensures |bytes| == 3
  {
    [p * 4 + q / 16, (q % 16) * 16 + r / 4, (r % 4) * 64 + s]
  }

  /** A number in two digits of a base, for the bases of the sextets that share octets. */
  lemma {:induction false} DigitsBase4(high: int, low: int)
    requires 0 <= low < 4
    ensures (high * 4 + low) / 4 == high && (high * 4 + low) % 4 == low
  {
  }

  lemma {:induction false} DigitsBase16(high: int, low: int)
    requires 0 <= low < 16
    ensures (high * 16 + low) / 16 == high && (high * 16 + low) % 16 == low
  {
  }

  /** The two halves of a sextet that takes bits of two octets. */
  lemma {:induction false} SharedSextets(a: Byte, b: Byte, c: Byte)
    ensures var q: seq<int> := Quad(a, b, c);
            && q[1] / 16 == a % 4 && q[1] % 16 == b / 16
            && q[2] / 4 == b % 16 && q[2] % 4 == c / 64
  {
    DigitsBase16(a % 4, b / 16);
    DigitsBase4(b % 16, c / 64);
  }

  /** Three octets and their four sextets are the same 24-bit number, read from the high bits down. */
  lemma {:induction false} QuadIsTheSameNumber(a: Byte, b: Byte, c: Byte)
    ensures var q: seq<int> := Quad(a, b, c);
            q[0] * 262144 + q[1] * 4096 + q[2] * 64 + q[3] == a * 65536 + b * 256 + c
  {
    assert a == a / 4 * 4 + a % 4 && b == b / 16 * 16 + b % 16 && c == c / 64 * 64 + c % 64;
  }

  lemma {:induction false} OctetsOfQuad(a: Byte, b: Byte, c: Byte)
    ensures var q: seq<int> := Quad(a, b, c);
            Octets(q[0], q[1], q[2], q[3]) == [a, b, c]
  {
    SharedSextets(a, b, c);
    assert a == a / 4 * 4 + a % 4 && b == b / 16 * 16 + b % 16 && c == c / 64 * 64 + c % 64;
  }

  /** One group of up to three octets; a short group is padded with '='. */
  function EncodeGroup(g: seq<Byte>): (text: string)
    requires 1 <= |g| <= 3
    ensures |text| == 4 && '\n' !in text
  {
    var q := Quad(g[0], if |g| > 1 then g[1] else 0, if |g| > 2 then g[2] else 0);
    [Letter(q[0]), Letter(q[1]), if |g| > 1 then Letter(q[2]) else '=', if |g| > 2 then Letter(q[3]) else '=']
  }

  function Encode(bytes: seq<Byte>): (text: string)
    ensures bytes != [] ==> |text| >= 4
  {
    if bytes == [] then ""
    else if |bytes| <= 3 then EncodeGroup(bytes)
    else EncodeGroup(bytes[..3]) + Encode(bytes[3..])
  }

  /** Four characters back to a group; the bits that padding cuts off must be zero. */
  function DecodeGroup(text: string): (g: Option<seq<Byte>>)
    requires |text| == 4
    ensures g.Some? ==> 1 <= |g.value| <= 3
  {
    match (Value(text[0]), Value(text[1]), Value(text[2]), Value(text[3]))
    case (Some(p), Some(q), Some(r), Some(s)) => Some(Octets(p, q, r, s))
    case (Some(p), Some(q), Some(r), None) =>
      if text[3] == '=' && r % 4 == 0 then Some(Octets(p, q, r, 0)[..2]) else None
    case (Some(p), Some(q), None, None) =>
      if text[2] == text[3] == '=' && q % 16 == 0 then Some(Octets(p, q, 0, 0)[..1]) else None
    case _ => None
  }

  /** Only the last group may be short. */
  function Decode(text: string): Option<seq<Byte>> {
    if text == "" then Some([])
    else if |text| < 4 then None
    else
      match DecodeGroup(text[..4])
      case None => None
      case Some(g) =>
        if |text| == 4 then Some(g)
        else if |g| < 3 then None
        else
          match Decode(text[4..])
          case None => None
          case Some(rest) => Some(g + rest)
  }

  lemma {:induction false} QuadLetters(a: Byte, b: Byte, c: Byte)
    ensures var q := Quad(a, b, c);
            (forall i :: 0 <= i < 4 ==> Value(Letter(q[i])) == Some(q[i]))
            && Octets(q[0], q[1], q[2], q[3]) == [a, b, c]
  {
    OctetsOfQuad(a, b, c);
    var q := Quad(a, b, c);
    forall i | 0 <= i < 4 ensures Value(Letter(q[i])) == Some(q[i]) {
      ValueOfLetter(q[i]);
    }
  }

  lemma {:induction false} DecodeOfEncodeGroup(g: seq<Byte>)
    requires 1 <= |g| <= 3
    ensures DecodeGroup(EncodeGroup(g)) == Some(g)
  {
    var b := if |g| > 1 then g[1] else 0;
    var c := if |g| > 2 then g[2] else 0;
    QuadLetters(g[0], b, c);
    if |g| == 3 {
      assert [g[0], b, c] == g;
    } else {
      assert [g[0], b, c][..|g|] == g;
      assert |g| == 1 ==> [g[0], b, c][..1] == g;
    }
  }

  /** Decoding undoes encoding, so different octets have different texts. */
  lemma {:induction false} DecodeOfEncode(bytes: seq<Byte>)
    ensures Decode(Encode(bytes)) == Some(bytes)
  {
    if |bytes| > 3 {
      var head, tail := EncodeGroup(bytes[..3]), Encode(bytes[3..]);
      assert (head + tail)[..4] == head && (head + tail)[4..] == tail;
      DecodeOfEncodeGroup(bytes[..3]);
      DecodeOfEncode(bytes[3..]);
      assert bytes == bytes[..3] + bytes[3..];
    } else if bytes != [] {
      DecodeOfEncodeGroup(bytes);
      assert Encode(bytes)[..4] == Encode(bytes);
    }
  }

  /** Every group of up to three octets takes four characters. */
  lemma {:induction false} LengthOfEncode(bytes: seq<Byte>) returns (groups: nat)
    ensures 3 * groups - 3 < |bytes| <= 3 * groups
    ensures |Encode(bytes)| == 4 * groups
  {
    if |bytes| > 3 {
      groups := LengthOfEncode(bytes[3..]);
      groups := groups + 1;
    } else {
      groups := if bytes == [] then 0 else 1;
    }
  }

  lemma {:induction false} EncodeIsOneLine(bytes: seq<Byte>)
    ensures '\n' !in Encode(bytes)
  {
    if |bytes| > 3 {
      EncodeIsOneLine(bytes[3..]);
    }
  }

  /** Whole groups of three octets encode on their own. */
  lemma {:induction false} EncodeConcat(groups: nat, a: seq<Byte>, b: seq<Byte>)
    requires |a| == 3 * groups
    ensures Encode(a + b) == Encode(a) + Encode(b)
  {
    if groups == 0 {
      assert a + b == b;
    } else {
      EncodeConcat(groups - 1, a[3..], b);
      EncodeHead(a[..3], a[3..], b);
      assert a == a[..3] + a[3..];
    }
  }

  lemma {:induction false} EncodeHead(head: seq<Byte>, rest: seq<Byte>, b: seq<Byte>)
    requires |head| == 3
    requires Encode(rest + b) == Encode(rest) + Encode(b)
    ensures Encode(head + rest + b) == Encode(head + rest) + Encode(b)
  {
    var group := GroupOf(head);
    Associative(head, rest, b);
    Associative(group, Encode(rest), Encode(b));
  }

  lemma {:induction false} Associative<T>(x: seq<T>, y: seq<T>, z: seq<T>)
    ensures x + y + z == x + (y + z)
  {
  }

  lemma {:induction false} GroupOf(head: seq<Byte>) returns (group: string)
    requires |head| == 3
    ensures forall rest: seq<Byte> {:trigger Encode(head + rest)} :: Encode(head + rest) == group + Encode(rest)
  {
    group := EncodeGroup(head);
    forall rest: seq<Byte> ensures Encode(head + rest) == group + Encode(rest) {
      EncodeCons(head, rest);
    }
  }

  lemma {:induction false} EncodeCons(head: seq<Byte>, rest: seq<Byte>)
    requires |head| == 3
    ensures Encode(head + rest) == EncodeGroup(head) + Encode(rest)
  {
    assert (head + rest)[..3] == head && (head + rest)[3..] == rest;
    if rest == [] {
      assert head + rest == head;
    }
  }

  /** A last group of one octet is padded by zero bits and two characters. */
  lemma {:induction false} PaddingOfOne(a: Byte)
    ensures Encode([a]) == [Letter(a / 4), Letter(a % 4 * 16)] + "=="
  {
    assert Quad(a, 0, 0)[1] == a % 4 * 16;
  }

  /** A last group of two octets is padded by zero bits and one character. */
  lemma {:induction false} PaddingOfTwo(a: Byte, b: Byte)
    ensures Encode([a, b]) == [Letter(a / 4), Letter(a % 4 * 16 + b / 16), Letter(b % 16 * 4)] + "="
  {
    assert Quad(a, b, 0)[2] == b % 16 * 4;
  }
}
