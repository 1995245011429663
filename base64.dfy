/** The base 64 encoding of section 4 of RFC 4648 (standard alphabet, `=` padding), which
    `S3CSVTarget` applies to the gzip bytes of a compressed CSV (Python's `base64.b64encode`
    and `base64.b64decode`). */
module Base64 {
  import opened Common

  /** The character of sextet `i` in the alphabet of Table 1 of RFC 4648. */
  function CharOf(i: int): (c: char)
    requires 0 <= i < 64
    ensures IndexOf(c) == i
  {
    if i < 26 then (65 + i) as char
    else if i < 52 then (97 + i - 26) as char
    else if i < 62 then (48 + i - 52) as char
    else if i == 62 then '+'
    else '/'
  }

  /** The sextet of an alphabet character, or -1 for any other character (`=` included). */
  function IndexOf(c: char): (i: int)
    ensures -1 <= i < 64
    ensures i == -1 <==> !('A' <= c <= 'Z' || 'a' <= c <= 'z' || '0' <= c <= '9' || c == '+' || c == '/')
  {
    if 'A' <= c <= 'Z' then c as int - 65
    else if 'a' <= c <= 'z' then c as int - 97 + 26
    else if '0' <= c <= '9' then c as int - 48 + 52
    else if c == '+' then 62
    else if c == '/' then 63
    else -1
  }

  predicate IsAlphabet(c: char) { IndexOf(c) >= 0 }

  /** Three bytes as four characters (section 4 of RFC 4648: the 24-bit group split into
      four sextets). */
  function EncodeGroup(b0: byte, b1: byte, b2: byte): string
  {
    [CharOf(b0 / 4), CharOf((b0 % 4) * 16 + b1 / 16), CharOf((b1 % 16) * 4 + b2 / 64), CharOf(b2 % 64)]
  }

  /** The final quantum of exactly one byte: two characters and `==`. */
  function EncodeOne(b0: byte): string
  {
    [CharOf(b0 / 4), CharOf((b0 % 4) * 16), '=', '=']
  }

  /** The final quantum of exactly two bytes: three characters and `=`. */
  function EncodeTwo(b0: byte, b1: byte): string
  {
    [CharOf(b0 / 4), CharOf((b0 % 4) * 16 + b1 / 16), CharOf((b1 % 16) * 4), '=']
  }

  /** `base64.b64encode`: every output quantum is four characters. */
  function Encode(b: seq<byte>): (s: string)
    ensures |s| == 4 * ((|b| + 2) / 3)
    decreases |b|
  {
    if |b| == 0 then []
    else if |b| == 1 then EncodeOne(b[0])
    else if |b| == 2 then EncodeTwo(b[0], b[1])
    else EncodeGroup(b[0], b[1], b[2]) + Encode(b[3..])
  }

  /** Four alphabet characters back to three bytes; `None` when one is outside the alphabet. */
  function DecodeGroup(q: string): Option<seq<byte>>
    requires |q| == 4
  {
    var i0, i1, i2, i3 := IndexOf(q[0]), IndexOf(q[1]), IndexOf(q[2]), IndexOf(q[3]);
    if i0 < 0 || i1 < 0 || i2 < 0 || i3 < 0 then None
    else Some([i0 * 4 + i1 / 16, (i1 % 16) * 16 + i2 / 4, (i2 % 4) * 64 + i3])
  }

  /** The last quantum, which may carry one or two `=` pad characters. As in Python's
      decoder, bits below the last whole byte are dropped, not checked. */
  function DecodeLast(q: string): Option<seq<byte>>
    requires |q| == 4
  {
    var i0, i1, i2 := IndexOf(q[0]), IndexOf(q[1]), IndexOf(q[2]);
    if q[2] == '=' && q[3] == '=' then
      if i0 < 0 || i1 < 0 then None else Some([i0 * 4 + i1 / 16])
    else if q[3] == '=' then
      if i0 < 0 || i1 < 0 || i2 < 0 then None
      else Some([i0 * 4 + i1 / 16, (i1 % 16) * 16 + i2 / 4])
    else DecodeGroup(q)
  }

  /** `base64.b64decode` on text made of whole quanta with padding only at the end;
      anything else is a decoding error (`None`). */
  function Decode(s: string): (r: Option<seq<byte>>)
    ensures r.Some? ==> |s| % 4 == 0
    decreases |s|
  {
    if |s| == 0 then Some([])
    else if |s| < 4 then None
    else if |s| == 4 then DecodeLast(s)
    else match DecodeGroup(s[..4])
      case None => None
      case Some(head) =>
        match Decode(s[4..])
        case None => None
        case Some(tail) => Some(head + tail)
  }

  /** Splitting `q * d + r` by `d` gives back `q` and `r`, for the three divisors used. */
  lemma DivMod4(q: int, r: int)
    requires 0 <= r < 4
    ensures (q * 4 + r) / 4 == q && (q * 4 + r) % 4 == r
  {
  }

  lemma DivMod16(q: int, r: int)
    requires 0 <= r < 16
    ensures (q * 16 + r) / 16 == q && (q * 16 + r) % 16 == r
  {
  }

  lemma DivMod64(q: int, r: int)
    requires 0 <= r < 64
    ensures (q * 64 + r) / 64 == q && (q * 64 + r) % 64 == r
  {
  }

  lemma GroupRoundTrip(b0: byte, b1: byte, b2: byte)
    ensures DecodeGroup(EncodeGroup(b0, b1, b2)) == Some([b0, b1, b2])
  {
    var q := EncodeGroup(b0, b1, b2);
    var i0, i1, i2, i3 := b0 / 4, (b0 % 4) * 16 + b1 / 16, (b1 % 16) * 4 + b2 / 64, b2 % 64;
    assert IndexOf(q[0]) == i0 && IndexOf(q[1]) == i1 && IndexOf(q[2]) == i2 && IndexOf(q[3]) == i3;
    DivMod16(b0 % 4, b1 / 16);
    DivMod4(b1 % 16, b2 / 64);
    DivMod4(b0 / 4, b0 % 4);
    DivMod16(b1 / 16, b1 % 16);
    DivMod64(b2 / 64, b2 % 64);
    assert i0 * 4 + i1 / 16 == b0;
    assert (i1 % 16) * 16 + i2 / 4 == b1;
    assert (i2 % 4) * 64 + i3 == b2;
  }

  lemma OneRoundTrip(b0: byte)
    ensures DecodeLast(EncodeOne(b0)) == Some([b0])
  {
    var q := EncodeOne(b0);
    var i0, i1 := b0 / 4, (b0 % 4) * 16;
    assert IndexOf(q[0]) == i0 && IndexOf(q[1]) == i1;
    DivMod16(b0 % 4, 0);
    DivMod4(b0 / 4, b0 % 4);
    assert i0 * 4 + i1 / 16 == b0;
  }

  lemma TwoRoundTrip(b0: byte, b1: byte)
    ensures DecodeLast(EncodeTwo(b0, b1)) == Some([b0, b1])
  {
    var q := EncodeTwo(b0, b1);
    var i0, i1, i2 := b0 / 4, (b0 % 4) * 16 + b1 / 16, (b1 % 16) * 4;
    assert IndexOf(q[0]) == i0 && IndexOf(q[1]) == i1 && IndexOf(q[2]) == i2;
    DivMod16(b0 % 4, b1 / 16);
    DivMod4(b1 % 16, 0);
    DivMod4(b0 / 4, b0 % 4);
    DivMod16(b1 / 16, b1 % 16);
    assert i0 * 4 + i1 / 16 == b0;
    assert (i1 % 16) * 16 + i2 / 4 == b1;
  }

  /** A character of the alphabet is not the pad character. */
  lemma CharOfNotPad(i: int)
    requires 0 <= i < 64
    ensures CharOf(i) != '='
  {
    assert IndexOf('=') == -1;
  }

  /** A whole group of three bytes, alone, decodes as the last quantum. */
  lemma ThreeRoundTrip(b: seq<byte>)
    requires |b| == 3
    ensures Decode(Encode(b)) == Some(b)
  {
    var g := EncodeGroup(b[0], b[1], b[2]);
    assert Encode(b[3..]) == [];
    assert Encode(b) == g;
    CharOfNotPad(b[2] % 64);
    assert g[3] != '=' && g[2] != '=';
    GroupRoundTrip(b[0], b[1], b[2]);
    assert b == [b[0], b[1], b[2]];
  }

  /** Decoding a full group followed by more text. */
  lemma DecodeCons(g: string, rest: string, head: seq<byte>)
    requires |g| == 4 && |rest| > 0 && DecodeGroup(g) == Some(head)
    ensures Decode(g + rest) == (if Decode(rest).Some? then Some(head + Decode(rest).value) else None)
  {
    var s := g + rest;
    assert s[..4] == g && s[4..] == rest;
  }

  /** Decoding inverts encoding on every byte string (read-after-write of a compressed CSV). */
  lemma {:induction false} DecodeEncode(b: seq<byte>)
    ensures Decode(Encode(b)) == Some(b)
    decreases |b|
  {
    if |b| == 1 {
      OneRoundTrip(b[0]);
      assert b == [b[0]];
    } else if |b| == 2 {
      TwoRoundTrip(b[0], b[1]);
      assert b == [b[0], b[1]];
    } else if |b| == 3 {
      ThreeRoundTrip(b);
    } else if |b| > 3 {
      var g := EncodeGroup(b[0], b[1], b[2]);
      GroupRoundTrip(b[0], b[1], b[2]);
      DecodeEncode(b[3..]);
      assert Encode(b) == g + Encode(b[3..]);
      DecodeCons(g, Encode(b[3..]), [b[0], b[1], b[2]]);
      assert b == [b[0], b[1], b[2]] + b[3..];
    }
  }

  /** Every character of an encoding is in the alphabet or is the pad character. */
  lemma {:induction false} EncodeAlphabet(b: seq<byte>)
    ensures forall k :: 0 <= k < |Encode(b)| ==> IsAlphabet(Encode(b)[k]) || Encode(b)[k] == '='
    decreases |b|
  {
    if |b| > 2 {
      EncodeAlphabet(b[3..]);
      var s := Encode(b);
      assert s == EncodeGroup(b[0], b[1], b[2]) + Encode(b[3..]);
    }
  }
}
