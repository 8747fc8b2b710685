/** Standard Base64 ("base64" alphabet with `=` padding, section 4 of RFC
    4648), as Go's `base64.StdEncoding.EncodeToString` produces it, and a
    strict decoder that is its exact inverse. */
module Base64 {
  import opened Wrappers
  import opened GoStrings

  /** Table 1 of RFC 4648: values 0..25 are 'A'..'Z', 26..51 are 'a'..'z',
      52..61 are '0'..'9', 62 is '+' and 63 is '/'. */
  function Char64(i: int): char
    requires 0 <= i < 64
  {
    if i < 26 then ('A' as int + i) as char
    else if i < 52 then ('a' as int + (i - 26)) as char
    else if i < 62 then ('0' as int + (i - 52)) as char
    else if i == 62 then '+'
    else '/'
  }

  predicate IsAlphabetChar(c: char) {
    ('A' <= c <= 'Z') || ('a' <= c <= 'z') || ('0' <= c <= '9') || c == '+' || c == '/'
  }

  const PadChar: char := '='

  /** The value a character of the alphabet stands for. */
  function Index64(c: char): (i: int)
    requires IsAlphabetChar(c)
    ensures 0 <= i < 64 && Char64(i) == c
  {
    if 'A' <= c <= 'Z' then c as int - 'A' as int
    else if 'a' <= c <= 'z' then c as int - 'a' as int + 26
    else if '0' <= c <= '9' then c as int - '0' as int + 52
    else if c == '+' then 62
    else 63
  }

  lemma Index64OfChar64(i: int)
    requires 0 <= i < 64
    ensures IsAlphabetChar(Char64(i)) && Index64(Char64(i)) == i
  {
  }

  /** Four characters for three bytes: each character carries six bits,
      most significant first. */
  function Group(b0: byte, b1: byte, b2: byte): string {
    [Char64(b0 / 4), Char64((b0 % 4) * 16 + b1 / 16), Char64((b1 % 16) * 4 + b2 / 64), Char64(b2 % 64)]
  }

  /** The output of every group of three input bytes or fewer, most
      significant bits first. */
  function EncodeToString(d: seq<byte>): (s: string)
    ensures |s| == 4 * ((|d| + 2) / 3)
    decreases |d|
  {
    if |d| == 0 then ""
    else if |d| == 1 then
      [Char64(d[0] / 4), Char64((d[0] % 4) * 16), PadChar, PadChar]
    else if |d| == 2 then
      [Char64(d[0] / 4), Char64((d[0] % 4) * 16 + d[1] / 16), Char64((d[1] % 16) * 4), PadChar]
    else
      Group(d[0], d[1], d[2]) + EncodeToString(d[3..])
  }

  /** A group of four alphabet characters, no padding, as three bytes. */
  function DecodeFullQuad(q: string): (r: Option<seq<byte>>)
    requires |q| == 4
    ensures r.Some? ==> |r.value| == 3
  {
    if IsAlphabetChar(q[0]) && IsAlphabetChar(q[1]) && IsAlphabetChar(q[2]) && IsAlphabetChar(q[3]) then
      var i0, i1, i2, i3 := Index64(q[0]), Index64(q[1]), Index64(q[2]), Index64(q[3]);
      Some([i0 * 4 + i1 / 16, (i1 % 16) * 16 + i2 / 4, (i2 % 4) * 64 + i3])
    else None
  }

  /** The final group, which may end in one or two padding characters; the
      bits the padding leaves over must be zero (canonical encoding). */
  function DecodeLastQuad(q: string): Option<seq<byte>>
    requires |q| == 4
  {
    if q[2] == PadChar && q[3] == PadChar then
      if IsAlphabetChar(q[0]) && IsAlphabetChar(q[1]) && Index64(q[1]) % 16 == 0 then
        Some([Index64(q[0]) * 4 + Index64(q[1]) / 16])
      else None
    else if q[3] == PadChar then
      if IsAlphabetChar(q[0]) && IsAlphabetChar(q[1]) && IsAlphabetChar(q[2]) && Index64(q[2]) % 4 == 0 then
        var i0, i1, i2 := Index64(q[0]), Index64(q[1]), Index64(q[2]);
        Some([i0 * 4 + i1 / 16, (i1 % 16) * 16 + i2 / 4])
      else None
    else DecodeFullQuad(q)
  }

  /** Strict decoding: only canonical Standard Base64 text is accepted. */
  function Decode(s: string): Option<seq<byte>>
    decreases |s|
  {
    if |s| == 0 then Some([])
    else if |s| < 4 then None
    else if |s| == 4 then DecodeLastQuad(s)
    else match DecodeFullQuad(s[..4])
      case None => None
      case Some(head) =>
        match Decode(s[4..])
        case None => None
        case Some(tail) => Some(head + tail)
  }

  /** Every output character is from the alphabet or is the padding character. */
  lemma {:induction false} EncodeUsesAlphabet(d: seq<byte>)
    ensures forall k :: 0 <= k < |EncodeToString(d)| ==> IsAlphabetChar(EncodeToString(d)[k]) || EncodeToString(d)[k] == PadChar
    decreases |d|
  {
    if |d| >= 3 {
      EncodeUsesAlphabet(d[3..]);
      Index64OfChar64(d[0] / 4);
      Index64OfChar64((d[0] % 4) * 16 + d[1] / 16);
      Index64OfChar64((d[1] % 16) * 4 + d[2] / 64);
      Index64OfChar64(d[2] % 64);
    } else if |d| == 2 {
      Index64OfChar64(d[0] / 4);
      Index64OfChar64((d[0] % 4) * 16 + d[1] / 16);
      Index64OfChar64((d[1] % 16) * 4);
    } else if |d| == 1 {
      Index64OfChar64(d[0] / 4);
      Index64OfChar64((d[0] % 4) * 16);
    }
  }

  lemma {:induction false} EncodeEmptyIffEmpty(d: seq<byte>)
    ensures EncodeToString(d) == "" <==> d == []
  {
  }

  /** The four sextets of three bytes, and the bytes rebuilt from them. */
  lemma SplitBytes(b0: byte, b1: byte, b2: byte)
    ensures 0 <= b0 / 4 < 64 && 0 <= (b0 % 4) * 16 + b1 / 16 < 64
    ensures 0 <= (b1 % 16) * 4 + b2 / 64 < 64 && 0 <= b2 % 64 < 64
    ensures (b0 / 4) * 4 + ((b0 % 4) * 16 + b1 / 16) / 16 == b0
    ensures (((b0 % 4) * 16 + b1 / 16) % 16) * 16 + ((b1 % 16) * 4 + b2 / 64) / 4 == b1
    ensures (((b1 % 16) * 4 + b2 / 64) % 4) * 64 + b2 % 64 == b2
  {
  }

  /** The three bytes of four sextets, and the sextets rebuilt from them. */
  lemma JoinSextets(i0: int, i1: int, i2: int, i3: int)
    requires 0 <= i0 < 64 && 0 <= i1 < 64 && 0 <= i2 < 64 && 0 <= i3 < 64
    ensures 0 <= i0 * 4 + i1 / 16 < 256 && 0 <= (i1 % 16) * 16 + i2 / 4 < 256 && 0 <= (i2 % 4) * 64 + i3 < 256
    ensures (i0 * 4 + i1 / 16) / 4 == i0
    ensures ((i0 * 4 + i1 / 16) % 4) * 16 + ((i1 % 16) * 16 + i2 / 4) / 16 == i1
    ensures (((i1 % 16) * 16 + i2 / 4) % 16) * 4 + ((i2 % 4) * 64 + i3) / 64 == i2
    ensures ((i2 % 4) * 64 + i3) % 64 == i3
  {
  }

  /** Three bytes survive one group of the encoding. */
  lemma FullGroupRoundTrip(b0: byte, b1: byte, b2: byte)
    ensures DecodeFullQuad(Group(b0, b1, b2)) == Some([b0, b1, b2])
  {
    var i0, i1, i2, i3 := b0 / 4, (b0 % 4) * 16 + b1 / 16, (b1 % 16) * 4 + b2 / 64, b2 % 64;
    SplitBytes(b0, b1, b2);
    Index64OfChar64(i0);
    Index64OfChar64(i1);
    Index64OfChar64(i2);
    Index64OfChar64(i3);
    var q := Group(b0, b1, b2);
    assert q == [Char64(i0), Char64(i1), Char64(i2), Char64(i3)];
    assert Index64(q[0]) == i0 && Index64(q[1]) == i1 && Index64(q[2]) == i2 && Index64(q[3]) == i3;
  }

  lemma OneByteRoundTrip(b0: byte)
    ensures Decode(EncodeToString([b0])) == Some([b0])
  {
    var i0, i1 := b0 / 4, (b0 % 4) * 16;
    Index64OfChar64(i0);
    Index64OfChar64(i1);
    var s := EncodeToString([b0]);
    assert s == [Char64(i0), Char64(i1), PadChar, PadChar];
    assert Index64(s[0]) == i0 && Index64(s[1]) == i1;
    assert i0 * 4 + i1 / 16 == b0;
    assert DecodeLastQuad(s) == Some([b0]);
  }

  lemma TwoByteRoundTrip(b0: byte, b1: byte)
    ensures Decode(EncodeToString([b0, b1])) == Some([b0, b1])
  {
    var i0, i1, i2 := b0 / 4, (b0 % 4) * 16 + b1 / 16, (b1 % 16) * 4;
    Index64OfChar64(i0);
    Index64OfChar64(i1);
    Index64OfChar64(i2);
    var s := EncodeToString([b0, b1]);
    assert s == [Char64(i0), Char64(i1), Char64(i2), PadChar];
    assert Index64(s[0]) == i0 && Index64(s[1]) == i1 && Index64(s[2]) == i2;
    assert i0 * 4 + i1 / 16 == b0;
    assert (i1 % 16) * 16 + i2 / 4 == b1;
    assert DecodeLastQuad(s) == Some([b0, b1]);
  }

  lemma ThreeByteRoundTrip(b0: byte, b1: byte, b2: byte)
    ensures Decode(EncodeToString([b0, b1, b2])) == Some([b0, b1, b2])
  {
    var q := Group(b0, b1, b2);
    var d := [b0, b1, b2];
    assert d[3..] == [];
    assert EncodeToString(d) == q;
    FullGroupRoundTrip(b0, b1, b2);
    Index64OfChar64((b1 % 16) * 4 + b2 / 64);
    Index64OfChar64(b2 % 64);
    assert q[3] != PadChar && q[2] != PadChar;
    assert DecodeLastQuad(q) == DecodeFullQuad(q);
  }

  /** Decoding a full leading group followed by at least one more group. */
  lemma DecodeCons(q: string, rest: string)
    requires |q| == 4 && |rest| >= 4
    ensures Decode(q + rest) ==
      match DecodeFullQuad(q)
      case None => None
      case Some(head) =>
        match Decode(rest)
        case None => None
        case Some(tail) => Some(head + tail)
  {
    var s := q + rest;
    assert s[..4] == q;
    assert s[4..] == rest;
  }

  /** One group more: the round trip extends from `d[3..]` to `d`. */
  lemma DecodeEncodeStep(d: seq<byte>)
    requires |d| > 3
    requires Decode(EncodeToString(d[3..])) == Some(d[3..])
    ensures Decode(EncodeToString(d)) == Some(d)
  {
    var q := Group(d[0], d[1], d[2]);
    var rest := EncodeToString(d[3..]);
    assert EncodeToString(d) == q + rest;
    FullGroupRoundTrip(d[0], d[1], d[2]);
    DecodeCons(q, rest);
    SplitThree(d);
  }

  lemma SplitThree(d: seq<byte>)
    requires |d| >= 3
    ensures d == [d[0], d[1], d[2]] + d[3..]
  {
    assert d[..3] == [d[0], d[1], d[2]];
    assert d == d[..3] + d[3..];
  }

  /** Decoding what the encoder produced gives the original bytes back. */
  lemma {:induction false} DecodeEncode(d: seq<byte>)
    ensures Decode(EncodeToString(d)) == Some(d)
    decreases |d|
  {
    if |d| == 1 {
      assert d == [d[0]];
      OneByteRoundTrip(d[0]);
    } else if |d| == 2 {
      assert d == [d[0], d[1]];
      TwoByteRoundTrip(d[0], d[1]);
    } else if |d| == 3 {
      assert d == [d[0], d[1], d[2]];
      ThreeByteRoundTrip(d[0], d[1], d[2]);
    } else if |d| > 3 {
      DecodeEncode(d[3..]);
      DecodeEncodeStep(d);
    }
  }

  /** Decoding accepts only what the encoder produces: the decoder is strict. */
  lemma {:induction false} EncodeDecode(s: string)
    requires Decode(s).Some?
    ensures EncodeToString(Decode(s).value) == s
    decreases |s|
  {
    if |s| == 0 {
    } else if |s| == 4 {
      LastQuadCanonical(s);
    } else {
      var head := DecodeFullQuad(s[..4]).value;
      var tail := Decode(s[4..]).value;
      assert Decode(s) == Some(head + tail);
      EncodeDecode(s[4..]);
      FullQuadCanonical(s[..4]);
      EncodeCons(head[0], head[1], head[2], tail);
      assert head == [head[0], head[1], head[2]];
      assert s == s[..4] + s[4..];
    }
  }

  lemma EncodeCons(b0: byte, b1: byte, b2: byte, tail: seq<byte>)
    ensures EncodeToString([b0, b1, b2] + tail) == Group(b0, b1, b2) + EncodeToString(tail)
  {
    var d := [b0, b1, b2] + tail;
    assert d[3..] == tail;
  }

  /** Encoding the three bytes of four sextets gives those sextets back. */
  lemma GroupOfSextets(i0: int, i1: int, i2: int, i3: int)
    requires 0 <= i0 < 64 && 0 <= i1 < 64 && 0 <= i2 < 64 && 0 <= i3 < 64
    ensures 0 <= i0 * 4 + i1 / 16 < 256 && 0 <= (i1 % 16) * 16 + i2 / 4 < 256 && 0 <= (i2 % 4) * 64 + i3 < 256
    ensures Group(i0 * 4 + i1 / 16, (i1 % 16) * 16 + i2 / 4, (i2 % 4) * 64 + i3) == [Char64(i0), Char64(i1), Char64(i2), Char64(i3)]
  {
    JoinSextets(i0, i1, i2, i3);
  }

  lemma FullQuadCanonical(q: string)
    requires |q| == 4 && DecodeFullQuad(q).Some?
    ensures var b := DecodeFullQuad(q).value; Group(b[0], b[1], b[2]) == q
  {
    var i0, i1, i2, i3 := Index64(q[0]), Index64(q[1]), Index64(q[2]), Index64(q[3]);
    GroupOfSextets(i0, i1, i2, i3);
    assert q == [Char64(i0), Char64(i1), Char64(i2), Char64(i3)];
  }

  /** The byte of two sextets whose low four bits are zero. */
  lemma JoinTwoSextets(i0: int, i1: int)
    requires 0 <= i0 < 64 && 0 <= i1 < 64 && i1 % 16 == 0
    ensures 0 <= i0 * 4 + i1 / 16 < 256
    ensures (i0 * 4 + i1 / 16) / 4 == i0 && ((i0 * 4 + i1 / 16) % 4) * 16 == i1
  {
  }

  /** The two bytes of three sextets whose low two bits are zero. */
  lemma JoinThreeSextets(i0: int, i1: int, i2: int)
    requires 0 <= i0 < 64 && 0 <= i1 < 64 && 0 <= i2 < 64 && i2 % 4 == 0
    ensures 0 <= i0 * 4 + i1 / 16 < 256 && 0 <= (i1 % 16) * 16 + i2 / 4 < 256
    ensures (i0 * 4 + i1 / 16) / 4 == i0
    ensures ((i0 * 4 + i1 / 16) % 4) * 16 + ((i1 % 16) * 16 + i2 / 4) / 16 == i1
    ensures (((i1 % 16) * 16 + i2 / 4) % 16) * 4 == i2
  {
  }

  lemma TwoPadCanonical(q: string)
    requires |q| == 4 && q[2] == PadChar && q[3] == PadChar && DecodeLastQuad(q).Some?
    ensures EncodeToString(DecodeLastQuad(q).value) == q
  {
    var i0, i1 := Index64(q[0]), Index64(q[1]);
    JoinTwoSextets(i0, i1);
    assert DecodeLastQuad(q).value == [i0 * 4 + i1 / 16];
    assert q == [Char64(i0), Char64(i1), PadChar, PadChar];
  }

  lemma OnePadCanonical(q: string)
    requires |q| == 4 && q[2] != PadChar && q[3] == PadChar && DecodeLastQuad(q).Some?
    ensures EncodeToString(DecodeLastQuad(q).value) == q
  {
    var i0, i1, i2 := Index64(q[0]), Index64(q[1]), Index64(q[2]);
    JoinThreeSextets(i0, i1, i2);
    assert DecodeLastQuad(q).value == [i0 * 4 + i1 / 16, (i1 % 16) * 16 + i2 / 4];
    assert q == [Char64(i0), Char64(i1), Char64(i2), PadChar];
  }

  lemma LastQuadCanonical(q: string)
    requires |q| == 4 && DecodeLastQuad(q).Some?
    ensures EncodeToString(DecodeLastQuad(q).value) == q
  {
    if q[2] == PadChar && q[3] == PadChar {
      TwoPadCanonical(q);
    } else if q[3] == PadChar {
      OnePadCanonical(q);
    } else {
      var b := DecodeLastQuad(q).value;
      FullQuadCanonical(q);
      assert EncodeToString(b[3..]) == "";
    }
  }
}
