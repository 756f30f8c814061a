/** Base 64 as in section 4 of RFC 4648: the standard alphabet, padded with
    '=', no line breaks (commons-codec `Base64.encodeBase64`, non-chunked).

    Decoding follows commons-codec's lenient `Base64.decodeBase64`: characters
    outside the alphabet are skipped, decoding stops at the first '=', the
    URL-safe characters '-' and '_' are read as 62 and 63, and a single
    trailing 6-bit value that cannot make a whole byte is dropped. Decoding
    therefore never fails. */
module Base64 {

  type Byte = b: int | 0 <= b < 256

  /** A 6-bit value, the index of a character of the alphabet. */
  type Sextet = v: int | 0 <= v < 64

  /** Table 1 of RFC 4648. */
  function CharOf(v: Sextet): (c: char)
    ensures InAlphabet(c)
  {
    if v < 26 then ('A' as int + v) as char
    else if v < 52 then ('a' as int + (v - 26)) as char
    else if v < 62 then ('0' as int + (v - 52)) as char
    else if v == 62 then '+'
    else '/'
  }

  /** The standard alphabet of Table 1 of RFC 4648. */
  predicate InAlphabet(c: char) {
    ('A' <= c <= 'Z') || ('a' <= c <= 'z') || ('0' <= c <= '9') || c == '+' || c == '/'
  }

  /** The characters the decoder gives a value to: the standard alphabet and
      the URL-safe '-' and '_'. */
  predicate IsDecodable(c: char) {
    ('A' <= c <= 'Z') || ('a' <= c <= 'z') || ('0' <= c <= '9')
    || c == '+' || c == '/' || c == '-' || c == '_'
  }

  function ValueOf(c: char): (v: Sextet)
    requires IsDecodable(c)
    ensures c != '-' && c != '_' ==> CharOf(v) == c
  {
    if 'A' <= c <= 'Z' then c as int - 'A' as int
    else if 'a' <= c <= 'z' then c as int - 'a' as int + 26
    else if '0' <= c <= '9' then c as int - '0' as int + 52
    else if c == '+' || c == '-' then 62
    else 63
  }

  lemma ValueOfCharOf(v: Sextet)
    ensures IsDecodable(CharOf(v)) && ValueOf(CharOf(v)) == v
  {
  }

  /** The characters for a run of 6-bit values. */
  function Chars(vs: seq<Sextet>): (s: string)
    ensures |s| == |vs|
    ensures forall i :: 0 <= i < |s| ==> InAlphabet(s[i])
  {
    if vs == [] then [] else [CharOf(vs[0])] + Chars(vs[1..])
  }

  /** The four 6-bit values of three bytes, most significant bits first;
      missing trailing bytes are passed as zero. */
  function Block(b0: Byte, b1: Byte, b2: Byte): (v: seq<Sextet>)
    ensures |v| == 4
  {
    [b0 / 4, (b0 % 4) * 16 + b1 / 16, (b1 % 16) * 4 + b2 / 64, b2 % 64]
  }

  /** Full groups become four characters; a final group of one or two bytes
      becomes two or three characters and is padded to four with '='. */
  function Encode(b: seq<Byte>): (s: string)
    ensures |s| == 4 * ((|b| + 2) / 3)
    ensures forall i :: 0 <= i < |s| && s[i] != '=' ==> InAlphabet(s[i])
    ensures forall i :: 0 <= i < |s| && s[i] == '=' ==> |s| - 2 <= i
    decreases |b|
  {
    if |b| == 0 then []
    else if |b| == 1 then Chars(Block(b[0], 0, 0)[..2]) + "=="
    else if |b| == 2 then Chars(Block(b[0], b[1], 0)[..3]) + "="
    else Chars(Block(b[0], b[1], b[2])) + Encode(b[3..])
  }

  /** The values of the decodable characters of `s` before its first '='. */
  function Sextets(s: string): (v: seq<Sextet>)
    ensures |v| <= |s|
  {
    if s == [] then []
    else if s[0] == '=' then []
    else if IsDecodable(s[0]) then [ValueOf(s[0])] + Sextets(s[1..])
    else Sextets(s[1..])
  }

  /** Four values make three bytes; a trailing three make two, two make one. */
  function DecodeSextets(v: seq<Sextet>): (b: seq<Byte>)
    ensures |b| == 3 * (|v| / 4) + (if |v| % 4 == 0 then 0 else |v| % 4 - 1)
    decreases |v|
  {
    if |v| >= 4 then
      [First(v[0], v[1]), Second(v[1], v[2]), Third(v[2], v[3])] + DecodeSextets(v[4..])
    else if |v| == 3 then
      [First(v[0], v[1]), Second(v[1], v[2])]
    else if |v| == 2 then
      [First(v[0], v[1])]
    else
      []
  }

  /** The byte made of all six bits of `a` and the top two of `b`. */
  function First(a: Sextet, b: Sextet): Byte {
    a as int * 4 + b as int / 16
  }

  /** The byte made of the low four bits of `a` and the top four of `b`. */
  function Second(a: Sextet, b: Sextet): Byte {
    (a as int % 16) * 16 + b as int / 4
  }

  /** The byte made of the low two bits of `a` and all six of `b`. */
  function Third(a: Sextet, b: Sextet): Byte {
    (a as int % 4) * 64 + b as int
  }

  /** At most three bytes for every four characters. */
  function Decode(s: string): (b: seq<Byte>)
    ensures 4 * |b| <= 3 * |s|
  {
    DecodeSextets(Sextets(s))
  }

  /** Encoded characters decode back to their values, one after the other. */
  lemma {:induction false} SextetsOfChars(vs: seq<Sextet>, rest: string)
    ensures Sextets(Chars(vs) + rest) == vs + Sextets(rest)
    decreases |vs|
  {
    if vs == [] {
      assert Chars(vs) + rest == rest;
    } else {
      var s := Chars(vs) + rest;
      ValueOfCharOf(vs[0]);
      assert s[0] == CharOf(vs[0]);
      assert s[1..] == Chars(vs[1..]) + rest;
      SextetsOfChars(vs[1..], rest);
      assert vs == [vs[0]] + vs[1..];
    }
  }

  /** The arithmetic of one group: the bytes come back from the four values. */
  lemma BlockRoundTrip(b0: Byte, b1: Byte, b2: Byte)
    ensures First(Block(b0, b1, b2)[0], Block(b0, b1, b2)[1]) == b0
    ensures Second(Block(b0, b1, b2)[1], Block(b0, b1, b2)[2]) == b1
    ensures Third(Block(b0, b1, b2)[2], Block(b0, b1, b2)[3]) == b2
  {
  }

  /** A full group decodes to its three bytes, in front of whatever the rest
      of the encoding decodes to. */
  lemma {:induction false} DecodeEncodeGroup(b: seq<Byte>)
    requires |b| >= 3
    ensures Decode(Encode(b)) == b[..3] + Decode(Encode(b[3..]))
  {
    var v := Block(b[0], b[1], b[2]);
    var rest := Encode(b[3..]);
    SextetsOfChars(v, rest);
    BlockRoundTrip(b[0], b[1], b[2]);
    assert Encode(b) == Chars(v) + rest;
    var w := v + Sextets(rest);
    assert Decode(Encode(b)) == DecodeSextets(w);
    assert w[0] == v[0] && w[1] == v[1] && w[2] == v[2] && w[3] == v[3];
    assert w[4..] == Sextets(rest);
    assert DecodeSextets(w) == [First(w[0], w[1]), Second(w[1], w[2]), Third(w[2], w[3])] + Decode(rest);
  }

  /** Decoding undoes encoding: `decodeBase64(encodeBase64(b))` gives `b` back. */
  lemma {:induction false} DecodeEncode(b: seq<Byte>)
    ensures Decode(Encode(b)) == b
    decreases |b|
  {
    if |b| == 1 {
      var v := Block(b[0], 0, 0)[..2];
      SextetsOfChars(v, "==");
      BlockRoundTrip(b[0], 0, 0);
      assert Sextets(Encode(b)) == v;
    } else if |b| == 2 {
      var v := Block(b[0], b[1], 0)[..3];
      SextetsOfChars(v, "=");
      BlockRoundTrip(b[0], b[1], 0);
      assert Sextets(Encode(b)) == v;
    } else if |b| >= 3 {
      DecodeEncode(b[3..]);
      DecodeEncodeGroup(b);
      assert b[..3] + b[3..] == b;
    }
  }

  /** Everything from the first '=' on is ignored. */
  lemma {:induction false} DecodeStopsAtPadding(s: string, t: string)
    ensures Decode(s + "=" + t) == Decode(s)
    decreases |s|
  {
    SextetsStopAtPadding(s, t);
  }

  lemma {:induction false} SextetsStopAtPadding(s: string, t: string)
    ensures Sextets(s + "=" + t) == Sextets(s)
    decreases |s|
  {
    var u := s + "=" + t;
    if s != [] {
      assert u[0] == s[0] && u[1..] == s[1..] + "=" + t;
      SextetsStopAtPadding(s[1..], t);
    }
  }

  /** A character the decoder gives no value to is skipped, wherever it
      stands. */
  lemma {:induction false} DecodeSkipsForeign(s: string, c: char, t: string)
    requires c != '=' && !IsDecodable(c)
    ensures Decode(s + [c] + t) == Decode(s + t)
  {
    SextetsSkipForeign(s, c, t);
  }

  lemma {:induction false} SextetsSkipForeign(s: string, c: char, t: string)
    requires c != '=' && !IsDecodable(c)
    ensures Sextets(s + [c] + t) == Sextets(s + t)
    decreases |s|
  {
    var u := s + [c] + t;
    if s == [] {
      assert u[0] == c && u[1..] == t && s + t == t;
    } else {
      assert u[0] == s[0] && u[1..] == s[1..] + [c] + t;
      assert (s + t)[0] == s[0] && (s + t)[1..] == s[1..] + t;
      SextetsSkipForeign(s[1..], c, t);
    }
  }

  /** The URL-safe '-' and '_' decode as '+' and '/'. */
  lemma UrlSafeDecodesAsStandard(s: string, t: string)
    ensures Decode(s + "-" + t) == Decode(s + "+" + t)
    ensures Decode(s + "_" + t) == Decode(s + "/" + t)
  {
    SextetsOfSplit(s, '-', t);
    SextetsOfSplit(s, '+', t);
    SextetsOfSplit(s, '_', t);
    SextetsOfSplit(s, '/', t);
  }

  /** The values of `s + [c] + t` when `c` is decodable: those of `s` up to
      its first '=', and `c` and `t` only when `s` holds no '='. */
  lemma {:induction false} SextetsOfSplit(s: string, c: char, t: string)
    requires IsDecodable(c)
    ensures '=' in s ==> Sextets(s + [c] + t) == Sextets(s)
    ensures '=' !in s ==> Sextets(s + [c] + t) == Sextets(s) + [ValueOf(c)] + Sextets(t)
    decreases |s|
  {
    var u := s + [c] + t;
    if s == [] {
      assert u[0] == c && u[1..] == t;
    } else {
      assert u[0] == s[0] && u[1..] == s[1..] + [c] + t;
      SextetsOfSplit(s[1..], c, t);
      if s[0] != '=' {
        assert '=' in s <==> '=' in s[1..];
      }
    }
  }

  /** Different byte strings never share an encoding. */
  lemma EncodeInjective(a: seq<Byte>, b: seq<Byte>)
    requires Encode(a) == Encode(b)
    ensures a == b
  {
    DecodeEncode(a);
    DecodeEncode(b);
  }
}
