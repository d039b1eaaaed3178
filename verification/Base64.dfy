/** The base64 codecs the repository uses, as Go implements them: the standard alphabet of RFC 4648,
    section 4, without padding (snapshot IDs) and with padding (PVC annotations). Decoding skips carriage
    returns and line feeds and ignores the unused low bits of the last digit. */
module Base64 {
  import opened Json

  type Byte = c: char | c as int < 256 witness 'a'
  type Bytes = seq<Byte>

  function ToByte(n: int): (b: Byte)
    requires 0 <= n < 256
    ensures b as int == n
  {
    n as char
  }

  function Digit(n: int): (c: Byte)
    requires 0 <= n < 64
  {
    if n < 26 then ('A' as int + n) as char
    else if n < 52 then ('a' as int + n - 26) as char
    else if n < 62 then ('0' as int + n - 52) as char
    else if n == 62 then '+' else '/'
  }

  function Value(c: Byte): (r: Option<int>)
    ensures r.Some? ==> 0 <= r.value < 64
  {
    if 'A' <= c <= 'Z' then Some(c as int - 'A' as int)
    else if 'a' <= c <= 'z' then Some(c as int - 'a' as int + 26)
    else if '0' <= c <= '9' then Some(c as int - '0' as int + 52)
    else if c == '+' then Some(62)
    else if c == '/' then Some(63)
    else None
  }

  predicate InAlphabet(c: Byte) { Value(c).Some? }

  lemma {:induction false} DigitValue(n: int)
    requires 0 <= n < 64
    ensures Value(Digit(n)) == Some(n)
  {
  }

  /** Three bytes as four digits. */
  function Group(b0: Byte, b1: Byte, b2: Byte): (q: Bytes)
    ensures |q| == 4
  {
    [Digit(b0 as int / 4), Digit(b0 as int % 4 * 16 + b1 as int / 16),
     Digit(b1 as int % 16 * 4 + b2 as int / 64), Digit(b2 as int % 64)]
  }

  /** Digits for n bytes. */
  function EncodedLen(n: nat): (r: nat)
  {
    if n == 0 then 0 else if n == 1 then 2 else if n == 2 then 3 else 4 + EncodedLen(n - 3)
  }

  /** RawStdEncoding.EncodeToString. */
  function Encode(b: Bytes): (t: Bytes)
    ensures |t| == EncodedLen(|b|)
    decreases |b|
  {
    if |b| == 0 then []
    else if |b| == 1 then
      [Digit(b[0] as int / 4), Digit(b[0] as int % 4 * 16)]
    else if |b| == 2 then
      [Digit(b[0] as int / 4), Digit(b[0] as int % 4 * 16 + b[1] as int / 16), Digit(b[1] as int % 16 * 4)]
    else
      Group(b[0], b[1], b[2]) + Encode(b[3..])
  }

  function StripNewlines(t: Bytes): (r: Bytes)
    ensures |r| <= |t|
  {
    if t == [] then []
    else if t[0] == '\r' || t[0] == '\n' then StripNewlines(t[1..])
    else [t[0]] + StripNewlines(t[1..])
  }

  /** Decoding of text without newlines. */
  function DecodeDigits(t: Bytes): (r: Option<Bytes>)
    ensures r.Some? ==> 4 * |r.value| <= 3 * |t|
    decreases |t|
  {
    if |t| == 0 then Some([])
    else if |t| == 1 || Value(t[0]).None? || Value(t[1]).None? then None
    else
      var d0, d1 := Value(t[0]).value, Value(t[1]).value;
      var b0 := ToByte(d0 * 4 + d1 / 16);
      if |t| == 2 then Some([b0])
      else if Value(t[2]).None? then None
      else
        var d2 := Value(t[2]).value;
        var b1 := ToByte(d1 % 16 * 16 + d2 / 4);
        if |t| == 3 then Some([b0, b1])
        else if Value(t[3]).None? then None
        else
          var b2 := ToByte(d2 % 4 * 64 + Value(t[3]).value);
          var rest := DecodeDigits(t[4..]);
          if rest.None? then None else Some([b0, b1, b2] + rest.value)
  }

  /** RawStdEncoding.DecodeString. */
  function Decode(t: Bytes): (r: Option<Bytes>)
    ensures r.Some? ==> 4 * |r.value| <= 3 * |t|
  {
    DecodeDigits(StripNewlines(t))
  }

  lemma {:induction false} EncodeAlphabet(b: Bytes)
    ensures forall c :: c in Encode(b) ==> InAlphabet(c)
    decreases |b|
  {
    forall n | 0 <= n < 64 ensures InAlphabet(Digit(n)) { DigitValue(n); }
    if |b| < 3 {
    } else {
      EncodeAlphabet(b[3..]);
      assert Encode(b) == Group(b[0], b[1], b[2]) + Encode(b[3..]);
    }
  }

  lemma {:induction false} StripAlphabet(t: Bytes)
    requires forall c :: c in t ==> InAlphabet(c)
    ensures StripNewlines(t) == t
  {
    if t == [] {
    } else {
      assert InAlphabet(t[0]);
      StripAlphabet(t[1..]);
    }
  }

  lemma {:induction false} OneByte(b0: Byte)
    ensures DecodeDigits([Digit(b0 as int / 4), Digit(b0 as int % 4 * 16)]) == Some([b0])
  {
    DigitValue(b0 as int / 4);
    DigitValue(b0 as int % 4 * 16);
  }

  lemma {:induction false} TwoBytes(b0: Byte, b1: Byte)
    ensures DecodeDigits([Digit(b0 as int / 4), Digit(b0 as int % 4 * 16 + b1 as int / 16), Digit(b1 as int % 16 * 4)])
            == Some([b0, b1])
  {
    DigitValue(b0 as int / 4);
    DigitValue(b0 as int % 4 * 16 + b1 as int / 16);
    DigitValue(b1 as int % 16 * 4);
  }

  lemma {:induction false} Repack(x: int, y: int, z: int)
    requires 0 <= x < 256 && 0 <= y < 256 && 0 <= z < 256
    ensures x / 4 * 4 + (x % 4 * 16 + y / 16) / 16 == x
    ensures (x % 4 * 16 + y / 16) % 16 * 16 + (y % 16 * 4 + z / 64) / 4 == y
    ensures (y % 16 * 4 + z / 64) % 4 * 64 + z % 64 == z
  {
    assert (x % 4 * 16 + y / 16) / 16 == x % 4 && (x % 4 * 16 + y / 16) % 16 == y / 16;
    assert (y % 16 * 4 + z / 64) / 4 == y % 16 && (y % 16 * 4 + z / 64) % 4 == z / 64;
  }

  /** One full quantum in front of anything that decodes. */
  lemma {:induction false} Quantum(d0: int, d1: int, d2: int, d3: int, t: Bytes, rest: Bytes)
    requires 0 <= d0 < 64 && 0 <= d1 < 64 && 0 <= d2 < 64 && 0 <= d3 < 64 && DecodeDigits(t) == Some(rest)
    ensures DecodeDigits([Digit(d0), Digit(d1), Digit(d2), Digit(d3)] + t)
            == Some([ToByte(d0 * 4 + d1 / 16), ToByte(d1 % 16 * 16 + d2 / 4), ToByte(d2 % 4 * 64 + d3)] + rest)
  {
    DigitValue(d0); DigitValue(d1); DigitValue(d2); DigitValue(d3);
    var s := [Digit(d0), Digit(d1), Digit(d2), Digit(d3)] + t;
    assert s[4..] == t;
    assert s[0] == Digit(d0) && s[1] == Digit(d1) && s[2] == Digit(d2) && s[3] == Digit(d3);
  }

  lemma {:induction false} ThreeBytes(b0: Byte, b1: Byte, b2: Byte, t: Bytes, rest: Bytes)
    requires DecodeDigits(t) == Some(rest)
    ensures DecodeDigits(Group(b0, b1, b2) + t) == Some([b0, b1, b2] + rest)
  {
    var x, y, z := b0 as int, b1 as int, b2 as int;
    var d0, d1, d2, d3 := x / 4, x % 4 * 16 + y / 16, y % 16 * 4 + z / 64, z % 64;
    Repack(x, y, z);
    Quantum(d0, d1, d2, d3, t, rest);
    assert Group(b0, b1, b2) == [Digit(d0), Digit(d1), Digit(d2), Digit(d3)];
    assert ToByte(x) == b0 && ToByte(y) == b1 && ToByte(z) == b2;
  }

  lemma {:induction false} EncodeShort(b: Bytes)
    requires |b| < 3
    ensures DecodeDigits(Encode(b)) == Some(b)
  {
    if |b| == 1 {
      OneByte(b[0]);
      assert b == [b[0]];
    } else if |b| == 2 {
      TwoBytes(b[0], b[1]);
      assert b == [b[0], b[1]];
    }
  }

  lemma {:induction false} DecodeDigitsOfEncode(b: Bytes)
    ensures DecodeDigits(Encode(b)) == Some(b)
    decreases |b|
  {
    if |b| < 3 {
      EncodeShort(b);
    } else {
      var rest := b[3..];
      DecodeDigitsOfEncode(rest);
      ThreeBytes(b[0], b[1], b[2], Encode(rest), rest);
      assert b == [b[0], b[1], b[2]] + rest;
    }
  }

  /** Unpadded round trip, for all byte strings. */
  lemma {:induction false} DecodeEncode(b: Bytes)
    ensures Decode(Encode(b)) == Some(b)
  {
    EncodeAlphabet(b);
    StripAlphabet(Encode(b));
    DecodeDigitsOfEncode(b);
  }

  predicate AllDigits(t: Bytes) { forall i :: 0 <= i < |t| ==> InAlphabet(t[i]) }

  lemma {:induction false} DecodeGroup(t: Bytes)
    requires |t| >= 4
    ensures DecodeDigits(t).Some? <==> AllDigits(t[..4]) && DecodeDigits(t[4..]).Some?
  {
    assert AllDigits(t[..4]) <==> InAlphabet(t[0]) && InAlphabet(t[1]) && InAlphabet(t[2]) && InAlphabet(t[3]) by {
      assert t[..4][0] == t[0] && t[..4][1] == t[1] && t[..4][2] == t[2] && t[..4][3] == t[3];
    }
  }

  lemma {:induction false} AllDigitsSplit(t: Bytes)
    requires |t| >= 4
    ensures AllDigits(t) <==> AllDigits(t[..4]) && AllDigits(t[4..])
  {
    if AllDigits(t[..4]) && AllDigits(t[4..]) {
      forall i | 0 <= i < |t| ensures InAlphabet(t[i]) {
        assert t[i] == if i < 4 then t[..4][i] else t[4..][i - 4];
      }
    }
  }

  /** Text without newlines decodes if and only if all characters are digits and no single digit is left over. */
  lemma {:induction false} DecodeDefined(t: Bytes)
    ensures DecodeDigits(t).Some? <==> AllDigits(t) && |t| % 4 != 1
    decreases |t|
  {
    if |t| < 4 {
    } else {
      DecodeDefined(t[4..]);
      DecodeGroup(t);
      AllDigitsSplit(t);
      assert (|t| - 4) % 4 == |t| % 4;
    }
  }

  /** The unused low bits of a last digit do not matter. */
  lemma {:induction false} TrailingBitsIgnored(d0: int, d1: int, d2: int)
    requires 0 <= d0 < 64 && 0 <= d1 < 64 && 0 <= d2 < 64
    ensures DecodeDigits([Digit(d0), Digit(d1)]) == Some([ToByte(d0 * 4 + d1 / 16)])
    ensures DecodeDigits([Digit(d0), Digit(d1), Digit(d2)])
            == Some([ToByte(d0 * 4 + d1 / 16), ToByte(d1 % 16 * 16 + d2 / 4)])
  {
    DigitValue(d0); DigitValue(d1); DigitValue(d2);
  }

  /** Newlines do not matter, wherever they are. */
  lemma {:induction false} NewlinesIgnored(a: Bytes, b: Bytes, newline: Byte)
    requires newline == '\r' || newline == '\n'
    ensures Decode(a + [newline] + b) == Decode(a + b)
  {
    assert a + [newline] + b == a + ([newline] + b);
    StripConcat(a, [newline] + b);
    StripConcat(a, b);
    assert ([newline] + b)[1..] == b;
  }

  /** The alphabet of table 1 of RFC 4648, by character code. */
  lemma {:induction false} Alphabet(n: int)
    requires 0 <= n < 64
    ensures Digit(n) as int == if n <= 25 then 65 + n else if n <= 51 then 71 + n else if n <= 61 then n - 4
                               else if n == 62 then 43 else 47
  {}

  // ---------------------------------------------------------------------------------------------
  // Padded form, used for the snapshot annotation on PVCs
  // ---------------------------------------------------------------------------------------------

  function Padding(n: nat): (p: Bytes)
  {
    if n % 3 == 0 then "" else if n % 3 == 1 then "==" else "="
  }

  function EncodeStd(b: Bytes): (t: Bytes) { Encode(b) + Padding(|b|) }

  /** StdEncoding.DecodeString: whole quanta, at most two padding characters, and those only at the end. */
  function DecodeStd(t: Bytes): (r: Option<Bytes>)
  {
    var s := StripNewlines(t);
    var n := |s|;
    if n % 4 != 0 then None
    else if n >= 2 && s[n - 1] == '=' && s[n - 2] == '=' then DecodeDigits(s[..n - 2])
    else if n >= 1 && s[n - 1] == '=' then DecodeDigits(s[..n - 1])
    else DecodeDigits(s)
  }

  lemma {:induction false} EncodeLength(n: nat)
    ensures EncodedLen(n) % 4 == (if n % 3 == 0 then 0 else if n % 3 == 1 then 2 else 3)
    ensures n % 3 != 0 ==> EncodedLen(n) >= 2
  {
    if n < 3 {
    } else {
      EncodeLength(n - 3);
      assert (n - 3) % 3 == n % 3 && (EncodedLen(n - 3) + 4) % 4 == EncodedLen(n - 3) % 4;
    }
  }

  lemma {:induction false} PaddingFits(n: nat)
    ensures (EncodedLen(n) + |Padding(n)|) % 4 == 0
    ensures Padding(n) == "" || ((Padding(n) == "=" || Padding(n) == "==") && EncodedLen(n) >= 2)
  {
    EncodeLength(n);
  }

  lemma {:induction false} StripConcat(a: Bytes, b: Bytes)
    ensures StripNewlines(a + b) == StripNewlines(a) + StripNewlines(b)
    decreases |a|
  {
    if a == [] {
      assert a + b == b;
    } else {
      assert (a + b)[1..] == a[1..] + b;
      StripConcat(a[1..], b);
    }
  }

  lemma {:induction false} StripPadded(b: Bytes)
    ensures StripNewlines(EncodeStd(b)) == EncodeStd(b)
  {
    EncodeAlphabet(b);
    StripAlphabet(Encode(b));
    StripConcat(Encode(b), Padding(|b|));
    StripPadding(|b|);
  }

  lemma {:induction false} StripPadding(n: nat)
    ensures StripNewlines(Padding(n)) == Padding(n)
  {
    assert StripNewlines("=") == "=";
    assert "=="[1..] == "=";
  }

  lemma {:induction false} DropPadding(e: Bytes, p: Bytes)
    requires p == "" || p == "=" || p == "=="
    requires (|e| + |p|) % 4 == 0 && StripNewlines(e + p) == e + p
    requires forall c :: c in e ==> InAlphabet(c)
    requires p == "" || |e| >= 2
    ensures DecodeStd(e + p) == DecodeDigits(e)
  {
    var s, n := e + p, |e| + |p|;
    assert forall i :: 0 <= i < |e| ==> InAlphabet(e[i]);
    assert !InAlphabet('=');
    assert s[..|e|] == e;
    if p == "==" {
      assert s[n - 1] == '=' && s[n - 2] == '=';
    } else if p == "=" {
      assert s[n - 1] == '=' && s[n - 2] == e[|e| - 1];
    } else {
      assert s == e;
    }
  }

  /** A padded text has whole groups of four. */
  lemma {:induction false} StdNeedsWholeGroups(t: Bytes)
    ensures |StripNewlines(t)| % 4 != 0 ==> DecodeStd(t) == None
    ensures |StripNewlines(EncodeStd(t))| % 4 == 0
  {
    StripPadded(t);
    PaddingFits(|t|);
  }

  /** Padded round trip: an annotation decodes to the bytes it was made from. */
  lemma {:induction false} DecodeEncodeStd(b: Bytes)
    ensures DecodeStd(EncodeStd(b)) == Some(b)
  {
    StripPadded(b);
    PaddingFits(|b|);
    EncodeAlphabet(b);
    DropPadding(Encode(b), Padding(|b|));
    DecodeDigitsOfEncode(b);
  }
}
