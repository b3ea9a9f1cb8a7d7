// Base 64 encoding with the standard alphabet and padding (section 4 of
// RFC 4648), over bytes.  This is the payload layer of every PEM block.
module Base64 {
  import opened Bytes
  import opened Wrappers

  const PAD: byte := 61 // '='

  // The character for a six-bit value: A-Z a-z 0-9 + /
  function Char(v: int): byte
    requires 0 <= v < 64
  {
    if v < 26 then 65 + v
    else if v < 52 then 71 + v
    else if v < 62 then v - 4
    else if v == 62 then 43
    else 47
  }

  // The six-bit value of a character, or -1 outside the alphabet.
  function Value(c: byte): (v: int)
    ensures -1 <= v < 64
  {
    if 65 <= c <= 90 then c - 65
    else if 97 <= c <= 122 then c - 71
    else if 48 <= c <= 57 then c + 4
    else if c == 43 then 62
    else if c == 47 then 63
    else -1
  }

  predicate IsBase64Char(c: byte) {
    c == PAD || Value(c) >= 0
  }

  predicate IsText(e: bytes) {
    forall i :: 0 <= i < |e| ==> IsBase64Char(e[i])
  }

  // Four characters for three bytes.
  function Quantum(a: byte, b: byte, c: byte): (q: bytes)
    ensures |q| == 4
    ensures IsText(q)
  {
    [Char(a / 4), Char(a % 4 * 16 + b / 16), Char(b % 16 * 4 + c / 64), Char(c % 64)]
  }

  function Encode(s: bytes): (e: bytes)
    ensures |e| == (|s| + 2) / 3 * 4
    ensures IsText(e)
  {
    if |s| == 0 then []
    else if |s| == 1 then [Char(s[0] / 4), Char(s[0] % 4 * 16), PAD, PAD]
    else if |s| == 2 then
      [Char(s[0] / 4), Char(s[0] % 4 * 16 + s[1] / 16), Char(s[1] % 16 * 4), PAD]
    else Quantum(s[0], s[1], s[2]) + Encode(s[3..])
  }

  function First(a: int, b: int): byte
    requires 0 <= a < 64 && 0 <= b < 64
  {
    a * 4 + b / 16
  }

  function Second(b: int, c: int): byte
    requires 0 <= b < 64 && 0 <= c < 64
  {
    b % 16 * 16 + c / 4
  }

  function Third(c: int, d: int): byte
    requires 0 <= c < 64 && 0 <= d < 64
  {
    c % 4 * 64 + d
  }

  // Padding is accepted only in the last quantum.  As in Go's standard decoder,
  // unused trailing bits are not required to be zero.
  function Decode(e: bytes): Option<bytes> {
    if |e| == 0 then Some([])
    else if |e| < 4 then None
    else
      var a, b, c, d := Value(e[0]), Value(e[1]), Value(e[2]), Value(e[3]);
      if a < 0 || b < 0 then None
      else if |e| == 4 && e[2] == PAD && e[3] == PAD then Some([First(a, b)])
      else if c < 0 then None
      else if |e| == 4 && e[3] == PAD then Some([First(a, b), Second(b, c)])
      else if d < 0 then None
      else
        match Decode(e[4..])
        case None => None
        case Some(rest) => Some([First(a, b), Second(b, c), Third(c, d)] + rest)
  }

  lemma ValueChar(v: int)
    requires 0 <= v < 64
    ensures Value(Char(v)) == v
  {
  }

  lemma Reassemble(a: byte, b: byte, c: byte)
    ensures First(a / 4, a % 4 * 16 + b / 16) == a
    ensures Second(a % 4 * 16 + b / 16, b % 16 * 4 + c / 64) == b
    ensures Third(b % 16 * 4 + c / 64, c % 64) == c
  {
  }

  lemma DecodeQuantum(a: byte, b: byte, c: byte, rest: bytes)
    ensures Decode(Quantum(a, b, c) + rest) ==
            match Decode(rest) case None => None case Some(tail) => Some([a, b, c] + tail)
  {
    var p, q, r, t := a / 4, a % 4 * 16 + b / 16, b % 16 * 4 + c / 64, c % 64;
    Reassemble(a, b, c);
    var e := [Char(p), Char(q), Char(r), Char(t)] + rest;
    assert Value(e[0]) == p && Value(e[1]) == q && Value(e[2]) == r && Value(e[3]) == t by {
      ValueChar(p); ValueChar(q); ValueChar(r); ValueChar(t);
    }
    assert e[4..] == rest;
    DecodeFull(e);
  }

  lemma DecodeFull(e: bytes)
    requires |e| >= 4
    requires Value(e[0]) >= 0 && Value(e[1]) >= 0 && Value(e[2]) >= 0 && Value(e[3]) >= 0
    ensures Decode(e) ==
            match Decode(e[4..])
            case None => None
            case Some(tail) =>
              Some([First(Value(e[0]), Value(e[1])), Second(Value(e[1]), Value(e[2])),
                    Third(Value(e[2]), Value(e[3]))] + tail)
  {
  }

  lemma DecodeOne(a: byte)
    ensures Decode(Encode([a])) == Some([a])
  {
    Reassemble(a, 0, 0);
    ValueChar(a / 4);
    ValueChar(a % 4 * 16);
    var e := [Char(a / 4), Char(a % 4 * 16), PAD, PAD];
    assert Encode([a]) == e;
    assert Decode(e) == Some([First(Value(e[0]), Value(e[1]))]);
  }

  lemma DecodePadded(p: int, q: int, r: int)
    requires 0 <= p < 64 && 0 <= q < 64 && 0 <= r < 64
    ensures Decode([Char(p), Char(q), Char(r), PAD]) == Some([First(p, q), Second(q, r)])
  {
    var e := [Char(p), Char(q), Char(r), PAD];
    ValueChar(p);
    ValueChar(q);
    ValueChar(r);
    assert Decode(e) == Some([First(Value(e[0]), Value(e[1])), Second(Value(e[1]), Value(e[2]))]);
  }

  lemma DecodeTwo(a: byte, b: byte)
    ensures Decode(Encode([a, b])) == Some([a, b])
  {
    Reassemble(a, b, 0);
    DecodePadded(a / 4, a % 4 * 16 + b / 16, b % 16 * 4);
  }

  lemma {:induction false} DecodeEncode(s: bytes)
    ensures Decode(Encode(s)) == Some(s)
  {
    if |s| == 0 {
    } else if |s| == 1 {
      DecodeOne(s[0]);
      assert s == [s[0]];
    } else if |s| == 2 {
      DecodeTwo(s[0], s[1]);
      assert s == [s[0], s[1]];
    } else {
      calc {
        Decode(Encode(s));
        Decode(Quantum(s[0], s[1], s[2]) + Encode(s[3..]));
        { DecodeQuantum(s[0], s[1], s[2], Encode(s[3..]));
          DecodeEncode(s[3..]); }
        Some([s[0], s[1], s[2]] + s[3..]);
        { assert s == [s[0], s[1], s[2]] + s[3..]; }
        Some(s);
      }
    }
  }

  // A character outside the alphabet anywhere makes the whole text undecodable.
  lemma {:induction false} DecodeRejects(e: bytes, i: nat)
    requires i < |e| && !IsBase64Char(e[i])
    ensures Decode(e) == None
  {
    if i >= 4 && Decode(e[4..]) != None {
      DecodeRejects(e[4..], i - 4);
    }
  }

  lemma {:induction false} EncodeLonger(s: bytes)
    ensures |Encode(s)| >= |s|
  {
    if |s| <= 3 {
    } else {
      EncodeLonger(s[3..]);
    }
  }

  // ----------------------------------------------- against the standard

  const UPPER := "ABCDEFGHIJKLMNOPQRSTUVWXYZ"
  const LOWER := "abcdefghijklmnopqrstuvwxyz"
  const DIGITS := "0123456789"

  // Table 1 of RFC 4648: the character at each position is the one for that
  // six-bit value.
  const ALPHABET := UPPER + LOWER + DIGITS + "+/"

  // The character stands at this position of the alphabet.
  predicate Stands(c: byte, p: nat) {
    p < |ALPHABET| && c == ALPHABET[p] as int
  }

  lemma UpperRun(i: nat)
    requires i < 26
    ensures |UPPER| == 26 && UPPER[i] as int == 65 + i
  {
  }

  lemma LowerRun(i: nat)
    requires i < 26
    ensures |LOWER| == 26 && LOWER[i] as int == 97 + i
  {
  }

  lemma DigitRun(i: nat)
    requires i < 10
    ensures |DIGITS| == 10 && DIGITS[i] as int == 48 + i
  {
  }

  lemma AlphabetSize()
    ensures |UPPER| == 26 && |LOWER| == 26 && |DIGITS| == 10 && |ALPHABET| == 64
  {
    UpperRun(0);
    LowerRun(0);
    DigitRun(0);
  }

  // The code's table is that alphabet.
  lemma ValueIsPosition(c: byte, p: nat)
    ensures |ALPHABET| == 64
    ensures Stands(c, p) <==> p < 64 && Value(c) == p
  {
    AlphabetSize();
    if p < 26 {
      UpperRun(p);
      assert ALPHABET[p] == UPPER[p];
    } else if p < 52 {
      LowerRun(p - 26);
      assert ALPHABET[p] == LOWER[p - 26];
    } else if p < 62 {
      DigitRun(p - 52);
      assert ALPHABET[p] == DIGITS[p - 52];
    } else if p < 64 {
      assert ALPHABET[p] == "+/"[p - 62];
    }
  }

  // Three bytes as one number, most significant first.
  function Bits(a: int, b: int, c: int): int {
    (a * 256 + b) * 256 + c
  }

  lemma TwoBytes(p: int, q: int, r: int)
    requires 0 <= p < 64 && 0 <= q < 64 && 0 <= r < 64
    ensures Bits(0, First(p, q), Second(q, r)) == ((p * 64 + q) * 64 + r) / 4
  {
    assert q == q / 16 * 16 + q % 16 && r == r / 4 * 4 + r % 4;
  }

  // Four characters are the 24 bits of three bytes, most significant first.
  lemma QuantumDecodes(e: bytes, p: nat, q: nat, r: nat, t: nat)
    requires |e| >= 4 && Stands(e[0], p) && Stands(e[1], q) && Stands(e[2], r) && Stands(e[3], t)
    ensures Decode(e).Some? <==> Decode(e[4..]).Some?
    ensures Decode(e).Some? ==>
      var d := Decode(e).value;
      && |d| >= 3 && d[3..] == Decode(e[4..]).value
      && Bits(d[0], d[1], d[2]) == ((p * 64 + q) * 64 + r) * 64 + t
  {
    ValueIsPosition(e[0], p);
    ValueIsPosition(e[1], q);
    ValueIsPosition(e[2], r);
    ValueIsPosition(e[3], t);
    DecodeFull(e);
  }

  // With one pad at the end, three characters are 16 bits and two to spare.
  lemma OnePadDecodes(e: bytes, p: nat, q: nat, r: nat)
    requires |e| == 4 && e[3] as int == '=' as int
    requires Stands(e[0], p) && Stands(e[1], q) && Stands(e[2], r)
    ensures Decode(e).Some? && |Decode(e).value| == 2
    ensures Bits(0, Decode(e).value[0], Decode(e).value[1]) == ((p * 64 + q) * 64 + r) / 4
  {
    ValueIsPosition(e[0], p);
    ValueIsPosition(e[1], q);
    ValueIsPosition(e[2], r);
    TwoBytes(p, q, r);
    assert Decode(e) == Some([First(p, q), Second(q, r)]);
  }

  // With two, two characters are 8 bits and four to spare.
  lemma TwoPadsDecode(e: bytes, p: nat, q: nat)
    requires |e| == 4 && e[2] as int == e[3] as int == '=' as int && Stands(e[0], p) && Stands(e[1], q)
    ensures Decode(e) == Some([(p * 64 + q) / 16])
  {
    ValueIsPosition(e[0], p);
    ValueIsPosition(e[1], q);
  }

  ghost predicate Letter(c: byte) {
    exists p :: Stands(c, p)
  }

  // Whole quanta of the alphabet, with k pads at the end.
  ghost predicate Padded(e: bytes, k: nat) {
    && |e| % 4 == 0 && k <= 2 && k <= |e|
    && (forall i :: 0 <= i < |e| - k ==> Letter(e[i]))
    && (forall i :: |e| - k <= i < |e| ==> e[i] as int == '=' as int)
  }

  ghost predicate Standard(e: bytes) {
    Padded(e, 0) || Padded(e, 1) || Padded(e, 2)
  }

  lemma LetterValue(c: byte)
    ensures Letter(c) <==> Value(c) >= 0
    ensures c as int == '=' as int <==> c == PAD
  {
    if Value(c) >= 0 {
      ValueIsPosition(c, Value(c));
    }
    if p :| Stands(c, p) {
      ValueIsPosition(c, p);
    }
  }

  ghost predicate FourLetters(e: bytes) {
    |e| >= 4 && Letter(e[0]) && Letter(e[1]) && Letter(e[2]) && Letter(e[3])
  }

  lemma FourValues(e: bytes)
    requires |e| >= 4
    ensures FourLetters(e) <==> Value(e[0]) >= 0 && Value(e[1]) >= 0 && Value(e[2]) >= 0 && Value(e[3]) >= 0
  {
    LetterValue(e[0]);
    LetterValue(e[1]);
    LetterValue(e[2]);
    LetterValue(e[3]);
  }

  // Exactly these texts decode.
  lemma {:induction false} DecodesExactly(e: bytes)
    ensures Decode(e).Some? <==> Standard(e)
    decreases |e|
  {
    if |e| == 0 {
    } else if |e| < 4 {
    } else if |e| == 4 {
      OneQuantum(e);
    } else {
      DecodesExactly(e[4..]);
      LongDecode(e);
      PaddedTail(e, 0);
      PaddedTail(e, 1);
      PaddedTail(e, 2);
    }
  }

  // A pad before the last quantum is no letter.
  lemma LongDecode(e: bytes)
    requires |e| > 4
    ensures Decode(e).Some? <==> FourLetters(e) && Decode(e[4..]).Some?
  {
    FourValues(e);
    if FourLetters(e) {
      DecodeFull(e);
    }
  }

  lemma OneQuantum(e: bytes)
    requires |e| == 4
    ensures Decode(e).Some? <==> Standard(e)
  {
    LetterValue(e[0]);
    LetterValue(e[1]);
    LetterValue(e[2]);
    LetterValue(e[3]);
    assert e[4..] == [];
    assert Padded(e, 0) <==> Letter(e[0]) && Letter(e[1]) && Letter(e[2]) && Letter(e[3]);
    assert Padded(e, 1) <==> Letter(e[0]) && Letter(e[1]) && Letter(e[2]) && e[3] == PAD;
    assert Padded(e, 2) <==> Letter(e[0]) && Letter(e[1]) && e[2] == PAD && e[3] == PAD;
  }

  lemma PaddedTail(e: bytes, k: nat)
    requires |e| > 4
    ensures Padded(e, k) <==> Padded(e[4..], k) && FourLetters(e)
  {
    var rest := e[4..];
    assert forall i :: 4 <= i < |e| ==> rest[i - 4] == e[i];
    if Padded(e, k) {
      assert forall i :: 0 <= i < |rest| ==> rest[i] == e[i + 4];
    }
  }
}
