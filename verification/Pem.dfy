// Textual encoding of certificates and keys: the grammar of section 3 of
// RFC 7468.  `Decode` finds the next well-formed block, skipping any text in
// front of it, and returns what follows the block; `Encode` is the strict
// generator with 64-character lines.
module Pem {
  import opened Bytes
  import opened Wrappers
  import Base64

  const DASH: byte := 45
  const DASHES: bytes := [45, 45, 45, 45, 45]                              // -----
  const BEGIN: bytes := [45, 45, 45, 45, 45, 66, 69, 71, 73, 78, 32]       // -----BEGIN
  const END: bytes := [45, 45, 45, 45, 45, 69, 78, 68, 32]                 // -----END
  const CERTIFICATE: bytes := [67, 69, 82, 84, 73, 70, 73, 67, 65, 84, 69] // CERTIFICATE

  const PRIVATE_KEY: bytes := [80, 82, 73, 86, 65, 84, 69, 32, 75, 69, 89] // PRIVATE KEY

  // A decoded block: its label and the bytes inside.
  datatype Block = Block(tag: bytes, der: bytes) {
    predicate IsCertificate() {
      tag == CERTIFICATE
    }
  }

  datatype Decoded = Decoded(block: Block, rest: bytes)

  // ---------------------------------------------------------------- labels

  // Anything on one line.
  predicate ValidLabel(tag: bytes) {
    NL !in tag
  }

  predicate ValidBlock(b: Block) {
    ValidLabel(b.tag)
  }

  // ----------------------------------------------------------------- lines

  function LineLength(s: bytes): (n: nat)
    ensures n <= |s|
    ensures forall i :: 0 <= i < n ==> s[i] != NL
    ensures n < |s| ==> s[n] == NL
  {
    if s == [] || s[0] == NL then 0 else 1 + LineLength(s[1..])
  }

  function Line(s: bytes): bytes {
    s[..LineLength(s)]
  }

  // Everything after the first line.
  function Rest(s: bytes): (r: bytes)
    ensures s != [] ==> |r| < |s|
  {
    if LineLength(s) < |s| then s[LineLength(s) + 1..] else []
  }

  predicate IsBlank(c: byte) {
    c == 9 || c == 13 || c == 32
  }

  function TrimRight(s: bytes): bytes {
    if s != [] && IsBlank(s[|s| - 1]) then TrimRight(s[..|s| - 1]) else s
  }

  function StripBlanks(s: bytes): bytes {
    if s == [] then [] else (if IsBlank(s[0]) then [] else [s[0]]) + StripBlanks(s[1..])
  }

  // -------------------------------------------------------------- decoding

  // The label of a "-----BEGIN label-----" line.
  function HeaderLabel(line: bytes): (tag: Option<bytes>)
    ensures tag.Some? ==> ValidLabel(tag.value)
  {
    var l := TrimRight(line);
    if BEGIN <= l && |l| >= 16 && l[|l| - 5..] == DASHES && ValidLabel(l[11..|l| - 5])
    then Some(l[11..|l| - 5]) else None
  }

  // What stands between a header line and the first line starting "-----END ".
  datatype Tail = Tail(payload: bytes, trailer: bytes, rest: bytes)

  function FindEnd(s: bytes): (t: Option<Tail>)
    ensures t.Some? ==> |t.value.rest| < |s|
    decreases |s|
  {
    if s == [] then None
    else if END <= Line(s) then Some(Tail([], TrimRight(Line(s)), Rest(s)))
    else
      match FindEnd(Rest(s))
      case None => None
      case Some(t) => Some(t.(payload := StripBlanks(Line(s)) + t.payload))
  }

  // The block that starts on the first line of s, if there is one.
  function Attempt(s: bytes): (d: Option<Decoded>)
    ensures d.Some? ==> |d.value.rest| < |s| && ValidBlock(d.value.block)
  {
    match HeaderLabel(Line(s))
    case None => None
    case Some(tag) =>
      match FindEnd(Rest(s))
      case None => None
      case Some(t) =>
        if t.trailer != END + tag + DASHES then None
        else
          match Base64.Decode(t.payload)
          case None => None
          case Some(der) => Some(Decoded(Block(tag, der), t.rest))
  }

  // The next block and what follows it.
  function Decode(s: bytes): (d: Option<Decoded>)
    ensures d.Some? ==> |d.value.rest| < |s| && ValidBlock(d.value.block)
    decreases |s|
  {
    if s == [] then None
    else if Attempt(s).Some? then Attempt(s)
    else Decode(Rest(s))
  }

  // Every block of s, in order.
  function Blocks(s: bytes): (bs: seq<Block>)
    ensures forall b <- bs :: ValidBlock(b)
    decreases |s|
  {
    match Decode(s)
    case None => []
    case Some(d) => [d.block] + Blocks(d.rest)
  }

  // -------------------------------------------------------------- encoding

  function Wrap(e: bytes): bytes
    decreases |e|
  {
    if |e| == 0 then []
    else if |e| <= 64 then e + [NL]
    else e[..64] + [NL] + Wrap(e[64..])
  }

  function Encode(b: Block): bytes {
    BEGIN + b.tag + DASHES + [NL] + Wrap(Base64.Encode(b.der)) + END + b.tag + DASHES + [NL]
  }

  function EncodeAll(bs: seq<Block>): bytes {
    if bs == [] then [] else Encode(bs[0]) + EncodeAll(bs[1..])
  }

  // ------------------------------------------------------- line arithmetic

  lemma LineOf(line: bytes, s: bytes)
    requires NL !in line
    ensures Line(line + [NL] + s) == line && Rest(line + [NL] + s) == s
  {
    var all := line + [NL] + s;
    assert all[|line|] == NL;
    assert forall i :: 0 <= i < |line| ==> all[i] == line[i];
    assert LineLength(all) == |line|;
  }

  // A text is closed when its last line is ended; only then can another text
  // be appended without changing its lines.
  predicate Closed(s: bytes) {
    s == [] || s[|s| - 1] == NL
  }

  lemma LineAppend(s: bytes, t: bytes)
    requires s != [] && Closed(s)
    ensures Line(s + t) == Line(s) && Rest(s + t) == Rest(s) + t && Closed(Rest(s))
  {
    var n := LineLength(s);
    assert n < |s|;
    var line, rest := s[..n], s[n + 1..];
    assert s == line + [NL] + rest;
    Associative(line + [NL], rest, t);
    LineOf(line, rest + t);
  }

  lemma {:induction false} TrimRightId(s: bytes)
    requires s != [] ==> !IsBlank(s[|s| - 1])
    ensures TrimRight(s) == s
  {
  }

  lemma {:induction false} StripBlanksId(s: bytes)
    requires forall i :: 0 <= i < |s| ==> !IsBlank(s[i])
    ensures StripBlanks(s) == s
  {
    if s == [] {
    } else {
      StripBlanksId(s[1..]);
    }
  }

  // ------------------------------------------------------------ round trip

  lemma FindEndStep(line: bytes, s: bytes)
    requires NL !in line
    ensures FindEnd(line + [NL] + s) ==
            if END <= line then Some(Tail([], TrimRight(line), s))
            else match FindEnd(s)
                 case None => None
                 case Some(t) => Some(t.(payload := StripBlanks(line) + t.payload))
  {
    LineOf(line, s);
  }

  lemma TextLine(e: bytes, n: nat)
    requires Base64.IsText(e) && 0 < n <= |e|
    ensures Base64.IsText(e[n..])
    ensures NL !in e[..n] && !(END <= e[..n]) && StripBlanks(e[..n]) == e[..n]
  {
    var line := e[..n];
    assert forall i :: 0 <= i < n ==> Base64.IsBase64Char(line[i]);
    assert !Base64.IsBase64Char(NL) && !Base64.IsBase64Char(END[0]);
    StripBlanksId(line);
  }

  lemma {:induction false} FindEndWrap(e: bytes, trailer: bytes, s: bytes)
    requires NL !in trailer && END <= trailer && TrimRight(trailer) == trailer
    requires Base64.IsText(e)
    ensures FindEnd(Wrap(e) + (trailer + [NL] + s)) == Some(Tail(e, trailer, s))
    decreases |e|
  {
    var after := trailer + [NL] + s;
    if |e| == 0 {
      assert Wrap(e) + after == after;
      FindEndStep(trailer, s);
    } else {
      var n := if |e| <= 64 then |e| else 64;
      TextLine(e, n);
      FindEndWrap(e[n..], trailer, s);
      WrapStep(e, n, after);
      FindEndStep(e[..n], Wrap(e[n..]) + after);
      assert e[..n] + e[n..] == e;
    }
  }

  lemma WrapStep(e: bytes, n: nat, after: bytes)
    requires |e| > 0 && n == if |e| <= 64 then |e| else 64
    ensures Wrap(e) + after == e[..n] + [NL] + (Wrap(e[n..]) + after)
  {
    assert Wrap(e) == e[..n] + [NL] + Wrap(e[n..]);
    Associative(e[..n] + [NL], Wrap(e[n..]), after);
  }

  lemma HeaderLine(tag: bytes)
    requires ValidLabel(tag)
    ensures HeaderLabel(BEGIN + tag + DASHES) == Some(tag)
    ensures NL !in BEGIN + tag + DASHES
  {
    var header := BEGIN + tag + DASHES;
    TrimRightId(header);
    assert header[11..|header| - 5] == tag;
    assert header[|header| - 5..] == DASHES;
  }

  lemma TrailerLine(tag: bytes)
    requires ValidLabel(tag)
    ensures var trailer := END + tag + DASHES;
            NL !in trailer && END <= trailer && TrimRight(trailer) == trailer
  {
    TrimRightId(END + tag + DASHES);
  }

  lemma AttemptEncode(b: Block, s: bytes)
    requires ValidBlock(b)
    ensures Attempt(Encode(b) + s) == Some(Decoded(b, s))
  {
    var header, trailer := BEGIN + b.tag + DASHES, END + b.tag + DASHES;
    var e := Base64.Encode(b.der);
    HeaderLine(b.tag);
    TrailerLine(b.tag);
    FindEndWrap(e, trailer, s);
    Base64.DecodeEncode(b.der);
    AttemptParts(header, b.tag, Wrap(e) + (trailer + [NL] + s));
    EncodeParts(b, s);
  }

  lemma EncodeParts(b: Block, s: bytes)
    ensures Encode(b) + s ==
            (BEGIN + b.tag + DASHES) + [NL]
            + (Wrap(Base64.Encode(b.der)) + ((END + b.tag + DASHES) + [NL] + s))
  {
  }

  lemma AttemptParts(header: bytes, tag: bytes, tail: bytes)
    requires NL !in header && HeaderLabel(header) == Some(tag)
    ensures Attempt(header + [NL] + tail) ==
            match FindEnd(tail)
            case None => None
            case Some(t) =>
              if t.trailer != END + tag + DASHES then None
              else match Base64.Decode(t.payload)
                   case None => None
                   case Some(der) => Some(Decoded(Block(tag, der), t.rest))
  {
    LineOf(header, tail);
  }

  // Decoding an encoding followed by any suffix gives back the block and the
  // suffix.
  lemma RoundTrip(b: Block, s: bytes)
    requires ValidBlock(b)
    ensures Decode(Encode(b) + s) == Some(Decoded(b, s))
  {
    AttemptEncode(b, s);
  }

  lemma BlocksStep(b: Block, s: bytes)
    requires ValidBlock(b)
    ensures Blocks(Encode(b) + s) == [b] + Blocks(s)
  {
    RoundTrip(b, s);
  }

  // Concatenated encodings decode block by block to the same sequence.
  lemma {:induction false} BlocksEncodeAll(bs: seq<Block>, s: bytes)
    requires forall b <- bs :: ValidBlock(b)
    ensures Blocks(EncodeAll(bs) + s) == bs + Blocks(s)
  {
    if bs == [] {
      assert EncodeAll(bs) + s == s;
    } else {
      var tail := EncodeAll(bs[1..]);
      BlocksEncodeAll(bs[1..], s);
      Associative(Encode(bs[0]), tail, s);
      BlocksStep(bs[0], tail + s);
      Associative([bs[0]], bs[1..], Blocks(s));
      assert bs == [bs[0]] + bs[1..];
    }
  }

  // --------------------------------------------------------- concatenation

  // Text that can only start a block, not finish an unfinished one.
  predicate StartsBlock(t: bytes) {
    t == [] || BEGIN <= t
  }

  // Text in which every header line is followed by the end line of a block.
  predicate Finished(s: bytes)
    decreases |s|
  {
    s == [] ||
    ((HeaderLabel(Line(s)).Some? ==> FindEnd(Rest(s)).Some?) && Finished(Rest(s)))
  }

  // Nothing is left open before the seam, or nothing after it can close it.
  predicate Joins(s: bytes, t: bytes) {
    Finished(s) || StartsBlock(t)
  }

  lemma {:induction false} FindEndAppend(s: bytes, t: bytes)
    requires Closed(s) && FindEnd(s).Some?
    ensures Closed(FindEnd(s).value.rest)
    ensures FindEnd(s + t) == Some(FindEnd(s).value.(rest := FindEnd(s).value.rest + t))
  {
    LineAppend(s, t);
    if !(END <= Line(s)) {
      FindEndAppend(Rest(s), t);
    }
  }

  predicate Undecodable(payload: bytes) {
    exists c <- payload :: !Base64.IsBase64Char(c)
  }

  lemma HeaderStays(t: bytes)
    requires BEGIN <= t
    ensures BEGIN <= Line(t) && !(END <= Line(t))
  {
    assert NL !in BEGIN;
    forall i | 0 <= i < |BEGIN|
      ensures t[i] != NL
    {
      assert t[i] == BEGIN[i];
    }
    assert LineLength(t) >= |BEGIN|;
    assert BEGIN == Line(t)[..|BEGIN|];
    assert Line(t)[5] == BEGIN[5] != END[5];
  }

  lemma FindEndAtHeader(t: bytes)
    requires BEGIN <= t
    ensures FindEnd(t).Some? ==> Undecodable(FindEnd(t).value.payload)
  {
    HeaderStays(t);
    assert Line(t)[0] == BEGIN[0] == DASH;
    assert StripBlanks(Line(t))[0] == DASH;
    if FindEnd(t).Some? {
      var payload := FindEnd(t).value.payload;
      assert payload[0] == DASH;
      assert !Base64.IsBase64Char(payload[0]);
    }
  }

  // An unfinished block swallows the hyphens of the next header, so its
  // payload cannot be base 64.
  lemma {:induction false} FindEndSwallows(s: bytes, t: bytes)
    requires Closed(s) && FindEnd(s) == None && StartsBlock(t)
    ensures FindEnd(s + t).Some? ==> Undecodable(FindEnd(s + t).value.payload)
  {
    if s == [] {
      assert s + t == t;
      if t != [] {
        FindEndAtHeader(t);
      }
    } else {
      LineAppend(s, t);
      FindEndSwallows(Rest(s), t);
    }
  }

  // A block found before the seam is found unchanged whatever is appended.
  lemma {:induction false} FindEndOfDecodable(s: bytes)
    requires Decode(s).Some?
    ensures FindEnd(s).Some?
    decreases |s|
  {
    if HeaderLabel(Line(s)).Some? && END <= Line(s) {
    } else if Attempt(s) == None {
      FindEndOfDecodable(Rest(s));
    }
  }

  lemma {:induction false} AttemptAppend(s: bytes, t: bytes)
    requires s != [] && Closed(s)
    requires HeaderLabel(Line(s)).Some? ==> FindEnd(Rest(s)).Some? || StartsBlock(t)
    ensures Attempt(s) == None ==> Attempt(s + t) == None
    ensures Attempt(s).Some? ==>
      && Closed(Attempt(s).value.rest)
      && Attempt(s + t) == Some(Attempt(s).value.(rest := Attempt(s).value.rest + t))
  {
    LineAppend(s, t);
    if FindEnd(Rest(s)).Some? {
      FindEndAppend(Rest(s), t);
    } else if HeaderLabel(Line(s)).Some? {
      FindEndSwallows(Rest(s), t);
      if FindEnd(Rest(s) + t).Some? {
        var payload := FindEnd(Rest(s) + t).value.payload;
        var i :| 0 <= i < |payload| && !Base64.IsBase64Char(payload[i]);
        Base64.DecodeRejects(payload, i);
      }
    }
  }

  lemma {:induction false} DecodeAppend(s: bytes, t: bytes)
    requires Closed(s) && Decode(s).Some?
    ensures Closed(Decode(s).value.rest)
    ensures Decode(s + t) == Some(Decode(s).value.(rest := Decode(s).value.rest + t))
    decreases |s|
  {
    LineAppend(s, t);
    if Attempt(s).Some? {
      AttemptAppend(s, t);
    } else {
      FindEndOfDecodable(Rest(s));
      AttemptAppend(s, t);
      DecodeAppend(Rest(s), t);
    }
  }

  // Text without a block in it hides nothing beyond a seam that joins.
  lemma {:induction false} DecodeSkips(s: bytes, t: bytes)
    requires Closed(s) && Decode(s) == None && Joins(s, t)
    ensures Decode(s + t) == Decode(t)
    decreases |s|
  {
    if s == [] {
      assert s + t == t;
    } else {
      LineAppend(s, t);
      AttemptAppend(s, t);
      DecodeSkips(Rest(s), t);
    }
  }

  lemma {:induction false} FinishedAfterEnd(s: bytes)
    requires Finished(s) && FindEnd(s).Some?
    ensures Finished(FindEnd(s).value.rest)
  {
    if END <= Line(s) {
    } else {
      FinishedAfterEnd(Rest(s));
    }
  }

  lemma {:induction false} FinishedAfterBlock(s: bytes)
    requires Finished(s) && Decode(s).Some?
    ensures Finished(Decode(s).value.rest)
    decreases |s|
  {
    if Attempt(s).Some? {
      FinishedAfterEnd(Rest(s));
    } else {
      FinishedAfterBlock(Rest(s));
    }
  }

  lemma {:induction false} FinishedAppend(s: bytes, t: bytes)
    requires Closed(s) && Finished(s) && Finished(t)
    ensures Finished(s + t)
    decreases |s|
  {
    if s == [] {
      assert s + t == t;
    } else {
      LineAppend(s, t);
      FinishedAppend(Rest(s), t);
      if FindEnd(Rest(s)).Some? {
        FindEndAppend(Rest(s), t);
      }
    }
  }

  // Concatenation of arbitrary closed texts at a seam that joins: the blocks of
  // the whole are the blocks of the parts.
  lemma {:induction false} BlocksAppend(s: bytes, t: bytes)
    requires Closed(s) && Joins(s, t)
    ensures Blocks(s + t) == Blocks(s) + Blocks(t)
    decreases |s|
  {
    if Decode(s).Some? {
      var d := Decode(s).value;
      DecodeAppend(s, t);
      if Finished(s) {
        FinishedAfterBlock(s);
      }
      BlocksAppend(d.rest, t);
      BlocksJoin(s, t, d);
    } else {
      DecodeSkips(s, t);
      BlocksOfNone(s, t);
    }
  }

  // A text of one line that is no block.
  lemma OneLine(line: bytes)
    requires line != [] && NL !in line
    ensures Line(line + [NL]) == line && Rest(line + [NL]) == []
    ensures Blocks(line + [NL]) == []
  {
    var s := line + [NL];
    assert s == line + [NL] + [];
    LineOf(line, []);
    assert FindEnd([]) == None;
    assert Attempt(s) == None;
    assert Decode([]) == None;
    assert Decode(s) == None;
  }

  lemma EmptyBlock(tag: bytes)
    ensures Encode(Block(tag, [])) == BEGIN + tag + DASHES + [NL] + (END + tag + DASHES + [NL])
  {
    var e := Wrap(Base64.Encode([]));
    assert e == [];
    var header := BEGIN + tag + DASHES + [NL];
    assert header + e == header;
    Associative(header, END, tag);
    Associative(header, END + tag, DASHES);
    Associative(header, END + tag + DASHES, [NL]);
  }

  lemma EmptyBlockDecodes(tag: bytes)
    requires ValidLabel(tag)
    ensures Blocks(BEGIN + tag + DASHES + [NL] + (END + tag + DASHES + [NL])) == [Block(tag, [])]
  {
    var b := Block(tag, []);
    EmptyBlock(tag);
    BlocksStep(b, []);
    assert Encode(b) + [] == Encode(b);
    assert Blocks([]) == [];
  }

  // The seam does matter: a header line left open and an end line after it are
  // no block apart and one block together.
  lemma OpenSeam(tag: bytes)
    requires ValidLabel(tag)
    ensures var s, t := BEGIN + tag + DASHES + [NL], END + tag + DASHES + [NL];
      && Closed(s) && !Joins(s, t)
      && Blocks(s) == [] && Blocks(t) == [] && Blocks(s + t) == [Block(tag, [])]
  {
    HeaderLine(tag);
    TrailerLine(tag);
    OneLine(BEGIN + tag + DASHES);
    OneLine(END + tag + DASHES);
    EmptyBlockDecodes(tag);
    EndStartsNoBlock(tag);
    assert FindEnd([]) == None;
  }

  lemma EndStartsNoBlock(tag: bytes)
    ensures !StartsBlock(END + tag + DASHES + [NL])
  {
    var t := END + tag + DASHES + [NL];
    assert t[5] == END[5] != BEGIN[5];
  }

  lemma BlocksJoin(s: bytes, t: bytes, d: Decoded)
    requires Decode(s) == Some(d)
    requires Decode(s + t) == Some(Decoded(d.block, d.rest + t))
    requires Blocks(d.rest + t) == Blocks(d.rest) + Blocks(t)
    ensures Blocks(s + t) == Blocks(s) + Blocks(t)
  {
    calc {
      Blocks(s + t);
      [d.block] + Blocks(d.rest + t);
      [d.block] + (Blocks(d.rest) + Blocks(t));
      { Associative([d.block], Blocks(d.rest), Blocks(t)); }
      [d.block] + Blocks(d.rest) + Blocks(t);
      Blocks(s) + Blocks(t);
    }
  }

  lemma BlocksOfNone(s: bytes, t: bytes)
    requires Decode(s) == None && Decode(s + t) == Decode(t)
    ensures Blocks(s + t) == Blocks(s) + Blocks(t)
  {
    assert Blocks(s) == [];
    assert Blocks(s + t) == Blocks(t);
  }

  // Ending the last line changes no block.
  lemma {:induction false} LineEnded(s: bytes)
    requires s != [] && !Closed(s)
    ensures Line(s + [NL]) == Line(s)
    ensures if Rest(s) == [] then Rest(s + [NL]) == []
            else Rest(s + [NL]) == Rest(s) + [NL] && !Closed(Rest(s))
  {
    var n := LineLength(s);
    if n < |s| {
      assert s + [NL] == s[..n] + [NL] + (s[n + 1..] + [NL]);
      LineOf(s[..n], s[n + 1..] + [NL]);
    } else {
      assert s[..n] == s;
      assert s + [NL] == s + [NL] + [];
      LineOf(s, []);
    }
  }

  lemma {:induction false} FindEndEnded(s: bytes)
    requires s != [] && !Closed(s)
    ensures FindEnd(s) == None <==> FindEnd(s + [NL]) == None
    ensures FindEnd(s).Some? ==>
      var t, u := FindEnd(s).value, FindEnd(s + [NL]).value;
      && u.payload == t.payload && u.trailer == t.trailer
      && (if t.rest == [] then u.rest == [] else u.rest == t.rest + [NL] && !Closed(t.rest))
  {
    LineEnded(s);
    if !(END <= Line(s)) && Rest(s) != [] {
      FindEndEnded(Rest(s));
    }
  }

  lemma {:induction false} DecodeEnded(s: bytes)
    requires s != [] && !Closed(s)
    ensures Decode(s) == None <==> Decode(s + [NL]) == None
    ensures Decode(s).Some? ==>
      var d, e := Decode(s).value, Decode(s + [NL]).value;
      && e.block == d.block
      && (if d.rest == [] then e.rest == [] else e.rest == d.rest + [NL] && !Closed(d.rest))
    decreases |s|
  {
    LineEnded(s);
    if Rest(s) == [] {
    } else {
      FindEndEnded(Rest(s));
      if Attempt(s) == None {
        DecodeEnded(Rest(s));
      }
    }
  }

  lemma {:induction false} BlocksEnded(s: bytes)
    requires s != [] && !Closed(s)
    ensures Blocks(s + [NL]) == Blocks(s)
    decreases |s|
  {
    DecodeEnded(s);
    if Decode(s).Some? && Decode(s).value.rest != [] {
      BlocksEnded(Decode(s).value.rest);
    }
  }

  lemma {:induction false} FinishedEnded(s: bytes)
    requires s != [] && !Closed(s) && Finished(s)
    ensures Finished(s + [NL])
    decreases |s|
  {
    LineEnded(s);
    if Rest(s) == [] {
    } else {
      FindEndEnded(Rest(s));
      FinishedEnded(Rest(s));
    }
  }

  // ------------------------------------------------ encodings are finished

  lemma {:induction false} TrimRightPrefix(s: bytes)
    ensures TrimRight(s) <= s
  {
    if s == [] || !IsBlank(s[|s| - 1]) {
    } else {
      TrimRightPrefix(s[..|s| - 1]);
    }
  }

  lemma NoHeader(line: bytes)
    requires !(BEGIN <= line)
    ensures HeaderLabel(line) == None
  {
    TrimRightPrefix(line);
  }

  lemma FinishedLine(line: bytes, s: bytes)
    requires NL !in line && HeaderLabel(line) == None && Finished(s)
    ensures Finished(line + [NL] + s)
  {
    LineOf(line, s);
  }

  lemma {:induction false} FinishedWrap(e: bytes, after: bytes)
    requires Base64.IsText(e) && Finished(after)
    ensures Finished(Wrap(e) + after)
    decreases |e|
  {
    if |e| == 0 {
      assert Wrap(e) + after == after;
    } else {
      var n := if |e| <= 64 then |e| else 64;
      TextLine(e, n);
      FinishedWrap(e[n..], after);
      WrapStep(e, n, after);
      assert Base64.IsBase64Char(e[0]) && !Base64.IsBase64Char(BEGIN[0]);
      NoHeader(e[..n]);
      FinishedLine(e[..n], Wrap(e[n..]) + after);
    }
  }

  lemma FinishedTrailer(tag: bytes)
    requires ValidLabel(tag)
    ensures Finished(END + tag + DASHES + [NL] + [])
  {
    var trailer := END + tag + DASHES;
    TrailerLine(tag);
    assert trailer[5] == END[5] != BEGIN[5];
    NoHeader(trailer);
    FinishedLine(trailer, []);
  }

  lemma FinishedEncode(b: Block)
    requires ValidBlock(b)
    ensures Finished(Encode(b))
  {
    var header, trailer := BEGIN + b.tag + DASHES, END + b.tag + DASHES;
    var e := Base64.Encode(b.der);
    var rest := Wrap(e) + (trailer + [NL] + []);
    HeaderLine(b.tag);
    TrailerLine(b.tag);
    FindEndWrap(e, trailer, []);
    FinishedTrailer(b.tag);
    FinishedWrap(e, trailer + [NL] + []);
    EncodeParts(b, []);
    assert Encode(b) + [] == Encode(b);
    LineOf(header, rest);
  }

  lemma {:induction false} EncodeAllFinished(bs: seq<Block>)
    requires forall b <- bs :: ValidBlock(b)
    ensures Finished(EncodeAll(bs))
  {
    if bs == [] {
    } else {
      FinishedEncode(bs[0]);
      EncodeAllFinished(bs[1..]);
      assert Encode(bs[0])[|Encode(bs[0])| - 1] == NL;
      FinishedAppend(Encode(bs[0]), EncodeAll(bs[1..]));
    }
  }

  lemma {:induction false} WrapLonger(e: bytes)
    ensures |Wrap(e)| >= |e|
    decreases |e|
  {
    if |e| <= 64 {
    } else {
      WrapLonger(e[64..]);
    }
  }

  // How long an encoding is: the frame alone when empty, and never shorter
  // than frame and content together.
  lemma EncodeLength(b: Block)
    ensures |Encode(b)| >= 32 + 2 * |b.tag| + |b.der|
    ensures b.der == [] ==> |Encode(b)| == 32 + 2 * |b.tag|
  {
    Base64.EncodeLonger(b.der);
    WrapLonger(Base64.Encode(b.der));
  }

  // --------------------------------------------- what a block looks like

  // The bytes of a text of one-byte characters.
  function Ascii(text: string): bytes {
    seq(|text|, i requires 0 <= i < |text| => if text[i] as int < 256 then text[i] as int else 0)
  }

  lemma Spellings()
    ensures BEGIN == Ascii("-----BEGIN ") && END == Ascii("-----END ") && DASHES == Ascii("-----")
    ensures CERTIFICATE == Ascii("CERTIFICATE") && PRIVATE_KEY == Ascii("PRIVATE KEY") && [NL] == Ascii("\n")
  {
  }

  // White space within a line, and all of it.
  predicate IsGap(c: byte) {
    c as int in {' ' as int, '\t' as int, '\r' as int}
  }

  // What is left of a text without any white space.
  function Bare(s: bytes): bytes {
    if s == [] then []
    else (if IsGap(s[0]) || s[0] as int == '\n' as int then [] else [s[0]]) + Bare(s[1..])
  }

  predicate AllGaps(s: bytes) {
    forall i :: 0 <= i < |s| ==> IsGap(s[i])
  }

  lemma {:induction false} BareAppend(s: bytes, t: bytes)
    ensures Bare(s + t) == Bare(s) + Bare(t)
  {
    if s == [] {
      assert s + t == t;
    } else {
      var first := if IsGap(s[0]) || s[0] as int == '\n' as int then [] else [s[0]];
      BareAppend(s[1..], t);
      assert (s + t)[0] == s[0] && (s + t)[1..] == s[1..] + t;
      Associative(first, Bare(s[1..]), Bare(t));
    }
  }

  lemma {:induction false} BareOfLine(line: bytes)
    requires NL !in line
    ensures Bare(line) == StripBlanks(line)
  {
    if line == [] {
    } else {
      BareOfLine(line[1..]);
    }
  }

  lemma BareLine(line: bytes, s: bytes)
    requires NL !in line
    ensures Bare(line + [NL] + s) == StripBlanks(line) + Bare(s)
  {
    BareAppend(line + [NL], s);
    BareAppend(line, [NL]);
    BareOfLine(line);
    assert Bare([NL]) == [] by { assert [NL][1..] == []; }
    assert StripBlanks(line) + [] == StripBlanks(line);
  }

  lemma {:induction false} TrimGaps(line: bytes, gaps: bytes)
    requires AllGaps(gaps) && (line != [] ==> !IsGap(line[|line| - 1]))
    ensures TrimRight(line + gaps) == line
    decreases |gaps|
  {
    if gaps == [] {
      assert line + gaps == line;
      TrimRightId(line);
    } else {
      assert (line + gaps)[..|line + gaps| - 1] == line + gaps[..|gaps| - 1];
      TrimGaps(line, gaps[..|gaps| - 1]);
    }
  }

  // Any text of whole lines without a hyphen is the payload of the end line
  // after it, white space aside.
  lemma {:induction false} FindEndBody(body: bytes, end: bytes, s: bytes)
    requires Closed(body) && DASH !in body && NL !in end && END <= end
    ensures FindEnd(body + (end + [NL] + s)) == Some(Tail(Bare(body), TrimRight(end), s))
    decreases |body|
  {
    var after := end + [NL] + s;
    if body == [] {
      assert body + after == after;
      FindEndStep(end, s);
    } else {
      var line, rest := Line(body), Rest(body);
      LineAppend(body, after);
      LineApart(body);
      FindEndBody(rest, end, s);
      BareLine(line, rest);
      assert !(END <= line) by {
        assert DASH !in line;
      }
    }
  }

  lemma LineApart(s: bytes)
    requires s != [] && Closed(s)
    ensures s == Line(s) + [NL] + Rest(s) && NL !in Line(s)
  {
  }

  // However the payload is broken into lines, whatever blanks, tabs and
  // carriage returns stand in it and after the header and the end line: the
  // block is found, and what follows it is the rest.
  lemma LooseBlock(tag: bytes, a: bytes, body: bytes, b: bytes, der: bytes, s: bytes)
    requires ValidLabel(tag) && AllGaps(a) && AllGaps(b) && Closed(body) && DASH !in body
    requires Base64.Decode(Bare(body)) == Some(der)
    ensures Decode(BEGIN + tag + DASHES + a + [NL] + (body + (END + tag + DASHES + b + [NL] + s)))
         == Some(Decoded(Block(tag, der), s))
  {
    var header, end := BEGIN + tag + DASHES + a, END + tag + DASHES + b;
    LooseHeader(tag, a);
    LooseEnd(tag, b);
    FindEndBody(body, end, s);
    AttemptParts(header, tag, body + (end + [NL] + s));
  }

  lemma LooseHeader(tag: bytes, a: bytes)
    requires ValidLabel(tag) && AllGaps(a)
    ensures HeaderLabel(BEGIN + tag + DASHES + a) == Some(tag) && NL !in BEGIN + tag + DASHES + a
  {
    var line := BEGIN + tag + DASHES;
    HeaderLine(tag);
    TrimGaps(line, a);
    TrimRightId(line);
  }

  lemma LooseEnd(tag: bytes, b: bytes)
    requires ValidLabel(tag) && AllGaps(b)
    ensures var end := END + tag + DASHES + b;
            NL !in end && END <= end && TrimRight(end) == END + tag + DASHES
  {
    TrimGaps(END + tag + DASHES, b);
    TrailerLine(tag);
  }

  lemma {:induction false} TrimmedParts(s: bytes) returns (gaps: bytes)
    ensures s == TrimRight(s) + gaps && AllGaps(gaps)
  {
    if s == [] || !IsBlank(s[|s| - 1]) {
      gaps := [];
    } else {
      var g := TrimmedParts(s[..|s| - 1]);
      gaps := g + [s[|s| - 1]];
      assert s == s[..|s| - 1] + [s[|s| - 1]];
    }
  }

  // No line of it is an end line.
  predicate NoEndLine(s: bytes)
    decreases |s|
  {
    s == [] || (!(END <= Line(s)) && NoEndLine(Rest(s)))
  }

  // An end line, ended or at the very end of the text.
  predicate EndsWith(s: bytes, end: bytes, rest: bytes) {
    s == end + [NL] + rest || (s == end && rest == [])
  }

  lemma FirstLine(s: bytes)
    requires s != []
    ensures NL !in Line(s) && EndsWith(s, Line(s), Rest(s))
  {
    assert s == s[..LineLength(s)] + s[LineLength(s)..];
  }

  lemma {:induction false} FindEndSound(s: bytes) returns (body: bytes, end: bytes, after: bytes)
    requires FindEnd(s).Some?
    ensures s == body + after && EndsWith(after, end, FindEnd(s).value.rest)
    ensures Closed(body) && NoEndLine(body) && END <= end && NL !in end
    ensures FindEnd(s).value.trailer == TrimRight(end) && FindEnd(s).value.payload == Bare(body)
  {
    FirstLine(s);
    if END <= Line(s) {
      body, end, after := [], Line(s), s;
    } else {
      var more;
      more, end, after := FindEndSound(Rest(s));
      body := Line(s) + [NL] + more;
      BodyLine(Line(s), more);
      WholeLine(s);
      Associative(Line(s) + [NL], more, after);
    }
  }

  lemma WholeLine(s: bytes)
    requires s != [] && Rest(s) != []
    ensures s == Line(s) + [NL] + Rest(s)
  {
    FirstLine(s);
  }

  // One more line in front of a body.
  lemma BodyLine(line: bytes, more: bytes)
    requires NL !in line && !(END <= line) && Closed(more) && NoEndLine(more)
    ensures var body := line + [NL] + more;
      Closed(body) && NoEndLine(body) && Bare(body) == StripBlanks(line) + Bare(more)
  {
    LineOf(line, more);
    BareLine(line, more);
  }

  // And nothing else is a block: a header line, lines none of which is an end
  // line and whose characters are base 64, and the end line of the same label.
  lemma BlockSound(s: bytes) returns (a: bytes, body: bytes, b: bytes, after: bytes)
    requires Attempt(s).Some?
    ensures var d := Attempt(s).value; var tag := d.block.tag;
      && AllGaps(a) && AllGaps(b) && Closed(body) && NoEndLine(body)
      && s == BEGIN + tag + DASHES + a + [NL] + (body + after)
      && EndsWith(after, END + tag + DASHES + b, d.rest)
      && Base64.Decode(Bare(body)) == Some(d.block.der)
  {
    var tag := Attempt(s).value.block.tag;
    a := TrimmedParts(Line(s));
    HeaderShape(Line(s), tag);
    var end;
    body, end, after := FindEndSound(Rest(s));
    b := TrimmedParts(end);
    WholeLine(s);
  }

  lemma HeaderShape(line: bytes, tag: bytes)
    requires HeaderLabel(line) == Some(tag)
    ensures TrimRight(line) == BEGIN + tag + DASHES
  {
    var l := TrimRight(line);
    assert l == l[..11] + l[11..|l| - 5] + l[|l| - 5..];
  }

  // The text after n lines.
  function AfterLines(s: bytes, n: nat): bytes
    decreases n
  {
    if n == 0 then s else AfterLines(Rest(s), n - 1)
  }

  // That is what is left of the text behind whole lines, or nothing.
  lemma {:induction false} AfterLinesSuffix(s: bytes, n: nat) returns (before: bytes)
    ensures AfterLines(s, n) != [] ==> s == before + AfterLines(s, n) && Closed(before)
    decreases n
  {
    if n == 0 || Rest(s) == [] {
      before := [];
      NothingLeft(n);
      if n > 0 {
        NothingLeft(n - 1);
      }
    } else {
      var more := AfterLinesSuffix(Rest(s), n - 1);
      before := Line(s) + [NL] + more;
      WholeLine(s);
      Associative(Line(s) + [NL], more, AfterLines(s, n));
    }
  }

  // No block starts on any of the first n lines.
  predicate NoneBefore(s: bytes, n: nat)
    decreases n
  {
    n == 0 || (Attempt(s) == None && NoneBefore(Rest(s), n - 1))
  }

  // The first line that starts a block; the number of lines if none does.
  function FirstStart(s: bytes): (n: nat)
    decreases |s|
  {
    if s == [] || Attempt(s).Some? then 0 else 1 + FirstStart(Rest(s))
  }

  // What is decoded is such a block, at the first line where there is one, and
  // nothing is decoded only if there is none.
  lemma {:induction false} DecodeSound(s: bytes)
    ensures Attempt(AfterLines(s, FirstStart(s))) == Decode(s)
    ensures NoneBefore(s, FirstStart(s))
    decreases |s|
  {
    if s == [] {
      assert HeaderLabel([]) == None;
    } else if Attempt(s).Some? {
    } else {
      DecodeSound(Rest(s));
    }
  }

  lemma {:induction false} NothingLeft(n: nat)
    ensures AfterLines([], n) == []
  {
    if n == 0 {
    } else {
      NothingLeft(n - 1);
    }
  }

  // An encoding has full lines of 64 characters and one shorter or full one at
  // the end.
  lemma {:induction false} WrapShape(e: bytes, i: nat)
    requires i < |Wrap(e)|
    ensures |Wrap(e)| == |e| + (|e| + 63) / 64
    ensures i % 65 == 64 || i == |Wrap(e)| - 1 ==> Wrap(e)[i] == NL
    ensures !(i % 65 == 64 || i == |Wrap(e)| - 1) ==> i - i / 65 < |e| && Wrap(e)[i] == e[i - i / 65]
    decreases |e|
  {
    if |e| <= 64 {
    } else {
      var rest := e[64..];
      if i < 65 {
        WrapShape(rest, 0);
      } else {
        WrapShape(rest, i - 65);
        assert Wrap(e)[i] == Wrap(rest)[i - 65];
      }
    }
  }
}
