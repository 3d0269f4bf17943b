/** Quoted-printable text (section 6.7 of RFC 2045): the encoder, a decoder, and the shape of the lines. */
module QuotedPrintable {
  import opened Basics

  const CR: Byte := 13
  const LF: Byte := 10
  const CRLF := "\r\n"

  // ---------------------------------------------------------------- the input

  /** Every line end, with or without a carriage return, becomes CR LF. */
  function Normalised(s: seq<Byte>): seq<Byte> {
    if s == [] then []
    else if s[0] == CR && |s| > 1 && s[1] == LF then [CR, LF] + Normalised(s[2..])
    else if s[0] == LF then [CR, LF] + Normalised(s[1..])
    else [s[0]] + Normalised(s[1..])
  }

  lemma {:induction false} NormalisingTwice(s: seq<Byte>)
    ensures Normalised(Normalised(s)) == Normalised(s)
    ensures s != [] && s[0] != LF ==> Normalised(s) != [] && Normalised(s)[0] == s[0]
  {
    if s != [] {
      var skip := if s[0] == CR && |s| > 1 && s[1] == LF then 2 else 1;
      var rest := Normalised(s[skip..]);
      NormalisingTwice(s[skip..]);
      if skip == 2 || s[0] == LF {
        assert ([CR, LF] + rest)[2..] == rest;
      } else {
        assert ([s[0]] + rest)[1..] == rest;
        assert s[1..] != [] ==> s[0] != CR || s[1] != LF;
      }
    }
  }

  // ---------------------------------------------------------------- the encoder

  datatype State = State(out: string, lineLength: nat)

  function HexDigit(n: nat): char
    requires n < 16
  {
    "0123456789ABCDEF"[n]
  }

  predicate Literal(b: Byte) {
    0x20 <= b <= 0x7e && b != 0x3d
  }

  /** What stands for one byte: itself, or an escape. */
  function Chunk(b: Byte): (r: string)
    ensures |r| == 1 || |r| == 3
  {
    if Literal(b) then [b as char] else ['=', HexDigit(b / 16), HexDigit(b % 16)]
  }

  function Push(st: State, chunk: string): State {
    if st.lineLength + |chunk| > 75 then State(st.out + "=" + CRLF + chunk, |chunk|)
    else State(st.out + chunk, st.lineLength + |chunk|)
  }

  predicate EndsWith(s: string, c: char) {
    s != "" && s[|s| - 1] == c
  }

  /** White space before a line end is escaped. */
  function EscapedTail(s: string): string {
    if EndsWith(s, ' ') then s[..|s| - 1] + "=20"
    else if EndsWith(s, '\t') then s[..|s| - 1] + "=09"
    else s
  }

  function Break(st: State): State {
    State(EscapedTail(st.out) + CRLF, 0)
  }

  predicate AtBreak(s: seq<Byte>) {
    |s| > 1 && s[0] == CR && s[1] == LF
  }

  function Encode(st: State, s: seq<Byte>): State
    decreases |s|
  {
    if s == [] then st
    else if AtBreak(s) then Encode(Break(st), s[2..])
    else Encode(Push(st, Chunk(s[0])), s[1..])
  }

  const START := State("", 0)

  function Encoded(input: seq<Byte>): string {
    Encode(START, Normalised(input)).out
  }

  /** The loop of the source over the normalised bytes. */
  method QuotedPrintable(input: seq<Byte>) returns (out: string)
    ensures out == Encoded(input)
  {
    var bytes := Normalised(input);
    out := "";
    var lineLength: nat := 0;
    var i := 0;
    while i < |bytes|
      invariant 0 <= i <= |bytes|
      invariant Encode(State(out, lineLength), bytes[i..]) == Encode(START, bytes)
    {
      var b := bytes[i];
      assert bytes[i..][0] == b && bytes[i..][1..] == bytes[i + 1..];
      if b == CR && i + 1 < |bytes| && bytes[i + 1] == LF {
        assert bytes[i..][1] == LF && bytes[i..][2..] == bytes[i + 2..];
        if EndsWith(out, ' ') {
          out := out[..|out| - 1] + "=20";
        } else if EndsWith(out, '\t') {
          out := out[..|out| - 1] + "=09";
        }
        out := out + CRLF;
        lineLength := 0;
        i := i + 1;
      } else {
        var chunk := Chunk(b);
        if lineLength + |chunk| > 75 {
          out := out + "=" + CRLF;
          lineLength := 0;
        }
        out := out + chunk;
        lineLength := lineLength + |chunk|;
      }
      i := i + 1;
    }
  }

  // ---------------------------------------------------------------- the decoder

  predicate IsHex(c: char) {
    '0' <= c <= '9' || 'A' <= c <= 'F'
  }

  function HexValue(c: char): nat
    requires IsHex(c)
    ensures HexValue(c) < 16
  {
    if c <= '9' then c as nat - '0' as nat else c as nat - 'A' as nat + 10
  }

  /** How much of the text the decoder consumes first. */
  function Unit(s: string): nat
    requires s != ""
  {
    if s[0] == '=' then 3 else if s[0] == '\r' then 2 else 1
  }

  /** The bytes of the first unit: none for a soft line break; no result for text that is not quoted-printable. */
  function Head(s: string): Option<seq<Byte>>
    requires s != ""
  {
    if |s| < Unit(s) then None
    else if s[0] == '=' then
      if s[1] == '\r' && s[2] == '\n' then Some([])
      else if IsHex(s[1]) && IsHex(s[2]) then Some([HexValue(s[1]) * 16 + HexValue(s[2])])
      else None
    else if s[0] == '\r' then
      if s[1] == '\n' then Some([CR, LF]) else None
    else if ' ' <= s[0] <= '~' || s[0] == '\t' then Some([s[0] as nat])
    else None
  }

  function Prefixed(head: seq<Byte>, rest: Option<seq<Byte>>): Option<seq<Byte>> {
    if rest.Some? then Some(head + rest.value) else None
  }

  function Decode(s: string): Option<seq<Byte>> {
    if s == "" then Some([])
    else if Head(s).None? then None
    else Prefixed(Head(s).value, Decode(s[Unit(s)..]))
  }

  lemma PrefixedTwice(a: seq<Byte>, b: seq<Byte>, rest: Option<seq<Byte>>)
    ensures Prefixed(a, Prefixed(b, rest)) == Prefixed(a + b, rest)
  {
    if rest.Some? {
      assert a + (b + rest.value) == a + b + rest.value;
    }
  }

  /** A text of one unit. */
  lemma DecodeUnit(s: string)
    requires s != "" && |s| == Unit(s) && Head(s).Some?
    ensures Decode(s) == Head(s)
  {
    assert s[Unit(s)..] == "";
    assert Head(s).value + [] == Head(s).value;
  }

  lemma HeadStays(a: string, b: string)
    requires a != "" && Head(a).Some?
    ensures Unit(a) <= |a| && Unit(a + b) == Unit(a) && Head(a + b) == Head(a) && (a + b)[Unit(a)..] == a[Unit(a)..] + b
  {
  }

  /** Text that decodes on its own decodes the same way in front of more text. */
  lemma {:induction false} DecodeConcat(a: string, b: string)
    requires Decode(a).Some?
    ensures Decode(a + b) == Prefixed(Decode(a).value, Decode(b))
  {
    if a == "" {
      assert a + b == b;
      assert Decode(b).Some? ==> [] + Decode(b).value == Decode(b).value;
    } else {
      HeadStays(a, b);
      var rest := a[Unit(a)..];
      DecodeConcat(rest, b);
      PrefixedTwice(Head(a).value, Decode(rest).value, Decode(b));
    }
  }

  /** A final white-space character decodes to itself, whatever stands before it. */
  lemma {:induction false} DecodeFinalSpace(p: string, c: char)
    requires (c == ' ' || c == '\t') && Decode(p + [c]).Some?
    ensures Decode(p).Some? && Decode(p + [c]) == Some(Decode(p).value + [c as nat])
  {
    if p == "" {
      assert p + [c] == [c];
      DecodeUnit([c]);
      assert Decode(p).value + [c as nat] == [c as nat];
    } else {
      var n := Unit(p);
      assert Head(p + [c]).Some?;
      assert n <= |p|;
      assert (p + [c])[n..] == p[n..] + [c];
      DecodeFinalSpace(p[n..], c);
      PrefixedTwice(Head(p).value, Decode(p[n..]).value, Some([c as nat]));
    }
  }

  lemma DecodeChunk(b: Byte)
    ensures Decode(Chunk(b)) == Some([b])
  {
    if !Literal(b) {
      assert HexValue(HexDigit(b / 16)) == b / 16 && HexValue(HexDigit(b % 16)) == b % 16;
    }
    DecodeUnit(Chunk(b));
  }

  lemma DecodeSoft(chunk: string)
    ensures Decode("=" + CRLF + chunk) == Decode(chunk)
  {
    var s := "=" + CRLF + chunk;
    assert s[3..] == chunk && Head(s) == Some([]);
    assert Decode(chunk).Some? ==> [] + Decode(chunk).value == Decode(chunk).value;
  }

  /** The state encodes exactly these bytes. */
  predicate Means(st: State, bytes: seq<Byte>) {
    Decode(st.out) == Some(bytes)
  }

  lemma PushMeans(st: State, bytes: seq<Byte>, b: Byte)
    requires Means(st, bytes)
    ensures Means(Push(st, Chunk(b)), bytes + [b])
  {
    DecodeChunk(b);
    DecodeSoft(Chunk(b));
    DecodeConcat(st.out, Chunk(b));
    DecodeConcat(st.out, "=" + CRLF + Chunk(b));
    assert st.out + "=" + CRLF + Chunk(b) == st.out + ("=" + CRLF + Chunk(b));
  }

  lemma SpaceEscapes()
    ensures Decode("=20") == Some([' ' as nat]) && Decode("=09") == Some(['\t' as nat])
  {
    DecodeUnit("=20");
    DecodeUnit("=09");
  }

  lemma EscapedTailMeans(s: string)
    requires Decode(s).Some?
    ensures Decode(EscapedTail(s)) == Decode(s)
  {
    if EndsWith(s, ' ') || EndsWith(s, '\t') {
      var p, c := s[..|s| - 1], s[|s| - 1];
      assert s == p + [c];
      DecodeFinalSpace(p, c);
      SpaceEscapes();
      DecodeConcat(p, if c == ' ' then "=20" else "=09");
    }
  }

  lemma BreakMeans(st: State, bytes: seq<Byte>)
    requires Means(st, bytes)
    ensures Means(Break(st), bytes + [CR, LF])
  {
    EscapedTailMeans(st.out);
    DecodeUnit(CRLF);
    DecodeConcat(EscapedTail(st.out), CRLF);
  }

  lemma Appended(bytes: seq<Byte>, s: seq<Byte>, n: nat)
    requires n <= |s|
    ensures bytes + s[..n] + s[n..] == bytes + s
  {
    assert s == s[..n] + s[n..];
  }

  lemma {:induction false} EncodeMeans(st: State, bytes: seq<Byte>, s: seq<Byte>)
    requires Means(st, bytes)
    ensures Means(Encode(st, s), bytes + s)
    decreases |s|
  {
    if s == [] {
      assert bytes + s == bytes;
    } else if AtBreak(s) {
      BreakMeans(st, bytes);
      assert s[..2] == [CR, LF];
      Appended(bytes, s, 2);
      EncodeMeans(Break(st), bytes + s[..2], s[2..]);
    } else {
      PushMeans(st, bytes, s[0]);
      assert s[..1] == [s[0]];
      Appended(bytes, s, 1);
      EncodeMeans(Push(st, Chunk(s[0])), bytes + s[..1], s[1..]);
    }
  }

  /** Decoding gives back the input with its line ends normalised. */
  lemma DecodeInvertsEncode(input: seq<Byte>)
    ensures Decode(Encoded(input)) == Some(Normalised(input))
  {
    EncodeMeans(START, [], Normalised(input));
    assert [] + Normalised(input) == Normalised(input);
  }

  // ---------------------------------------------------------------- lines

  predicate BreakAt(s: string, i: int) {
    0 <= i < |s| - 1 && s[i] == '\r' && s[i + 1] == '\n'
  }

  /** Length of the text after the last line end. */
  function TailLength(s: string): nat {
    if s == "" || (|s| >= 2 && BreakAt(s, |s| - 2)) then 0 else 1 + TailLength(s[..|s| - 1])
  }

  /** What may stand before a line end: a soft break within 76, or a hard one without raw white space, within 77. */
  predicate LineOk(p: string) {
    var n := TailLength(p);
    if EndsWith(p, '=') then n <= 76
    else !EndsWith(p, ' ') && !EndsWith(p, '\t') && n <= 77 && (n > 75 ==> EscapedSpace(p))
  }

  predicate EscapedSpace(p: string) {
    |p| >= 3 && (p[|p| - 3..] == "=20" || p[|p| - 3..] == "=09")
  }

  /** Everything that stands before a line end is in order. */
  ghost predicate AllBreaks(s: string, ok: string -> bool) {
    forall i :: BreakAt(s, i) ==> ok(s[..i])
  }

  ghost predicate LinesOk(s: string) {
    AllBreaks(s, LineOk)
  }

  ghost predicate Tidy(st: State) {
    LinesOk(st.out) && TailLength(st.out) == st.lineLength <= 75 && !EndsWith(st.out, '=')
  }

  predicate NoBreaks(s: string) {
    forall i :: 0 <= i < |s| ==> s[i] != '\r' && s[i] != '\n'
  }

  lemma {:induction false} TailGrows(s: string, t: string)
    requires NoBreaks(t)
    ensures TailLength(s + t) == TailLength(s) + |t|
  {
    if t == "" {
      assert s + t == s;
    } else {
      var u := t[..|t| - 1];
      TailGrows(s, u);
      assert (s + t)[..|s + t| - 1] == s + u;
      assert !BreakAt(s + t, |s + t| - 2);
    }
  }

  lemma TextKeepsBreaks(s: string, t: string, ok: string -> bool)
    requires AllBreaks(s, ok) && NoBreaks(t)
    ensures AllBreaks(s + t, ok)
  {
    forall i | BreakAt(s + t, i) ensures ok((s + t)[..i]) {
      assert BreakAt(s, i);
      assert (s + t)[..i] == s[..i];
    }
  }

  lemma BreakKeepsBreaks(s: string, ok: string -> bool)
    requires AllBreaks(s, ok) && ok(s)
    ensures AllBreaks(s + CRLF, ok) && TailLength(s + CRLF) == 0
  {
    forall i | BreakAt(s + CRLF, i) ensures ok((s + CRLF)[..i]) {
      if i == |s| {
        assert (s + CRLF)[..i] == s;
      } else {
        assert i < |s| - 1;
        assert BreakAt(s, i);
        assert (s + CRLF)[..i] == s[..i];
      }
    }
    assert BreakAt(s + CRLF, |s|);
  }

  lemma PrefixKeepsBreaks(s: string, n: nat, ok: string -> bool)
    requires AllBreaks(s, ok) && n <= |s|
    ensures AllBreaks(s[..n], ok)
  {
    forall i | BreakAt(s[..n], i) ensures ok(s[..n][..i]) {
      assert BreakAt(s, i);
      assert s[..n][..i] == s[..i];
    }
  }

  /** White space escaped at the end leaves every earlier line as it is. */
  lemma EscapeKeepsBreaks(s: string, ok: string -> bool)
    requires AllBreaks(s, ok)
    ensures AllBreaks(EscapedTail(s), ok)
  {
    if EndsWith(s, ' ') || EndsWith(s, '\t') {
      PrefixKeepsBreaks(s, |s| - 1, ok);
      TextKeepsBreaks(s[..|s| - 1], if EndsWith(s, ' ') then "=20" else "=09", ok);
    }
  }

  lemma ChunkIsText(b: Byte)
    ensures NoBreaks(Chunk(b)) && !EndsWith(Chunk(b), '=')
  {
  }

  /** A soft break leaves an empty line behind a well-shaped one. */
  lemma SoftBreakTidy(s: string)
    requires LinesOk(s) && TailLength(s) <= 75
    ensures LinesOk(s + "=" + CRLF) && TailLength(s + "=" + CRLF) == 0
  {
    TextKeepsBreaks(s, "=", LineOk);
    TailGrows(s, "=");
    BreakKeepsBreaks(s + "=", LineOk);
  }

  lemma AppendTidy(s: string, t: string)
    requires LinesOk(s) && NoBreaks(t) && t != "" && !EndsWith(t, '=')
    ensures LinesOk(s + t) && TailLength(s + t) == TailLength(s) + |t| && !EndsWith(s + t, '=')
  {
    TextKeepsBreaks(s, t, LineOk);
    TailGrows(s, t);
  }

  lemma PushTidy(st: State, b: Byte)
    requires Tidy(st)
    ensures Tidy(Push(st, Chunk(b)))
  {
    ChunkIsText(b);
    if st.lineLength + |Chunk(b)| > 75 {
      SoftBreakTidy(st.out);
      AppendTidy(st.out + "=" + CRLF, Chunk(b));
    } else {
      AppendTidy(st.out, Chunk(b));
    }
  }

  lemma EscapedTailIsOk(s: string)
    requires LinesOk(s) && TailLength(s) <= 75 && !EndsWith(s, '=')
    ensures LinesOk(EscapedTail(s)) && LineOk(EscapedTail(s))
  {
    EscapeKeepsBreaks(s, LineOk);
    EscapedTailLength(s);
    if EndsWith(s, ' ') || EndsWith(s, '\t') {
      var p := s[..|s| - 1];
      assert EscapedTail(s)[|p|..] == if EndsWith(s, ' ') then "=20" else "=09";
    }
  }

  lemma EscapedTailLength(s: string)
    ensures TailLength(EscapedTail(s)) == TailLength(s) + if EndsWith(s, ' ') || EndsWith(s, '\t') then 2 else 0
  {
    if EndsWith(s, ' ') || EndsWith(s, '\t') {
      var p := s[..|s| - 1];
      assert s == p + [s[|s| - 1]];
      TailGrows(p, [s[|s| - 1]]);
      TailGrows(p, if EndsWith(s, ' ') then "=20" else "=09");
    }
  }

  lemma BreakTidy(st: State)
    requires Tidy(st)
    ensures Tidy(Break(st))
  {
    EscapedTailIsOk(st.out);
    BreakKeepsBreaks(EscapedTail(st.out), LineOk);
  }

  lemma {:induction false} EncodeTidy(st: State, s: seq<Byte>)
    requires Tidy(st)
    ensures Tidy(Encode(st, s))
    decreases |s|
  {
    if s != [] {
      if AtBreak(s) {
        BreakTidy(st);
        EncodeTidy(Break(st), s[2..]);
      } else {
        PushTidy(st, s[0]);
        EncodeTidy(Push(st, Chunk(s[0])), s[1..]);
      }
    }
  }

  /**
   * Every soft-broken line has at most 76 characters; every hard-broken one at most 77, more than 75
   * only when its final white space was escaped, and none ends in raw white space; the unbroken rest
   * has at most 75.
   */
  lemma LinesAreShaped(input: seq<Byte>)
    ensures LinesOk(Encoded(input)) && TailLength(Encoded(input)) <= 75
  {
    assert Tidy(START);
    EncodeTidy(START, Normalised(input));
  }

  // ---------------------------------------------------------------- exactly how long lines are

  function Width(b: Byte): nat {
    if Literal(b) then 1 else 3
  }

  predicate EndsInBreak(s: seq<Byte>) {
    |s| >= 2 && s[|s| - 2] == CR && s[|s| - 1] == LF
  }

  /**
   * How far into its line a text of whole units reaches, from the widths of its bytes alone: a byte
   * that would pass 75 starts the next line.
   */
  function Column(s: seq<Byte>): nat {
    if s == [] || EndsInBreak(s) then 0
    else
      var before, w := Column(s[..|s| - 1]), Width(s[|s| - 1]);
      if before + w > 75 then w else before + w
  }

  /** A line end of the input stands at n, and nothing is cut in two there. */
  predicate LineEndsAt(s: seq<Byte>, n: int) {
    0 <= n < |s| - 1 && s[n] == CR && s[n + 1] == LF
  }

  predicate Splits(s: seq<Byte>, n: int) {
    LineEndsAt(s, n - 1)
  }

  /** Encoding may be resumed after any whole unit. */
  lemma {:induction false} EncodeResumes(st: State, a: seq<Byte>, b: seq<Byte>)
    requires !Splits(a + b, |a|)
    ensures Encode(st, a + b) == Encode(Encode(st, a), b)
    decreases |a|
  {
    if a == [] {
      assert a + b == b;
    } else {
      var n := if AtBreak(a) then 2 else 1;
      assert AtBreak(a + b) == AtBreak(a) by {
        if |a| == 1 {
          assert (a + b)[0] == a[0];
        }
      }
      assert (a + b)[n..] == a[n..] + b;
      assert forall i :: 0 <= i < |a[n..] + b| ==> (a[n..] + b)[i] == (a + b)[n + i];
      EncodeResumes(if n == 2 then Break(st) else Push(st, Chunk(a[0])), a[n..], b);
    }
  }

  lemma EncodeByte(st: State, b: Byte)
    ensures Encode(st, [b]) == Push(st, Chunk(b))
  {
    assert [b][1..] == [];
  }

  lemma EncodeBreak(st: State)
    ensures Encode(st, [CR, LF]) == Break(st)
  {
    assert [CR, LF][2..] == [];
  }

  /** The encoder's own counter is the column; after a byte, the text ends as its chunk does. */
  lemma {:induction false} EncodedColumn(s: seq<Byte>)
    ensures Encode(START, s).lineLength == Column(s)
    ensures s != [] && !EndsInBreak(s) ==> LastOf(Encode(START, s).out, |Chunk(s[|s| - 1])|) == Chunk(s[|s| - 1])
    ensures EndsInBreak(s) ==> EndsWith(Encode(START, s).out, '\n')
  {
    if s != [] {
      if EndsInBreak(s) {
        var p := s[..|s| - 2];
        assert s == p + [CR, LF];
        EncodeResumes(START, p, [CR, LF]);
        EncodeBreak(Encode(START, p));
      } else {
        var p, b := s[..|s| - 1], s[|s| - 1];
        assert s == p + [b];
        EncodedColumn(p);
        EncodeResumes(START, p, [b]);
        EncodeByte(Encode(START, p), b);
        var out := Push(Encode(START, p), Chunk(b)).out;
        assert out[|out| - |Chunk(b)|..] == Chunk(b);
      }
    }
  }

  /** The last n characters. */
  function LastOf(s: string, n: nat): string {
    if n <= |s| then s[|s| - n..] else s
  }

  /** The text before the line end at n, as it comes out. */
  function HardLine(s: seq<Byte>, n: nat): string
    requires n <= |s|
  {
    EscapedTail(Encode(START, s[..n]).out)
  }

  /** A space before the line end takes two more characters than its column says. */
  function Excess(s: seq<Byte>, n: nat): nat
    requires n <= |s|
  {
    if n > 0 && s[n - 1] == 32 then 2 else 0
  }

  lemma EncodedTail(s: seq<Byte>)
    ensures TailLength(Encode(START, s).out) == Column(s) <= 75
    ensures !EndsWith(Encode(START, s).out, '=') && !EndsWith(Encode(START, s).out, '\t')
    ensures EndsWith(Encode(START, s).out, ' ') <==> s != [] && s[|s| - 1] == 32
  {
    assert Tidy(START);
    EncodeTidy(START, s);
    EncodedColumn(s);
    if s != [] && !EndsInBreak(s) {
      LastOfChunk(Encode(START, s).out, s[|s| - 1]);
    }
  }

  lemma LastOfChunk(out: string, b: Byte)
    requires LastOf(out, |Chunk(b)|) == Chunk(b)
    ensures EndsWith(out, ' ') <==> b == 32
    ensures !EndsWith(out, '\t')
  {
    var c := Chunk(b);
    assert LastOf(out, |c|)[|c| - 1] == c[|c| - 1];
    assert out[|out| - 1] == c[|c| - 1];
  }

  /** What ends in a line feed is never touched again. */
  lemma {:induction false} FinishedLinesStay(u: string, st: State, s: seq<Byte>)
    requires EndsWith(u, '\n') && u <= st.out
    ensures u <= Encode(st, s).out
    decreases |s|
  {
    if s != [] {
      if AtBreak(s) {
        assert u <= EscapedTail(st.out) by {
          if |u| == |st.out| { assert u == st.out; }
        }
        FinishedLinesStay(u, Break(st), s[2..]);
      } else {
        FinishedLinesStay(u, Push(st, Chunk(s[0])), s[1..]);
      }
    }
  }

  lemma EncodeThroughBreak(s: seq<Byte>, n: nat)
    requires LineEndsAt(s, n)
    ensures Encode(START, s[..n + 2]) == Break(Encode(START, s[..n]))
  {
    assert s[..n + 2] == s[..n] + [CR, LF];
    EncodeResumes(START, s[..n], [CR, LF]);
    EncodeBreak(Encode(START, s[..n]));
  }

  /** Each line end of the input comes out as a line end, behind a line of exactly this length. */
  lemma HardLineComesOut(s: seq<Byte>, n: nat)
    requires LineEndsAt(s, n)
    ensures HardLine(s, n) + CRLF <= Encode(START, s).out
    ensures TailLength(HardLine(s, n)) == Column(s[..n]) + Excess(s, n)
  {
    EncodeThroughBreak(s, n);
    assert s == s[..n + 2] + s[n + 2..];
    EncodeResumes(START, s[..n + 2], s[n + 2..]);
    FinishedLinesStay(HardLine(s, n) + CRLF, Encode(START, s[..n + 2]), s[n + 2..]);
    EncodedTail(s[..n]);
    EscapedTailLength(Encode(START, s[..n]).out);
  }

  /** What may stand before a line end of the output: a soft break, or one of the input's own lines. */
  ghost predicate Known(s: seq<Byte>, p: string) {
    EndsWith(p, '=') || exists n :: LineEndsAt(s, n) && p == HardLine(s, n)
  }

  lemma KnownInMore(s: seq<Byte>, m: nat, out: string)
    requires m <= |s| && AllBreaks(out, p => Known(s[..m], p))
    ensures AllBreaks(out, p => Known(s, p))
  {
    forall i | BreakAt(out, i) ensures Known(s, out[..i]) {
      assert Known(s[..m], out[..i]);
      if !EndsWith(out[..i], '=') {
        var n :| LineEndsAt(s[..m], n) && out[..i] == HardLine(s[..m], n);
        assert s[..m][..n] == s[..n];
        assert LineEndsAt(s, n);
      }
    }
  }

  /** No other line end comes out. */
  lemma {:induction false} EveryBreakIsKnown(s: seq<Byte>)
    ensures AllBreaks(Encode(START, s).out, p => Known(s, p))
  {
    var ok := p => Known(s, p);
    if s == [] {
    } else if EndsInBreak(s) {
      var n := |s| - 2;
      EveryBreakIsKnown(s[..n]);
      KnownInMore(s, n, Encode(START, s[..n]).out);
      EscapeKeepsBreaks(Encode(START, s[..n]).out, ok);
      EncodeThroughBreak(s, n);
      assert s[..n + 2] == s;
      assert Known(s, HardLine(s, n));
      BreakKeepsBreaks(HardLine(s, n), ok);
    } else {
      var n := |s| - 1;
      EveryBreakIsKnown(s[..n]);
      var st := Encode(START, s[..n]);
      KnownInMore(s, n, st.out);
      assert s == s[..n] + [s[n]];
      EncodeResumes(START, s[..n], [s[n]]);
      EncodeByte(st, s[n]);
      PushKeepsBreaks(st, s[n], ok);
    }
  }

  lemma PushKeepsBreaks(st: State, b: Byte, ok: string -> bool)
    requires AllBreaks(st.out, ok) && ok(st.out + "=")
    ensures AllBreaks(Push(st, Chunk(b)).out, ok)
  {
    ChunkIsText(b);
    TextKeepsBreaks(st.out, Chunk(b), ok);
    TextKeepsBreaks(st.out, "=", ok);
    BreakKeepsBreaks(st.out + "=", ok);
    TextKeepsBreaks(st.out + "=" + CRLF, Chunk(b), ok);
  }

  /** A space in column 75 before a line end. */
  predicate SpaceAtEdge(s: seq<Byte>, n: int) {
    LineEndsAt(s, n) && n > 0 && s[n - 1] == 32 && Column(s[..n]) == 75
  }

  /** Some line of the text ends in such a space. */
  ghost predicate HasSpaceAtEdge(s: seq<Byte>) {
    exists n :: SpaceAtEdge(s, n)
  }

  ghost predicate HasLineOver76(out: string) {
    TailLength(out) > 76 || exists i :: BreakAt(out, i) && TailLength(out[..i]) > 76
  }

  lemma OverlongLineHasSpaceAtEdge(s: seq<Byte>, i: int)
    requires BreakAt(Encode(START, s).out, i) && TailLength(Encode(START, s).out[..i]) > 76
    ensures HasSpaceAtEdge(s)
  {
    var p := Encode(START, s).out[..i];
    assert Tidy(START);
    EncodeTidy(START, s);
    EveryBreakIsKnown(s);
    assert LineOk(p) && Known(s, p);
    var n :| LineEndsAt(s, n) && p == HardLine(s, n);
    HardLineComesOut(s, n);
    EncodedTail(s[..n]);
    assert SpaceAtEdge(s, n);
  }

  lemma HardLineIsALine(s: seq<Byte>, n: nat)
    requires LineEndsAt(s, n)
    ensures var out, i := Encode(START, s).out, |HardLine(s, n)|; BreakAt(out, i) && out[..i] == HardLine(s, n)
  {
    HardLineComesOut(s, n);
    var out, line := Encode(START, s).out, HardLine(s, n) + CRLF;
    assert out[..|line|] == line;
    assert out[|line| - 2] == line[|line| - 2] && out[|line| - 1] == line[|line| - 1];
  }

  lemma SpaceAtEdgeMakesOverlongLine(s: seq<Byte>, n: int)
    requires SpaceAtEdge(s, n)
    ensures HasLineOver76(Encode(START, s).out)
  {
    HardLineComesOut(s, n);
    HardLineIsALine(s, n);
  }

  /**
   * The encoding breaks the limit of 76 characters of section 6.7 of RFC 2045 if and only if some
   * line of the input ends in a space that falls in column 75.
   */
  lemma OverlongIff(input: seq<Byte>)
    ensures HasLineOver76(Encoded(input)) <==> HasSpaceAtEdge(Normalised(input))
  {
    OverlongTextIff(Normalised(input));
  }

  lemma OverlongTextIff(s: seq<Byte>)
    ensures HasLineOver76(Encode(START, s).out) <==> HasSpaceAtEdge(s)
  {
    if HasLineOver76(Encode(START, s).out) {
      var i := OverlongLine(s);
      OverlongLineHasSpaceAtEdge(s, i);
    }
    forall n | SpaceAtEdge(s, n) ensures HasLineOver76(Encode(START, s).out) {
      SpaceAtEdgeMakesOverlongLine(s, n);
    }
  }

  /** It is never the unbroken rest. */
  lemma OverlongLine(s: seq<Byte>) returns (i: int)
    requires HasLineOver76(Encode(START, s).out)
    ensures BreakAt(Encode(START, s).out, i) && TailLength(Encode(START, s).out[..i]) > 76
  {
    EncodedTail(s);
    i :| BreakAt(Encode(START, s).out, i) && TailLength(Encode(START, s).out[..i]) > 76;
  }

  /**
   * The hard lines of the output are exactly the lines of the input, each as long as its column says,
   * and two more after a space.
   */
  lemma HardLinesExactly(input: seq<Byte>)
    ensures forall n :: LineEndsAt(Normalised(input), n) ==>
              var line := HardLine(Normalised(input), n);
              BreakAt(Encoded(input), |line|) && Encoded(input)[..|line|] == line
              && TailLength(line) == Column(Normalised(input)[..n]) + Excess(Normalised(input), n)
    ensures forall i :: BreakAt(Encoded(input), i) && !EndsWith(Encoded(input)[..i], '=') ==>
              exists n :: LineEndsAt(Normalised(input), n) && Encoded(input)[..i] == HardLine(Normalised(input), n)
  {
    var s, out := Normalised(input), Encoded(input);
    forall n | LineEndsAt(s, n)
      ensures var line := HardLine(s, n);
              BreakAt(out, |line|) && out[..|line|] == line && TailLength(line) == Column(s[..n]) + Excess(s, n)
    {
      HardLineComesOut(s, n);
      HardLineIsALine(s, n);
    }
    EveryBreakIsKnown(s);
    forall i | BreakAt(out, i) && !EndsWith(out[..i], '=')
      ensures exists n :: LineEndsAt(s, n) && out[..i] == HardLine(s, n)
    {
      assert Known(s, out[..i]);
    }
  }

  // ---------------------------------------------------------------- an input that does

  function Letters(n: nat): (r: seq<Byte>)
    ensures |r| == n && (n > 0 ==> r[n - 1] == 65)
  {
    if n == 0 then [] else Letters(n - 1) + [65]
  }

  lemma {:induction false} LettersColumn(n: nat)
    requires n <= 75
    ensures Column(Letters(n)) == n
  {
    if n > 0 {
      LettersColumn(n - 1);
      assert Letters(n)[..n - 1] == Letters(n - 1);
    }
  }

  lemma {:induction false} LettersStay(n: nat, rest: seq<Byte>)
    ensures Normalised(Letters(n) + rest) == Letters(n) + Normalised(rest)
  {
    if n == 0 {
      assert Letters(0) + rest == rest && Letters(0) + Normalised(rest) == Normalised(rest);
    } else {
      var more := [65] + rest;
      assert Letters(n) + rest == Letters(n - 1) + more;
      LettersStay(n - 1, more);
      assert more[1..] == rest;
      assert Letters(n - 1) + ([65] + Normalised(rest)) == Letters(n) + Normalised(rest);
    }
  }

  /** 74 letters and a space before a line end make a line of 77 characters. */
  lemma SeventySevenOccurs()
    ensures HasLineOver76(Encoded(Letters(74) + [32, CR, LF]))
  {
    var rest: seq<Byte> := [32, CR, LF];
    LettersStay(74, rest);
    assert rest[1..] == [CR, LF] && rest[1..][2..] == [];
    assert Normalised(rest[1..]) == [CR, LF] by { assert [CR, LF] + [] == [CR, LF]; }
    assert Normalised(rest) == rest;
    var s := Normalised(Letters(74) + rest);
    assert s == Letters(74) + rest;
    LettersColumn(74);
    assert s[..75] == Letters(74) + [32];
    assert s[..75][..74] == Letters(74);
    assert SpaceAtEdge(s, 75);
    OverlongIff(Letters(74) + rest);
  }
}
