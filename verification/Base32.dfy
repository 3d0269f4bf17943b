/** Unpadded base32 (section 6 of RFC 4648) as used for authenticator secrets. */
module Base32 {
  import opened Basics
  import opened Bits
  import opened Rfc4648
  import opened UpperCase

  const ALPHABET := "ABCDEFGHIJKLMNOPQRSTUVWXYZ234567"

  /** Fewer than 80 bits of secret are refused. */
  const MIN_BYTES := 10

  predicate IsSymbol(c: char) {
    'A' <= c <= 'Z' || '2' <= c <= '7'
  }

  function IndexOf(c: char): (v: nat)
    requires IsSymbol(c)
    ensures v < 32
  {
    if 'A' <= c <= 'Z' then c as int - 'A' as int else c as int - '2' as int + 26
  }

  function SymbolAt(v: nat): (c: char)
    requires v < 32
    ensures IsSymbol(c) && IndexOf(c) == v
  {
    if v < 26 then ('A' as int + v) as char else ('2' as int + (v - 26)) as char
  }

  function StripPadding(s: string): string {
    if s != "" && s[|s| - 1] == '=' then StripPadding(s[..|s| - 1]) else s
  }

  /** Upper case, which may lengthen the text, without the spaces and hyphens people copy with a secret. */
  function Fold(s: string): string {
    if s == "" then ""
    else (if s[0] == ' ' || s[0] == '-' then "" else UpperChar(s[0])) + Fold(s[1..])
  }

  function Clean(s: string): string {
    StripPadding(Fold(s))
  }

  predicate AllSymbols(s: string) {
    forall i :: 0 <= i < |s| ==> IsSymbol(s[i])
  }

  function Values(s: string): (vs: seq<nat>)
    requires AllSymbols(s)
    ensures |vs| == |s| && forall i :: 0 <= i < |s| ==> vs[i] == IndexOf(s[i])
  {
    seq(|s|, i requires 0 <= i < |s| => IndexOf(s[i]))
  }

  function Text(vs: seq<nat>): (s: string)
    requires forall i :: 0 <= i < |vs| ==> vs[i] < 32
    ensures |s| == |vs| && forall i :: 0 <= i < |vs| ==> s[i] == SymbolAt(vs[i])
  {
    seq(|vs|, i requires 0 <= i < |vs| => SymbolAt(vs[i]))
  }

  lemma P2At5()
    ensures P2(5) == 32 && P2(8) == 256
  {
  }

  function EncodeText(bytes: seq<nat>): string {
    GroupBelow(Flatten(bytes, 8) + Zeros(Pad(Flatten(bytes, 8), 5)), 5);
    P2At5();
    Text(Encode(bytes, 5))
  }

  function DecodeText(value: string): Option<seq<nat>> {
    var text := Clean(value);
    if text == "" || !AllSymbols(text) then None
    else
      var bytes := Decode(Values(text), 5);
      if |bytes| < MIN_BYTES then None else Some(bytes)
  }

  // ---------------------------------------------------------------- the loops

  /** Decode with a 32-bit accumulator that is shifted and never masked. */
  method DecodeSymbols(text: string) returns (bytes: seq<nat>)
    requires AllSymbols(text)
    ensures bytes == Decode(Values(text), 5)
  {
    P2At5();
    var out := new nat[|text| * 5 / 8];
    var acc, bits, offset := 0, 0, 0;
    ghost var vs := Values(text);
    for i := 0 to |text|
      invariant 8 * offset + bits == 5 * i
      invariant out[..offset] == Decode(vs[..i], 5)
      invariant bits == |Pending(vs, i, 5)|
      invariant acc % P2(bits) == FromBits(Pending(vs, i, 5))
    {
      DecodeStep(vs, i, 5, acc);
      acc := ShiftIn(acc, 5, IndexOf(text[i]));
      bits := bits + 5;
      if bits >= 8 {
        bits := bits - 8;
        out[offset] := Shr(acc, bits) % 256;
        offset := offset + 1;
      }
    }
    assert vs[..|text|] == vs;
    return out[..offset];
  }

  method DecodeBase32(value: string) returns (r: Option<seq<nat>>)
    ensures r == DecodeText(value)
  {
    var text := Clean(value);
    if text == "" || !AllSymbols(text) {
      return None;
    }
    var bytes := DecodeSymbols(text);
    if |bytes| < MIN_BYTES {
      return None;
    }
    return Some(bytes);
  }

  /** The encoder's pending bits after i bytes. */
  ghost function Left(bytes: seq<nat>, i: nat): (r: seq<bool>)
    requires i <= |bytes|
    ensures |r| < 5
  {
    Tail(Flatten(bytes[..i], 8), 5)
  }

  ghost function Emitted(bytes: seq<nat>, i: nat): seq<nat>
    requires i <= |bytes|
  {
    Group(Flatten(bytes[..i], 8), 5)
  }

  /** Shifting a byte in: what is now pending will complete the groups of the longer stream. */
  lemma TakeByte(bytes: seq<nat>, i: nat, acc: int)
    requires i < |bytes| && bytes[i] < 256
    requires acc % P2(|Left(bytes, i)|) == FromBits(Left(bytes, i))
    ensures var pend := Left(bytes, i) + ToBits(bytes[i], 8);
            && ShiftIn(acc, 8, bytes[i]) % P2(|pend|) == FromBits(pend)
            && Emitted(bytes, i) + Group(pend, 5) == Emitted(bytes, i + 1)
            && Tail(pend, 5) == Left(bytes, i + 1)
  {
    P2At5();
    var byte := bytes[i];
    assert bytes[..i + 1][..i] == bytes[..i] && bytes[..i + 1][i] == byte;
    assert Flatten(bytes[..i + 1], 8) == Flatten(bytes[..i], 8) + ToBits(byte, 8);
    GroupAppend(Flatten(bytes[..i], 8), ToBits(byte, 8), 5);
    ShiftInLow(acc, 8, byte, Left(bytes, i));
  }

  /** Emitting the oldest five pending bits. */
  lemma EmitFive(acc: int, pend: seq<bool>)
    requires |pend| >= 5 && acc % P2(|pend|) == FromBits(pend)
    ensures var v := Shr(acc, |pend| - 5) % 32;
            && Group(pend, 5) == [v] + Group(pend[5..], 5) && Tail(pend, 5) == Tail(pend[5..], 5)
            && acc % P2(|pend| - 5) == FromBits(pend[5..])
  {
    P2At5();
    assert pend == pend[..5] + pend[5..];
    ReadTop(acc, pend[..5], pend[5..]);
  }

  ghost predicate Spells(out: string, groups: seq<nat>) {
    |out| == |groups| && forall i :: 0 <= i < |groups| ==> groups[i] < 32 && out[i] == SymbolAt(groups[i])
  }

  lemma SpellsMore(a: string, b: string, x: seq<nat>, y: seq<nat>)
    requires Spells(a, x) && Spells(b, y)
    ensures Spells(a + b, x + y)
  {
  }

  /** Emit while five bits are pending. */
  method EmitWholeGroups(acc: int, pending: nat, ghost pend: seq<bool>) returns (bits: nat, out: string)
    requires pending == |pend| && acc % P2(pending) == FromBits(pend)
    ensures bits == |Tail(pend, 5)| && acc % P2(bits) == FromBits(Tail(pend, 5))
    ensures Spells(out, Group(pend, 5))
  {
    bits, out := pending, "";
    ghost var rest, done := pend, [];
    while bits >= 5
      invariant bits == |rest| && acc % P2(bits) == FromBits(rest)
      invariant done + Group(rest, 5) == Group(pend, 5) && Tail(rest, 5) == Tail(pend, 5)
      invariant Spells(out, done)
    {
      EmitFive(acc, rest);
      bits := bits - 5;
      var v: nat := Shr(acc, bits) % 32;
      SpellsMore(out, [SymbolAt(v)], done, [v]);
      out := out + [SymbolAt(v)];
      ConcatAssoc(done, [v], Group(rest[5..], 5));
      done, rest := done + [v], rest[5..];
    }
    assert done + [] == done;
  }

  /** Encode with the same kind of accumulator. */
  method EncodeBase32(bytes: seq<nat>) returns (out: string)
    requires Below(bytes, 8)
    ensures out == EncodeText(bytes)
  {
    P2At5();
    out := "";
    var acc, bits := 0, 0;
    for i := 0 to |bytes|
      invariant bits == |Left(bytes, i)|
      invariant Spells(out, Emitted(bytes, i))
      invariant acc % P2(bits) == FromBits(Left(bytes, i))
    {
      TakeByte(bytes, i, acc);
      ghost var pend := Left(bytes, i) + ToBits(bytes[i], 8);
      acc := ShiftIn(acc, 8, bytes[i]);
      var piece;
      bits, piece := EmitWholeGroups(acc, bits + 8, pend);
      SpellsMore(out, piece, Emitted(bytes, i), Group(pend, 5));
      out := out + piece;
    }
    FinishEncoding(bytes, acc);
    if bits > 0 {
      var v: nat := ToInt32(acc * P2(5 - bits)) % 32;
      SpellsMore(out, [SymbolAt(v)], Emitted(bytes, |bytes|), [v]);
      out := out + [SymbolAt(v)];
    }
    SpelledText(out, bytes);
  }

  lemma SpelledText(out: string, bytes: seq<nat>)
    requires Spells(out, Encode(bytes, 5))
    ensures out == EncodeText(bytes)
  {
  }

  /** The last, short group is completed with zero bits. */
  lemma FinishEncoding(bytes: seq<nat>, acc: int)
    requires acc % P2(|Left(bytes, |bytes|)|) == FromBits(Left(bytes, |bytes|))
    ensures var left := |Left(bytes, |bytes|)|;
            && (left == 0 ==> Encode(bytes, 5) == Emitted(bytes, |bytes|))
            && (left > 0 ==> Encode(bytes, 5) == Emitted(bytes, |bytes|) + [ToInt32(acc * P2(5 - left)) % 32])
  {
    assert bytes[..|bytes|] == bytes;
    var all := Flatten(bytes, 8);
    var left := Tail(all, 5);
    var z := Zeros(Pad(all, 5));
    GroupAppend(all, z, 5);
    if |left| > 0 {
      GroupOne(left + z, 5);
      LastSymbol(acc, |left|, left, z);
    } else {
      assert left + z == [];
    }
  }

  /** `(acc << (5 - bits)) & 31` is the pending bits followed by zeros. */
  lemma LastSymbol(acc: int, bits: nat, left: seq<bool>, z: seq<bool>)
    requires 0 < bits < 5 && |left| == bits && z == Zeros(5 - bits)
    requires acc % P2(bits) == FromBits(left)
    ensures ToInt32(acc * P2(5 - bits)) % 32 == FromBits(left + z) < 32
  {
    P2At5();
    FromZeros(5 - bits);
    FromConcat(left, z);
    FromBitsBound(left + z);
    ShiftInNumber(acc, bits, 5 - bits, 0);
  }

  // ---------------------------------------------------------------- theorems

  lemma {:induction false} FoldSymbols(s: string)
    requires AllSymbols(s)
    ensures Fold(s) == s
  {
    if s != "" {
      FoldSymbols(s[1..]);
      assert s == [s[0]] + s[1..];
    }
  }

  lemma CleanSymbols(s: string)
    requires AllSymbols(s)
    ensures Clean(s) == s
  {
    FoldSymbols(s);
  }

  lemma ValuesOfText(vs: seq<nat>)
    requires forall i :: 0 <= i < |vs| ==> vs[i] < 32
    ensures AllSymbols(Text(vs)) && Values(Text(vs)) == vs
  {
  }

  lemma EncodedGroups(bytes: seq<nat>)
    ensures forall i :: 0 <= i < |Encode(bytes, 5)| ==> Encode(bytes, 5)[i] < 32
    ensures AllSymbols(EncodeText(bytes)) && Values(EncodeText(bytes)) == Encode(bytes, 5)
  {
    GroupBelow(Flatten(bytes, 8) + Zeros(Pad(Flatten(bytes, 8), 5)), 5);
    P2At5();
    ValuesOfText(Encode(bytes, 5));
  }

  /** decode(encode(bytes)) == bytes for every secret of at least ten bytes; shorter ones are refused. */
  lemma DecodeInvertsEncode(bytes: seq<nat>)
    requires Below(bytes, 8)
    ensures DecodeText(EncodeText(bytes)) == if |bytes| >= MIN_BYTES then Some(bytes) else None
  {
    EncodedGroups(bytes);
    var text := EncodeText(bytes);
    CleanSymbols(text);
    RoundTrip(bytes, 5);
    if text == "" {
      assert Decode([], 5) == [];
    }
  }

  /** The canonical form: encoding what was decoded is a fixed point of doing so again. */
  lemma EncodeAfterDecodeIsIdempotent(value: string)
    requires DecodeText(value).Some?
    ensures DecodeText(EncodeText(DecodeText(value).value)) == DecodeText(value)
  {
    var bytes := DecodeText(value).value;
    GroupBelow(Flatten(Values(Clean(value)), 5), 8);
    DecodeInvertsEncode(bytes);
  }

  // ---------------------------------------------------------------- lengths

  lemma {:induction false} FlattenLength(vs: seq<nat>, n: nat)
    ensures |Flatten(vs, n)| == |vs| * n
  {
    if vs != [] {
      FlattenLength(vs[..|vs| - 1], n);
      assert |vs| * n == (|vs| - 1) * n + n;
    }
  }

  lemma {:induction false} GroupLength(bs: seq<bool>, n: nat)
    requires n > 0
    ensures |Group(bs, n)| * n + |Tail(bs, n)| == |bs|
    decreases |bs|
  {
    if |bs| >= n {
      GroupLength(bs[n..], n);
      assert (1 + |Group(bs[n..], n)|) * n == n + |Group(bs[n..], n)| * n;
    }
  }

  /** How long the canonical form of n symbols is: whole bytes, then whole symbols again. */
  lemma CanonicalLength(value: string)
    requires DecodeText(value).Some?
    ensures var n := |Clean(value)|; var bytes := 5 * n / 8;
            |DecodeText(value).value| == bytes && |EncodeText(DecodeText(value).value)| == (8 * bytes + 4) / 5
  {
    var text := Clean(value);
    var bytes := DecodeText(value).value;
    var read := Flatten(Values(text), 5);
    FlattenLength(Values(text), 5);
    GroupLength(read, 8);
    var bits := Flatten(bytes, 8);
    FlattenLength(bytes, 8);
    GroupLength(bits + Zeros(Pad(bits, 5)), 5);
    PaddedLength(bits);
  }

  lemma PaddedLength(bits: seq<bool>)
    ensures |Tail(bits + Zeros(Pad(bits, 5)), 5)| == 0 && Pad(bits, 5) < 5
  {
    PaddedHasNoTail(bits, 5);
  }
}
