/** base64url without padding (section 5 of RFC 4648), the wire form of every sealed token. */
module Base64Url {
  import opened Basics
  import opened Bits
  import opened Rfc4648

  predicate IsSymbol(c: char) {
    'A' <= c <= 'Z' || 'a' <= c <= 'z' || '0' <= c <= '9' || c in "-_"
  }

  /** Position in the alphabet; the decoder also takes the two symbols of plain base64. */
  function IndexOf(c: char): Option<nat> {
    if 'A' <= c <= 'Z' then Some(c as int - 'A' as int)
    else if 'a' <= c <= 'z' then Some(c as int - 'a' as int + 26)
    else if '0' <= c <= '9' then Some(c as int - '0' as int + 52)
    else if c == '+' || c == '-' then Some(62)
    else if c == '/' || c == '_' then Some(63)
    else None
  }

  function SymbolAt(v: nat): (c: char)
    requires v < 64
    ensures IsSymbol(c) && IndexOf(c) == Some(v)
  {
    if v < 26 then ('A' as int + v) as char
    else if v < 52 then ('a' as int + (v - 26)) as char
    else if v < 62 then ('0' as int + (v - 52)) as char
    else if v == 62 then '-'
    else '_'
  }

  function StripPadding(s: string): string {
    if s != "" && s[|s| - 1] == '=' then StripPadding(s[..|s| - 1]) else s
  }

  predicate AllSymbols(s: string) {
    forall i :: 0 <= i < |s| ==> IndexOf(s[i]).Some?
  }

  function Values(s: string): (vs: seq<nat>)
    requires AllSymbols(s)
    ensures |vs| == |s| && forall i :: 0 <= i < |s| ==> IndexOf(s[i]) == Some(vs[i]) && vs[i] < 64
  {
    seq(|s|, i requires 0 <= i < |s| => IndexOf(s[i]).value)
  }

  lemma P2At6()
    ensures P2(6) == 64 && P2(8) == 256 && P2(2) == 4 && P2(4) == 16
  {
  }

  ghost predicate Spells(out: string, groups: seq<nat>) {
    |out| == |groups| && forall i :: 0 <= i < |groups| ==> groups[i] < 64 && out[i] == SymbolAt(groups[i])
  }

  function EncodeText(bytes: seq<nat>): (s: string)
    ensures Spells(s, Encode(bytes, 6))
  {
    GroupBelow(Flatten(bytes, 8) + Zeros(Pad(Flatten(bytes, 8), 6)), 6);
    P2At6();
    var vs := Encode(bytes, 6);
    seq(|vs|, i requires 0 <= i < |vs| => SymbolAt(vs[i]))
  }

  /** None stands for the thrown error on a character outside the alphabet. */
  function DecodeText(s: string): Option<seq<nat>> {
    var norm := StripPadding(s);
    if AllSymbols(norm) then Some(Decode(Values(norm), 6)) else None
  }

  // ---------------------------------------------------------------- encoding, three bytes at a time

  lemma GroupTwo(a: seq<bool>, b: seq<bool>)
    requires |a| == 6 && |b| == 6
    ensures Group(a + b, 6) == [FromBits(a), FromBits(b)] && Tail(a + b, 6) == []
    ensures FromBits(a + b) == FromBits(a) * 64 + FromBits(b)
    ensures FromBits(a) < 64 && FromBits(b) < 64
  {
    P2At6();
    GroupCons(a, b, 6);
    GroupOne(b, 6);
    FromConcat(a, b);
    FromBitsBound(a);
    FromBitsBound(b);
  }

  lemma GroupThree(a: seq<bool>, b: seq<bool>, c: seq<bool>)
    requires |a| == 6 && |b| == 6 && |c| == 6
    ensures Group(a + (b + c), 6) == [FromBits(a), FromBits(b), FromBits(c)]
    ensures FromBits(a + (b + c)) == FromBits(a) * 4096 + FromBits(b) * 64 + FromBits(c)
    ensures FromBits(a) < 64 && FromBits(b) < 64 && FromBits(c) < 64
  {
    P2Powers();
    GroupCons(a, b + c, 6);
    GroupTwo(b, c);
    FromConcat(a, b + c);
    FromBitsBound(a);
  }

  lemma GroupFour(a: seq<bool>, b: seq<bool>, c: seq<bool>, d: seq<bool>)
    requires |a| == 6 && |b| == 6 && |c| == 6 && |d| == 6
    ensures Group((a + b) + (c + d), 6) == [FromBits(a), FromBits(b), FromBits(c), FromBits(d)]
    ensures Tail((a + b) + (c + d), 6) == []
    ensures FromBits((a + b) + (c + d)) == (FromBits(a) * 64 + FromBits(b)) * 4096 + FromBits(c) * 64 + FromBits(d)
    ensures FromBits(a) < 64 && FromBits(b) < 64 && FromBits(c) < 64 && FromBits(d) < 64
  {
    P2Powers();
    GroupTwo(a, b);
    GroupTwo(c, d);
    GroupAppend(a + b, c + d, 6);
    assert [] + (c + d) == c + d;
    FromConcat(a + b, c + d);
  }

  lemma P2Powers()
    ensures P2(12) == 4096 && P2(16) == 65536
  {
    P2At6();
    P2Add(6, 6);
    P2Add(8, 8);
  }

  lemma OneByte(b0: nat)
    requires b0 < 256
    ensures Group(ToBits(b0, 8) + Zeros(4), 6) == [b0 / 4, b0 % 4 * 16]
  {
    PaddedByteNumber(b0);
    TwoSextetsOf(ToBits(b0, 8) + Zeros(4), b0);
  }

  lemma PaddedByteNumber(b0: nat)
    requires b0 < 256
    ensures FromBits(ToBits(b0, 8) + Zeros(4)) == b0 * 16
  {
    P2At6();
    FromTo(b0, 8);
    FromConcat(ToBits(b0, 8), Zeros(4));
    FromZeros(4);
  }

  lemma TwoSextetsOf(x: seq<bool>, b0: nat)
    requires |x| == 12 && b0 < 256 && FromBits(x) == b0 * 16
    ensures Group(x, 6) == [b0 / 4, b0 % 4 * 16]
  {
    GroupTwo(x[..6], x[6..]);
    assert x == x[..6] + x[6..];
  }

  lemma ThreeSextets(x: seq<bool>) returns (g0: nat, g1: nat, g2: nat)
    requires |x| == 18
    ensures Group(x, 6) == [g0, g1, g2] && g0 < 64 && g1 < 64 && g2 < 64
    ensures FromBits(x) == g0 * 4096 + g1 * 64 + g2
  {
    var a, b, c := x[..6], x[6..12], x[12..];
    g0, g1, g2 := FromBits(a), FromBits(b), FromBits(c);
    GroupThree(a, b, c);
    assert x == a + (b + c);
  }

  lemma FourSextets(x: seq<bool>) returns (g0: nat, g1: nat, g2: nat, g3: nat)
    requires |x| == 24
    ensures Group(x, 6) == [g0, g1, g2, g3] && g0 < 64 && g1 < 64 && g2 < 64 && g3 < 64
    ensures FromBits(x) == (g0 * 64 + g1) * 4096 + g2 * 64 + g3
    ensures Tail(x, 6) == []
  {
    var a, b, c, d := x[..6], x[6..12], x[12..18], x[18..];
    g0, g1, g2, g3 := FromBits(a), FromBits(b), FromBits(c), FromBits(d);
    GroupFour(a, b, c, d);
    assert x == (a + b) + (c + d);
  }

  lemma TwoByteNumber(b0: nat, b1: nat)
    requires b0 < 256 && b1 < 256
    ensures FromBits(ToBits(b0, 8) + ToBits(b1, 8)) == b0 * 256 + b1
  {
    P2At6();
    FromTo(b0, 8);
    AppendValue(ToBits(b0, 8), b1, 8);
  }

  lemma TwoBytes(b0: nat, b1: nat)
    requires b0 < 256 && b1 < 256
    ensures Group((ToBits(b0, 8) + ToBits(b1, 8)) + Zeros(2), 6) == [b0 / 4, b0 % 4 * 16 + b1 / 16, b1 % 16 * 4]
  {
    PaddedTwoByteNumber(b0, b1);
    ThreeSextetsOf((ToBits(b0, 8) + ToBits(b1, 8)) + Zeros(2), b0, b1);
  }

  lemma PaddedTwoByteNumber(b0: nat, b1: nat)
    requires b0 < 256 && b1 < 256
    ensures FromBits((ToBits(b0, 8) + ToBits(b1, 8)) + Zeros(2)) == (b0 * 256 + b1) * 4
  {
    P2At6();
    TwoByteNumber(b0, b1);
    FromConcat(ToBits(b0, 8) + ToBits(b1, 8), Zeros(2));
    FromZeros(2);
  }

  lemma ThreeSextetsOf(x: seq<bool>, b0: nat, b1: nat)
    requires |x| == 18 && b0 < 256 && b1 < 256 && FromBits(x) == (b0 * 256 + b1) * 4
    ensures Group(x, 6) == [b0 / 4, b0 % 4 * 16 + b1 / 16, b1 % 16 * 4]
  {
    var g0, g1, g2 := ThreeSextets(x);
    ThreeDigits(b0, b1, g0, g1, g2);
  }

  lemma ThreeDigits(b0: nat, b1: nat, g0: nat, g1: nat, g2: nat)
    requires b0 < 256 && b1 < 256 && g0 < 64 && g1 < 64 && g2 < 64
    requires (b0 * 256 + b1) * 4 == g0 * 4096 + g1 * 64 + g2
    ensures g0 == b0 / 4 && g1 == b0 % 4 * 16 + b1 / 16 && g2 == b1 % 16 * 4
  {
  }

  lemma ThreeBytes(b0: nat, b1: nat, b2: nat)
    requires b0 < 256 && b1 < 256 && b2 < 256
    ensures Group((ToBits(b0, 8) + ToBits(b1, 8)) + ToBits(b2, 8), 6)
            == [b0 / 4, b0 % 4 * 16 + b1 / 16, b1 % 16 * 4 + b2 / 64, b2 % 64]
    ensures Tail((ToBits(b0, 8) + ToBits(b1, 8)) + ToBits(b2, 8), 6) == []
  {
    ThreeByteNumber(b0, b1, b2);
    SextetsOf((ToBits(b0, 8) + ToBits(b1, 8)) + ToBits(b2, 8), b0, b1, b2);
  }

  lemma SextetsOf(x: seq<bool>, b0: nat, b1: nat, b2: nat)
    requires |x| == 24 && b0 < 256 && b1 < 256 && b2 < 256 && FromBits(x) == (b0 * 256 + b1) * 256 + b2
    ensures Group(x, 6) == [b0 / 4, b0 % 4 * 16 + b1 / 16, b1 % 16 * 4 + b2 / 64, b2 % 64]
    ensures Tail(x, 6) == []
  {
    var g0, g1, g2, g3 := FourSextets(x);
    FourDigits(b0, b1, b2, g0, g1, g2, g3);
  }

  lemma ThreeByteNumber(b0: nat, b1: nat, b2: nat)
    requires b0 < 256 && b1 < 256 && b2 < 256
    ensures FromBits((ToBits(b0, 8) + ToBits(b1, 8)) + ToBits(b2, 8)) == (b0 * 256 + b1) * 256 + b2
  {
    P2At6();
    TwoByteNumber(b0, b1);
    AppendValue(ToBits(b0, 8) + ToBits(b1, 8), b2, 8);
  }

  lemma FourDigits(b0: nat, b1: nat, b2: nat, g0: nat, g1: nat, g2: nat, g3: nat)
    requires b0 < 256 && b1 < 256 && b2 < 256 && g0 < 64 && g1 < 64 && g2 < 64 && g3 < 64
    requires (b0 * 256 + b1) * 256 + b2 == (g0 * 64 + g1) * 4096 + g2 * 64 + g3
    ensures g0 == b0 / 4 && g1 == b0 % 4 * 16 + b1 / 16 && g2 == b1 % 16 * 4 + b2 / 64 && g3 == b2 % 64
  {
  }

  lemma FlattenOneMore(bytes: seq<nat>, i: nat)
    requires i < |bytes|
    ensures Flatten(bytes[..i + 1], 8) == Flatten(bytes[..i], 8) + ToBits(bytes[i], 8)
  {
    assert bytes[..i + 1][..i] == bytes[..i];
  }

  lemma FlattenTwoMore(bytes: seq<nat>, i: nat)
    requires i + 1 < |bytes|
    ensures Flatten(bytes[..i + 2], 8) == Flatten(bytes[..i], 8) + (ToBits(bytes[i], 8) + ToBits(bytes[i + 1], 8))
  {
    FlattenOneMore(bytes, i);
    FlattenOneMore(bytes, i + 1);
    ConcatAssoc(Flatten(bytes[..i], 8), ToBits(bytes[i], 8), ToBits(bytes[i + 1], 8));
  }

  lemma FlattenThreeMore(bytes: seq<nat>, i: nat)
    requires i + 2 < |bytes|
    ensures Flatten(bytes[..i + 3], 8)
            == Flatten(bytes[..i], 8) + ((ToBits(bytes[i], 8) + ToBits(bytes[i + 1], 8)) + ToBits(bytes[i + 2], 8))
  {
    FlattenTwoMore(bytes, i);
    FlattenOneMore(bytes, i + 2);
    ConcatAssoc(Flatten(bytes[..i], 8), ToBits(bytes[i], 8) + ToBits(bytes[i + 1], 8), ToBits(bytes[i + 2], 8));
  }

  /** Appending to a stream that ends on a group boundary. */
  lemma OnBoundary(head: seq<bool>, x: seq<bool>)
    requires Tail(head, 6) == []
    ensures Group(head + x, 6) == Group(head, 6) + Group(x, 6) && Tail(head + x, 6) == Tail(x, 6)
  {
    GroupAppend(head, x, 6);
    assert [] + x == x;
  }

  /** What each turn of the loop contributes, starting and ending on a group boundary. */
  lemma NextThree(head: seq<bool>, b0: nat, b1: nat, b2: nat)
    requires b0 < 256 && b1 < 256 && b2 < 256 && Tail(head, 6) == []
    ensures var x := (ToBits(b0, 8) + ToBits(b1, 8)) + ToBits(b2, 8);
            && Tail(head + x, 6) == []
            && Group(head + x, 6) == Group(head, 6) + [b0 / 4, b0 % 4 * 16 + b1 / 16, b1 % 16 * 4 + b2 / 64, b2 % 64]
  {
    OnBoundary(head, (ToBits(b0, 8) + ToBits(b1, 8)) + ToBits(b2, 8));
    ThreeBytes(b0, b1, b2);
  }

  lemma ShortTail(x: seq<bool>)
    requires |x| == 8 || |x| == 16
    ensures |Tail(x, 6)| == (if |x| == 8 then 2 else 4)
  {
    assert Tail(x, 6) == Tail(x[6..], 6);
    if |x| == 16 {
      assert Tail(x[6..], 6) == Tail(x[6..][6..], 6);
    }
  }

  /** Encoding a stream that ends one or two bytes beyond a group boundary. */
  lemma EncodeShort(bytes: seq<nat>, head: seq<bool>, x: seq<bool>, z: seq<bool>)
    requires Flatten(bytes, 8) == head + x && Tail(head, 6) == []
    requires (|x| == 8 && z == Zeros(4)) || (|x| == 16 && z == Zeros(2))
    ensures Encode(bytes, 6) == Group(head, 6) + Group(x + z, 6)
  {
    OnBoundary(head, x);
    ShortTail(x);
    ConcatAssoc(head, x, z);
    OnBoundary(head, x + z);
  }

  /** The loop has encoded i bytes, a whole number of groups. */
  ghost predicate Encoded(bytes: seq<nat>, i: nat, out: string)
    requires i <= |bytes|
  {
    Tail(Flatten(bytes[..i], 8), 6) == [] && Spells(out, Group(Flatten(bytes[..i], 8), 6))
  }

  lemma SpellsMore(a: string, b: string, x: seq<nat>, y: seq<nat>)
    requires Spells(a, x) && Spells(b, y)
    ensures Spells(a + b, x + y)
  {
  }

  lemma EncodeThree(bytes: seq<nat>, i: nat, out: string, piece: string)
    requires Below(bytes, 8) && i + 3 <= |bytes| && Encoded(bytes, i, out)
    requires Spells(piece, [bytes[i] / 4, bytes[i] % 4 * 16 + bytes[i + 1] / 16,
                            bytes[i + 1] % 16 * 4 + bytes[i + 2] / 64, bytes[i + 2] % 64])
    ensures Encoded(bytes, i + 3, out + piece)
  {
    P2At6();
    FlattenThreeMore(bytes, i);
    NextThree(Flatten(bytes[..i], 8), bytes[i], bytes[i + 1], bytes[i + 2]);
    SpellsMore(out, piece, Group(Flatten(bytes[..i], 8), 6),
               [bytes[i] / 4, bytes[i] % 4 * 16 + bytes[i + 1] / 16, bytes[i + 1] % 16 * 4 + bytes[i + 2] / 64, bytes[i + 2] % 64]);
  }

  lemma EncodeTwo(bytes: seq<nat>, i: nat, out: string, piece: string)
    requires Below(bytes, 8) && i + 2 == |bytes| && Encoded(bytes, i, out)
    requires Spells(piece, [bytes[i] / 4, bytes[i] % 4 * 16 + bytes[i + 1] / 16, bytes[i + 1] % 16 * 4])
    ensures Spells(out + piece, Encode(bytes, 6))
  {
    P2At6();
    var head := Flatten(bytes[..i], 8);
    FlattenTwoMore(bytes, i);
    assert bytes[..i + 2] == bytes;
    EncodeShort(bytes, head, ToBits(bytes[i], 8) + ToBits(bytes[i + 1], 8), Zeros(2));
    TwoBytes(bytes[i], bytes[i + 1]);
    SpellsMore(out, piece, Group(head, 6), [bytes[i] / 4, bytes[i] % 4 * 16 + bytes[i + 1] / 16, bytes[i + 1] % 16 * 4]);
  }

  lemma EncodeOne(bytes: seq<nat>, i: nat, out: string, piece: string)
    requires Below(bytes, 8) && i + 1 == |bytes| && Encoded(bytes, i, out)
    requires Spells(piece, [bytes[i] / 4, bytes[i] % 4 * 16])
    ensures Spells(out + piece, Encode(bytes, 6))
  {
    P2At6();
    var head := Flatten(bytes[..i], 8);
    FlattenOneMore(bytes, i);
    assert bytes[..i + 1] == bytes;
    EncodeShort(bytes, head, ToBits(bytes[i], 8), Zeros(4));
    OneByte(bytes[i]);
    SpellsMore(out, piece, Group(head, 6), [bytes[i] / 4, bytes[i] % 4 * 16]);
  }

  method EncodeBytes(bytes: seq<nat>) returns (out: string)
    requires Below(bytes, 8)
    ensures Spells(out, Encode(bytes, 6))
  {
    P2At6();
    out := "";
    var i := 0;
    while i < |bytes|
      invariant i <= |bytes| && Encoded(bytes, i, out)
    {
      var b0 := bytes[i];
      if i + 1 == |bytes| {
        var last := [SymbolAt(b0 / 4), SymbolAt(b0 % 4 * 16)];
        EncodeOne(bytes, i, out, last);
        return out + last;
      }
      var b1 := bytes[i + 1];
      if i + 2 == |bytes| {
        var last := [SymbolAt(b0 / 4), SymbolAt(b0 % 4 * 16 + b1 / 16), SymbolAt(b1 % 16 * 4)];
        EncodeTwo(bytes, i, out, last);
        return out + last;
      }
      var b2 := bytes[i + 2];
      var piece := [SymbolAt(b0 / 4), SymbolAt(b0 % 4 * 16 + b1 / 16), SymbolAt(b1 % 16 * 4 + b2 / 64), SymbolAt(b2 % 64)];
      EncodeThree(bytes, i, out, piece);
      out := out + piece;
      i := i + 3;
    }
    assert bytes[..i] == bytes;
    WholeGroups(bytes);
  }

  lemma WholeGroups(bytes: seq<nat>)
    requires Tail(Flatten(bytes, 8), 6) == []
    ensures Encode(bytes, 6) == Group(Flatten(bytes, 8), 6)
  {
    assert Flatten(bytes, 8) + [] == Flatten(bytes, 8);
  }

  /** One text spells given groups, so the loop's output is EncodeText. */
  lemma SpellingIsUnique(a: string, b: string, groups: seq<nat>)
    requires Spells(a, groups) && Spells(b, groups)
    ensures a == b
  {
  }

  method B64u(bytes: seq<nat>) returns (out: string)
    requires Below(bytes, 8)
    ensures out == EncodeText(bytes)
  {
    out := EncodeBytes(bytes);
    SpellingIsUnique(out, EncodeText(bytes), Encode(bytes, 6));
  }

  // ---------------------------------------------------------------- decoding

  /** Decode with a 32-bit accumulator that is shifted and never masked. */
  method DecodeSymbols(norm: string) returns (bytes: seq<nat>)
    requires AllSymbols(norm)
    ensures bytes == Decode(Values(norm), 6)
  {
    P2At6();
    var out := new nat[|norm| * 6 / 8];
    var acc, bits, o := 0, 0, 0;
    ghost var vs := Values(norm);
    for i := 0 to |norm|
      invariant 8 * o + bits == 6 * i
      invariant out[..o] == Decode(vs[..i], 6)
      invariant bits == |Pending(vs, i, 6)|
      invariant acc % P2(bits) == FromBits(Pending(vs, i, 6))
    {
      DecodeStep(vs, i, 6, acc);
      var v := IndexOf(norm[i]).value;
      assert vs[i] == v;
      acc := ShiftIn(acc, 6, v);
      bits := bits + 6;
      if bits >= 8 {
        bits := bits - 8;
        out[o] := Shr(acc, bits) % 256;
        o := o + 1;
      }
    }
    assert vs[..|norm|] == vs;
    return out[..o];
  }

  method Unb64u(s: string) returns (r: Option<seq<nat>>)
    ensures r == DecodeText(s)
  {
    var norm := StripPadding(s);
    if !AllSymbols(norm) {
      return None;
    }
    var bytes := DecodeSymbols(norm);
    return Some(bytes);
  }

  /** unb64u(b64u(bytes)) == bytes for every byte string. */
  lemma DecodeInvertsEncode(bytes: seq<nat>)
    requires Below(bytes, 8)
    ensures DecodeText(EncodeText(bytes)) == Some(bytes)
  {
    var s := EncodeText(bytes);
    assert StripPadding(s) == s;
    assert Values(s) == Encode(bytes, 6);
    RoundTrip(bytes, 6);
  }
}
