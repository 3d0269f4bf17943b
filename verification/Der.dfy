/** ECDSA signatures: from the DER form of key services to the fixed-width form of section 3.4 of RFC 7518. */
module Der {
  import opened Basics

  type Bytes = seq<Byte>

  datatype Curve = P256 | P384 | P521 | UnknownCurve

  function CoordBytes(c: Curve): Option<nat> {
    match c
    case P256 => Some(32)
    case P384 => Some(48)
    case P521 => Some(66)
    case UnknownCurve => None
  }

  datatype Outcome = Raw(bytes: Bytes) | Thrown

  /** A read position. Adding an undefined length makes it NaN, and every read there is undefined. */
  datatype Cursor = At(pos: nat) | NaN

  function ByteAt(der: Bytes, c: Cursor): Option<Byte> {
    if c.At? && c.pos < |der| then Some(der[c.pos]) else None
  }

  function Moved(c: Cursor, n: nat): Cursor {
    if c.At? then At(c.pos + n) else NaN
  }

  /** `subarray`, whose ends are clamped and for which an undefined end is zero. */
  function Window(der: Bytes, c: Cursor, len: Option<Byte>): Bytes {
    if c.NaN? || len.None? then []
    else der[Min(c.pos, |der|)..Min(c.pos + len.value, |der|)]
  }

  /** Leading zero bytes removed, except the last one. */
  function Stripped(v: Bytes): (r: Bytes)
    ensures |r| <= |v|
  {
    if |v| > 1 && v[0] == 0 then Stripped(v[1..]) else v
  }

  function Zeros(n: nat): (r: Bytes)
    ensures |r| == n && forall i :: 0 <= i < n ==> r[i] == 0
  {
    seq(n, i => 0)
  }

  function Padded(v: Bytes, size: nat): (r: Bytes)
    requires |v| <= size
    ensures |r| == size
  {
    Zeros(size - |v|) + v
  }

  datatype Read = Read(value: Bytes, next: Cursor) | BadInt

  function IntAt(der: Bytes, c: Cursor, size: nat): (r: Read)
    ensures r.Read? ==> |r.value| == size
  {
    if ByteAt(der, c) != Some(2) then BadInt
    else
      var len := ByteAt(der, Moved(c, 1));
      var v := Stripped(Window(der, Moved(c, 2), len));
      if |v| > size then BadInt
      else Read(Padded(v, size), if len.Some? then Moved(c, 2 + len.value as nat) else NaN)
  }

  /** Where the first integer starts; the length itself is never looked at again. */
  function AfterHeader(der: Bytes): nat {
    var seqLen := ByteAt(der, At(1));
    if seqLen.Some? && seqLen.value >= 0x80 then 2 + (seqLen.value - 0x80) else 2
  }

  function Decoded(der: Bytes, curve: Curve): Outcome {
    if CoordBytes(curve).None? || ByteAt(der, At(0)) != Some(0x30) then Thrown
    else
      var size := CoordBytes(curve).value;
      var r := IntAt(der, At(AfterHeader(der)), size);
      if r.BadInt? then Thrown
      else
        var s := IntAt(der, r.next, size);
        if s.BadInt? then Thrown else Raw(r.value + s.value)
  }

  method ReadInt(der: Bytes, c: Cursor, size: nat) returns (r: Read)
    ensures r == IntAt(der, c, size)
  {
    if ByteAt(der, c) != Some(2) {
      return BadInt;
    }
    var len := ByteAt(der, Moved(c, 1));
    var v := Window(der, Moved(c, 2), len);
    ghost var whole := v;
    while |v| > 1 && v[0] == 0
      invariant Stripped(v) == Stripped(whole)
    {
      v := v[1..];
    }
    if |v| > size {
      return BadInt;
    }
    return Read(Padded(v, size), if len.Some? then Moved(c, 2 + len.value as nat) else NaN);
  }

  /** The sequence header: each octet of a long length is stepped over. */
  method SkipHeader(der: Bytes) returns (i: nat)
    ensures i == AfterHeader(der)
  {
    var seqLen := ByteAt(der, At(1));
    i := 2;
    if seqLen.Some? && seqLen.value >= 0x80 {
      var n := seqLen.value - 0x80;
      for k := 0 to n
        invariant i == 2 + k
      {
        i := i + 1;
      }
    }
  }

  method DerToRawEcdsa(der: Bytes, curve: Curve) returns (out: Outcome)
    ensures out == Decoded(der, curve)
  {
    var size := CoordBytes(curve);
    if size.None? {
      return Thrown;
    }
    if ByteAt(der, At(0)) != Some(0x30) {
      return Thrown;
    }
    var i := SkipHeader(der);
    var r := ReadInt(der, At(i), size.value);
    if r.BadInt? {
      return Thrown;
    }
    var s := ReadInt(der, r.next, size.value);
    if s.BadInt? {
      return Thrown;
    }
    return Raw(r.value + s.value);
  }

  // ---------------------------------------------------------------- numbers

  function Pow256(n: nat): (r: nat)
    ensures r >= 1
  {
    if n == 0 then 1 else 256 * Pow256(n - 1)
  }

  /** A big-endian unsigned number. */
  function Value(s: Bytes): nat {
    if s == [] then 0 else 256 * Value(s[..|s| - 1]) + s[|s| - 1]
  }

  lemma {:induction false} ValueOfZeroThen(s: Bytes)
    ensures Value([0] + s) == Value(s)
  {
    if s != [] {
      var n := |s| - 1;
      ValueOfZeroThen(s[..n]);
      assert ([0] + s)[..|s|] == [0] + s[..n];
    } else {
      assert ([0] + s)[..0] == [];
    }
  }

  lemma {:induction false} ValueOfZeros(n: nat, s: Bytes)
    ensures Value(Zeros(n) + s) == Value(s)
  {
    if n == 0 {
      assert Zeros(0) + s == s;
    } else {
      ValueOfZeros(n - 1, s);
      ValueOfZeroThen(Zeros(n - 1) + s);
      assert Zeros(n) + s == [0] + (Zeros(n - 1) + s);
    }
  }

  lemma {:induction false} StrippedKeepsValue(v: Bytes)
    ensures Value(Stripped(v)) == Value(v)
    ensures |Stripped(v)| > 1 ==> Stripped(v)[0] != 0
  {
    if |v| > 1 && v[0] == 0 {
      StrippedKeepsValue(v[1..]);
      ValueOfZeroThen(v[1..]);
      assert v == [0] + v[1..];
    }
  }

  lemma {:induction false} ValueBounds(s: Bytes)
    ensures Value(s) < Pow256(|s|)
    ensures s != [] && s[0] != 0 ==> Value(s) >= Pow256(|s| - 1)
  {
    if s != [] {
      ValueBounds(s[..|s| - 1]);
      if |s| == 1 {
        assert s[..0] == [];
      }
    }
  }

  lemma {:induction false} PowGrows(m: nat, n: nat)
    requires m <= n
    ensures Pow256(m) <= Pow256(n)
  {
    if m < n { PowGrows(m, n - 1); }
  }

  /** An integer is refused as too large exactly when its value does not fit the coordinate. */
  lemma FitsIff(v: Bytes, size: nat)
    requires size >= 1
    ensures |Stripped(v)| <= size <==> Value(v) < Pow256(size)
  {
    var w := Stripped(v);
    StrippedKeepsValue(v);
    ValueBounds(w);
    if |w| <= size {
      PowGrows(|w|, size);
    } else {
      PowGrows(size, |w| - 1);
    }
  }

  // ---------------------------------------------------------------- DER

  /** INTEGER with these content octets. */
  function IntTlv(content: Bytes): Bytes
    requires |content| <= 255
  {
    [2, |content|] + content
  }

  /** The definite length octets of a short body: one octet, or the long form with one length octet. */
  function LengthOctets(n: nat): Bytes
    requires n <= 255
  {
    if n < 128 then [n] else [0x81, n]
  }

  function SequenceOf(body: Bytes): Bytes
    requires |body| <= 255
  {
    [0x30] + LengthOctets(|body|) + body
  }

  /** What is read where an INTEGER stands. */
  lemma WindowAt(der: Bytes, p: nat, content: Bytes)
    requires |content| <= 255
    requires p + 2 + |content| <= |der| && der[p..p + 2 + |content|] == IntTlv(content)
    ensures ByteAt(der, At(p)) == Some(2) && ByteAt(der, At(p + 1)) == Some(|content|)
    ensures Window(der, At(p + 2), Some(|content|)) == content
  {
    var tlv := der[p..p + 2 + |content|];
    assert der[p] == tlv[0] && der[p + 1] == tlv[1];
    assert der[p + 2..p + 2 + |content|] == tlv[2..];
    assert IntTlv(content)[2..] == content;
  }

  lemma PaddedValue(content: Bytes, size: nat)
    requires |Stripped(content)| <= size
    ensures Value(Padded(Stripped(content), size)) == Value(content)
  {
    StrippedKeepsValue(content);
    ValueOfZeros(size - |Stripped(content)|, Stripped(content));
  }

  /** Reading one integer at a known place. */
  lemma IntAtReads(der: Bytes, p: nat, content: Bytes, size: nat)
    requires size >= 1 && |content| <= 255
    requires p + 2 + |content| <= |der| && der[p..p + 2 + |content|] == IntTlv(content)
    ensures IntAt(der, At(p), size).Read? <==> Value(content) < Pow256(size)
    ensures IntAt(der, At(p), size).Read? ==>
              Value(IntAt(der, At(p), size).value) == Value(content) && IntAt(der, At(p), size).next == At(p + 2 + |content|)
  {
    WindowAt(der, p, content);
    FitsIff(content, size);
    if |Stripped(content)| <= size {
      PaddedValue(content, size);
    }
  }

  /**
   * For any two integers encoded with up to 255 content octets in total, leading zeros or not: the
   * signature is converted exactly when both fit the curve, and then each half has the right width
   * and the same value.
   */
  lemma SignatureConverts(curve: Curve, cr: Bytes, cs: Bytes)
    requires CoordBytes(curve).Some? && |cr| + |cs| + 4 <= 255
    ensures var size := CoordBytes(curve).value;
            var out := Decoded(SequenceOf(IntTlv(cr) + IntTlv(cs)), curve);
            if Value(cr) < Pow256(size) && Value(cs) < Pow256(size)
            then out.Raw? && |out.bytes| == 2 * size
                 && Value(out.bytes[..size]) == Value(cr) && Value(out.bytes[size..]) == Value(cs)
            else out.Thrown?
  {
    var der, size := SequenceOf(IntTlv(cr) + IntTlv(cs)), CoordBytes(curve).value;
    var p := AfterHeader(der);
    SequenceParts(cr, cs);
    BothRead(der, p, p + 2 + |cr|, size, cr, cs);
    SignatureAt(der, curve, size, IntAt(der, At(p), size), IntAt(der, At(p + 2 + |cr|), size));
  }

  /** Both integers of a body, for any width. */
  lemma BothRead(der: Bytes, p: nat, q: nat, size: nat, cr: Bytes, cs: Bytes)
    requires size >= 1 && |cr| <= 255 && |cs| <= 255 && q == p + 2 + |cr| && q + 2 + |cs| <= |der|
    requires der[p..q] == IntTlv(cr) && der[q..q + 2 + |cs|] == IntTlv(cs)
    ensures var r := IntAt(der, At(p), size); var s := IntAt(der, At(q), size);
            && (r.Read? <==> Value(cr) < Pow256(size)) && (s.Read? <==> Value(cs) < Pow256(size))
            && (r.Read? ==> Value(r.value) == Value(cr) && r.next == At(q))
            && (s.Read? ==> Value(s.value) == Value(cs))
  {
    IntAtReads(der, p, cr, size);
    IntAtReads(der, q, cs, size);
  }

  lemma SignatureAt(der: Bytes, curve: Curve, size: nat, r: Read, s: Read)
    requires CoordBytes(curve) == Some(size) && ByteAt(der, At(0)) == Some(0x30)
    requires r == IntAt(der, At(AfterHeader(der)), size) && (r.Read? ==> s == IntAt(der, r.next, size))
    ensures var out := Decoded(der, curve);
            if r.Read? && s.Read?
            then out.Raw? && |out.bytes| == 2 * size && out.bytes[..size] == r.value && out.bytes[size..] == s.value
            else out.Thrown?
  {
    Halves(der, curve, size, r, s);
    if r.Read? && s.Read? {
      assert (r.value + s.value)[..size] == r.value && (r.value + s.value)[size..] == s.value;
    }
  }

  /** A converted signature is the two integers, one after the other. */
  lemma Halves(der: Bytes, curve: Curve, size: nat, r: Read, s: Read)
    requires CoordBytes(curve) == Some(size) && ByteAt(der, At(0)) == Some(0x30)
    requires r == IntAt(der, At(AfterHeader(der)), size) && (r.Read? ==> s == IntAt(der, r.next, size))
    ensures Decoded(der, curve) == if r.Read? && s.Read? then Raw(r.value + s.value) else Thrown
  {
  }

  lemma HeaderParts(body: Bytes)
    requires |body| <= 255
    ensures var der := SequenceOf(body);
            ByteAt(der, At(0)) == Some(0x30) && AfterHeader(der) <= |der| && der[AfterHeader(der)..] == body
  {
  }

  lemma SequenceParts(cr: Bytes, cs: Bytes)
    requires |cr| + |cs| + 4 <= 255
    ensures var der := SequenceOf(IntTlv(cr) + IntTlv(cs));
            var p := AfterHeader(der); var q := p + 2 + |cr|;
            && ByteAt(der, At(0)) == Some(0x30) && q + 2 + |cs| == |der|
            && der[p..q] == IntTlv(cr) && der[q..q + 2 + |cs|] == IntTlv(cs)
  {
    var body := IntTlv(cr) + IntTlv(cs);
    HeaderParts(body);
    var der := SequenceOf(body);
    var p := AfterHeader(der);
    var q := p + 2 + |cr|;
    assert der[p..q] == body[..2 + |cr|];
    assert der[q..q + 2 + |cs|] == body[2 + |cr|..];
  }

  // ---------------------------------------------------------------- the encoder

  /** Minimal big-endian bytes. */
  function Minimal(v: nat): (r: Bytes)
    ensures r != []
  {
    if v < 256 then [v] else Minimal(v / 256) + [v % 256]
  }

  /** Content octets of a non-negative DER INTEGER: minimal, with a zero octet when the top bit is set. */
  function IntContent(v: nat): Bytes {
    if Minimal(v)[0] >= 128 then [0] + Minimal(v) else Minimal(v)
  }

  lemma {:induction false} MinimalValue(v: nat, n: nat)
    requires n >= 1 && v < Pow256(n)
    ensures Value(Minimal(v)) == v && |Minimal(v)| <= n
  {
    if v < 256 {
      assert [v][..0] == [];
    } else {
      assert n >= 2;
      assert v / 256 < Pow256(n - 1);
      MinimalValue(v / 256, n - 1);
      assert Minimal(v)[..|Minimal(v)| - 1] == Minimal(v / 256);
    }
  }

  function Encoded(r: nat, s: nat): Bytes
    requires |IntContent(r)| + |IntContent(s)| + 4 <= 255
  {
    SequenceOf(IntTlv(IntContent(r)) + IntTlv(IntContent(s)))
  }

  lemma ContentFits(v: nat, size: nat)
    requires 1 <= size && v < Pow256(size)
    ensures |IntContent(v)| <= size + 1 && Value(IntContent(v)) == v
  {
    MinimalValue(v, size);
    ValueOfZeroThen(Minimal(v));
  }

  /** Every pair that fits the curve survives: fixed width, big-endian, r first. */
  lemma ConversionKeepsBothNumbers(curve: Curve, r: nat, s: nat)
    requires CoordBytes(curve).Some? && r < Pow256(CoordBytes(curve).value) && s < Pow256(CoordBytes(curve).value)
    ensures |IntContent(r)| + |IntContent(s)| + 4 <= 255
    ensures var size := CoordBytes(curve).value;
            var out := Decoded(Encoded(r, s), curve);
            out.Raw? && |out.bytes| == 2 * size && Value(out.bytes[..size]) == r && Value(out.bytes[size..]) == s
  {
    var size := CoordBytes(curve).value;
    ContentFits(r, size);
    ContentFits(s, size);
    SignatureConverts(curve, IntContent(r), IntContent(s));
  }

  /** The long form of the sequence length is really needed: on P-521 a body may take more than 127 octets. */
  lemma LongFormOccurs()
    ensures exists r: nat, s: nat :: r < Pow256(66) && s < Pow256(66) && |IntContent(r)| + |IntContent(s)| + 4 >= 128
  {
    var v := Value(seq(66, i => 1));
    var ones: Bytes := seq(66, i => 1);
    ValueBounds(ones);
    MinimalLength(v, 66);
    assert |IntContent(v)| + |IntContent(v)| + 4 >= 128;
  }

  lemma {:induction false} MinimalLength(v: nat, n: nat)
    requires n >= 1 && Pow256(n - 1) <= v
    ensures |Minimal(v)| >= n
  {
    if n >= 2 {
      PowGrows(1, n - 1);
      MinimalLength(v / 256, n - 1);
    }
  }
}
