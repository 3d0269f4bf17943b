/**
 * RFC 4648 as a bit stream: encoding writes every byte in eight bits, pads with zero bits to a whole
 * number of n-bit groups (section 3.5), and reads the groups; decoding does the reverse and drops
 * what is left over.
 */
module Rfc4648 {
  import opened Bits

  ghost predicate Below(vs: seq<nat>, n: nat) {
    forall i :: 0 <= i < |vs| ==> vs[i] < P2(n)
  }

  /** How many zero bits complete the last group. */
  function Pad(bits: seq<bool>, n: nat): (r: nat)
    requires n > 0
    ensures r < n
  {
    var left := |Tail(bits, n)|;
    if left == 0 then 0 else n - left
  }

  function Encode(bytes: seq<nat>, n: nat): seq<nat>
    requires n > 0
  {
    var bits := Flatten(bytes, 8);
    Group(bits + Zeros(Pad(bits, n)), n)
  }

  function Decode(groups: seq<nat>, n: nat): seq<nat> {
    Group(Flatten(groups, n), 8)
  }

  lemma PaddedHasNoTail(bits: seq<bool>, n: nat)
    requires n > 0
    ensures Tail(bits + Zeros(Pad(bits, n)), n) == []
  {
    var z := Zeros(Pad(bits, n));
    GroupAppend(bits, z, n);
    var last := Tail(bits, n) + z;
    if |last| == n {
      GroupOne(last, n);
    }
  }

  /** Decoding what was encoded gives the bytes back, for every group size up to a byte. */
  lemma RoundTrip(bytes: seq<nat>, n: nat)
    requires 0 < n <= 8 && Below(bytes, 8)
    ensures Decode(Encode(bytes, n), n) == bytes
  {
    var bits := Flatten(bytes, 8);
    var z := Zeros(Pad(bits, n));
    PaddedHasNoTail(bits, n);
    FlattenGroup(bits + z, n);
    var back := Flatten(Encode(bytes, n), n);
    assert back + [] == back;
    GroupAppend(bits, z, 8);
    GroupFlatten(bytes, 8);
    assert [] + z == z;
    assert Group(z, 8) == [] && bytes + [] == bytes;
  }

  lemma {:induction false} GroupBelow(bits: seq<bool>, n: nat)
    requires n > 0
    ensures Below(Group(bits, n), n)
    decreases |bits|
  {
    if |bits| >= n {
      GroupBelow(bits[n..], n);
      FromBitsBound(bits[..n]);
    }
  }

  /** Taking one more bit string into a stream that is grouped by eight or fewer bits at a time. */
  lemma TakeMore(bits: seq<bool>, more: seq<bool>, n: nat)
    requires n > 0 && |more| <= n
    ensures var pend := Tail(bits, n) + more;
            if |pend| < n
            then Group(bits + more, n) == Group(bits, n) && Tail(bits + more, n) == pend
            else Group(bits + more, n) == Group(bits, n) + [FromBits(pend[..n])] && Tail(bits + more, n) == pend[n..]
  {
    GroupAppend(bits, more, n);
    var pend := Tail(bits, n) + more;
    if |pend| < n {
      assert Group(pend, n) == [];
      assert Group(bits, n) + [] == Group(bits, n);
    } else {
      assert |pend[n..]| < n;
      assert Group(pend[n..], n) == [];
    }
  }

  /** The decoder's state after i characters: bits still pending in the accumulator. */
  function Pending(vs: seq<nat>, i: nat, n: nat): (r: seq<bool>)
    requires i <= |vs|
    ensures |r| < 8
  {
    Tail(Flatten(vs[..i], n), 8)
  }

  /** One more symbol, on the side of the bit stream. */
  lemma PendingStep(vs: seq<nat>, i: nat, n: nat)
    requires 0 < n <= 8 && i < |vs| && vs[i] < P2(n)
    ensures var next := Pending(vs, i, n) + ToBits(vs[i], n);
            if |next| < 8
            then Pending(vs, i + 1, n) == next && Decode(vs[..i + 1], n) == Decode(vs[..i], n)
            else Pending(vs, i + 1, n) == next[8..]
                 && Decode(vs[..i + 1], n) == Decode(vs[..i], n) + [FromBits(next[..8])]
  {
    assert vs[..i + 1][..i] == vs[..i] && vs[..i + 1][i] == vs[i];
    assert Flatten(vs[..i + 1], n) == Flatten(vs[..i], n) + ToBits(vs[i], n);
    TakeMore(Flatten(vs[..i], n), ToBits(vs[i], n), 8);
  }

  lemma ReadByte(acc: int, next: seq<bool>)
    requires |next| >= 8 && acc % P2(|next|) == FromBits(next)
    ensures Shr(acc, |next| - 8) % P2(8) == FromBits(next[..8])
    ensures acc % P2(|next| - 8) == FromBits(next[8..])
  {
    assert next == next[..8] + next[8..];
    ReadTop(acc, next[..8], next[8..]);
  }

  /** One turn of a decoding loop, with the accumulator as it really is after wrapping. */
  lemma DecodeStep(vs: seq<nat>, i: nat, n: nat, acc: int)
    requires 0 < n <= 8 && i < |vs| && vs[i] < P2(n)
    requires acc % P2(|Pending(vs, i, n)|) == FromBits(Pending(vs, i, n))
    ensures var acc' := ShiftIn(acc, n, vs[i]);
            var bits := |Pending(vs, i, n)| + n;
            var rest := if bits >= 8 then bits - 8 else bits;
            && |Pending(vs, i + 1, n)| == rest
            && acc' % P2(rest) == FromBits(Pending(vs, i + 1, n))
            && Decode(vs[..i + 1], n) == Decode(vs[..i], n) + (if bits >= 8 then [Shr(acc', rest) % P2(8)] else [])
  {
    var pend := Pending(vs, i, n);
    PendingStep(vs, i, n);
    ShiftInLow(acc, n, vs[i], pend);
    var next := pend + ToBits(vs[i], n);
    if |next| >= 8 {
      ReadByte(ShiftIn(acc, n, vs[i]), next);
    } else {
      assert Decode(vs[..i], n) + [] == Decode(vs[..i], n);
    }
  }
}
