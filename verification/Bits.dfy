/** Big-endian bit strings, and the 32-bit signed shifts that JavaScript performs on accumulators. */
module Bits {

  function P2(n: nat): (r: nat)
    ensures r >= 1
  {
    if n == 0 then 1 else 2 * P2(n - 1)
  }

  function FromBits(bs: seq<bool>): nat {
    if bs == [] then 0 else 2 * FromBits(bs[..|bs| - 1]) + (if bs[|bs| - 1] then 1 else 0)
  }

  function ToBits(v: nat, n: nat): (r: seq<bool>)
    ensures |r| == n
  {
    if n == 0 then [] else ToBits(v / 2, n - 1) + [v % 2 == 1]
  }

  /** All values, each written in n bits. */
  function Flatten(vs: seq<nat>, n: nat): seq<bool> {
    if vs == [] then [] else Flatten(vs[..|vs| - 1], n) + ToBits(vs[|vs| - 1], n)
  }

  /** Whole groups of n bits, read as numbers; a short remainder is dropped. */
  function Group(bs: seq<bool>, n: nat): seq<nat>
    requires n > 0
    decreases |bs|
  {
    if |bs| < n then [] else [FromBits(bs[..n])] + Group(bs[n..], n)
  }

  /** The bits Group drops. */
  function Tail(bs: seq<bool>, n: nat): (r: seq<bool>)
    requires n > 0
    ensures |r| < n
    decreases |bs|
  {
    if |bs| < n then bs else Tail(bs[n..], n)
  }

  function Zeros(n: nat): (r: seq<bool>)
    ensures |r| == n
  {
    seq(n, i => false)
  }

  // ---------------------------------------------------------------- arithmetic helpers

  lemma {:induction false} P2Add(a: nat, b: nat)
    ensures P2(a + b) == P2(a) * P2(b)
  {
    if a > 0 {
      P2Add(a - 1, b);
      Assoc(2, P2(a - 1), P2(b));
    }
  }

  lemma Assoc(a: int, b: int, c: int)
    ensures a * (b * c) == (a * b) * c
  {
  }

  lemma AtLeastOne(n: int, d: int)
    requires n > 0
    ensures d >= 1 ==> n * d >= n
    ensures d <= -1 ==> n * d <= -n
  {
    if d >= 1 {
      assert n * (d - 1) >= 0;
    } else if d <= -1 {
      assert n * (-1 - d) >= 0;
    }
  }

  lemma ModUnique(x: int, n: int, q: int, r: int)
    requires x == q * n + r && 0 <= r < n
    ensures x % n == r && x / n == q
  {
    var d := x / n - q;
    assert x == n * (x / n) + x % n;
    assert n * d == n * (x / n) - n * q;
    AtLeastOne(n, d);
  }

  lemma ModShift(x: int, n: int, k: int)
    requires n > 0
    ensures (x - k * n) % n == x % n
  {
    var q := x / n;
    assert x == n * q + x % n;
    assert (q - k) * n == q * n - k * n;
    ModUnique(x - k * n, n, q - k, x % n);
  }

  // ---------------------------------------------------------------- numbers and bits

  lemma {:induction false} FromBitsBound(bs: seq<bool>)
    ensures FromBits(bs) < P2(|bs|)
  {
    if bs != [] {
      FromBitsBound(bs[..|bs| - 1]);
    }
  }

  lemma {:induction false} FromTo(v: nat, n: nat)
    requires v < P2(n)
    ensures FromBits(ToBits(v, n)) == v
  {
    if n > 0 {
      FromTo(v / 2, n - 1);
      assert ToBits(v, n)[..n - 1] == ToBits(v / 2, n - 1);
    }
  }

  lemma {:induction false} ToFrom(bs: seq<bool>)
    ensures ToBits(FromBits(bs), |bs|) == bs
  {
    if bs != [] {
      ToFrom(bs[..|bs| - 1]);
      assert bs == bs[..|bs| - 1] + [bs[|bs| - 1]];
    }
  }

  lemma {:induction false} FromConcat(a: seq<bool>, b: seq<bool>)
    ensures FromBits(a + b) == FromBits(a) * P2(|b|) + FromBits(b)
  {
    if b == [] {
      assert a + b == a;
    } else {
      var c := b[..|b| - 1];
      FromConcat(a, c);
      assert (a + b)[..|a + b| - 1] == a + c;
      assert FromBits(a) * (2 * P2(|c|)) == 2 * (FromBits(a) * P2(|c|));
    }
  }

  lemma {:induction false} FromZeros(n: nat)
    ensures FromBits(Zeros(n)) == 0
  {
    if n > 0 {
      FromZeros(n - 1);
      assert Zeros(n)[..n - 1] == Zeros(n - 1);
    }
  }

  // ---------------------------------------------------------------- grouping

  lemma {:induction false} GroupAppend(bs: seq<bool>, x: seq<bool>, n: nat)
    requires n > 0
    ensures Group(bs + x, n) == Group(bs, n) + Group(Tail(bs, n) + x, n)
    ensures Tail(bs + x, n) == Tail(Tail(bs, n) + x, n)
    decreases |bs|
  {
    if |bs| >= n {
      var rest := bs[n..];
      GroupAppend(rest, x, n);
      assert (bs + x)[..n] == bs[..n] && (bs + x)[n..] == rest + x;
    }
  }

  lemma {:induction false} FlattenGroup(bs: seq<bool>, n: nat)
    requires n > 0
    ensures Flatten(Group(bs, n), n) + Tail(bs, n) == bs
    decreases |bs|
  {
    if |bs| < n {
      assert Group(bs, n) == [] && Tail(bs, n) == bs;
      assert Flatten([], n) == [];
      assert [] + bs == bs;
    } else {
      var first, rest := bs[..n], bs[n..];
      FlattenGroup(rest, n);
      assert first + rest == bs;
      GroupCons(first, rest, n);
      FlattenFront(first, Group(rest, n), Tail(rest, n), rest, n);
    }
  }

  lemma GroupCons(first: seq<bool>, rest: seq<bool>, n: nat)
    requires n > 0 && |first| == n
    ensures Group(first + rest, n) == [FromBits(first)] + Group(rest, n)
    ensures Tail(first + rest, n) == Tail(rest, n)
  {
    assert (first + rest)[..n] == first && (first + rest)[n..] == rest;
  }

  lemma FlattenFront(first: seq<bool>, vs: seq<nat>, tail: seq<bool>, rest: seq<bool>, n: nat)
    requires |first| == n && Flatten(vs, n) + tail == rest
    ensures Flatten([FromBits(first)] + vs, n) + tail == first + rest
  {
    ToFrom(first);
    FlattenCons(FromBits(first), vs, n);
    ConcatAssoc(first, Flatten(vs, n), tail);
  }

  lemma {:induction false} FlattenCons(v: nat, vs: seq<nat>, n: nat)
    ensures Flatten([v] + vs, n) == ToBits(v, n) + Flatten(vs, n)
  {
    var all := [v] + vs;
    if vs == [] {
      assert all[..0] == [] && all[0] == v;
      assert Flatten([], n) == [];
      assert [] + ToBits(v, n) == ToBits(v, n) + [];
    } else {
      var init, last := vs[..|vs| - 1], vs[|vs| - 1];
      FlattenCons(v, init, n);
      assert all[..|all| - 1] == [v] + init && all[|all| - 1] == last;
      ConcatAssoc(ToBits(v, n), Flatten(init, n), ToBits(last, n));
    }
  }

  lemma ConcatAssoc<T>(a: seq<T>, b: seq<T>, c: seq<T>)
    ensures (a + b) + c == a + (b + c)
  {
  }

  lemma {:induction false} GroupFlatten(vs: seq<nat>, n: nat)
    requires n > 0
    requires forall i :: 0 <= i < |vs| ==> vs[i] < P2(n)
    ensures Group(Flatten(vs, n), n) == vs && Tail(Flatten(vs, n), n) == []
  {
    if vs != [] {
      var init, last := vs[..|vs| - 1], vs[|vs| - 1];
      GroupFlatten(init, n);
      FromTo(last, n);
      GroupSnoc(Flatten(init, n), ToBits(last, n), n);
      SnocSplit(vs);
    }
  }

  lemma SnocSplit<T>(s: seq<T>)
    requires s != []
    ensures s == s[..|s| - 1] + [s[|s| - 1]]
  {
  }

  lemma GroupSnoc(bs: seq<bool>, t: seq<bool>, n: nat)
    requires n > 0 && Tail(bs, n) == [] && |t| == n
    ensures Group(bs + t, n) == Group(bs, n) + [FromBits(t)] && Tail(bs + t, n) == []
  {
    GroupAppend(bs, t, n);
    assert [] + t == t;
    GroupOne(t, n);
  }

  lemma GroupOne(bs: seq<bool>, n: nat)
    requires n > 0 && |bs| == n
    ensures Group(bs, n) == [FromBits(bs)] && Tail(bs, n) == []
  {
    assert bs[..n] == bs && bs[n..] == [];
  }

  // ---------------------------------------------------------------- wrapping accumulators

  const TWO31 := 0x8000_0000
  const TWO32 := 0x1_0000_0000

  function ToInt32(x: int): int {
    (x + TWO31) % TWO32 - TWO31
  }

  /** `(acc << k) | v` for v below 2^k: the shift wraps to a signed 32-bit integer and clears the low bits. */
  function ShiftIn(acc: int, k: nat, v: nat): int {
    ToInt32(acc * P2(k)) + v
  }

  /** `acc >> k`: arithmetic shift, which rounds towards minus infinity. */
  function Shr(acc: int, k: nat): int {
    acc / P2(k)
  }

  lemma P2At32()
    ensures P2(32) == TWO32
  {
    assert P2(8) == 256;
    P2Add(8, 8);
    P2Add(16, 16);
  }

  /** Wrapping never disturbs the low bits. */
  lemma WrapLow(x: int, n: nat)
    requires n <= 32
    ensures ToInt32(x) % P2(n) == x % P2(n)
  {
    P2At32();
    P2Add(32 - n, n);
    var m := (x + TWO31) / TWO32;
    assert ToInt32(x) == x - m * TWO32;
    Assoc(m, P2(32 - n), P2(n));
    ModShift(x, P2(n), m * P2(32 - n));
  }

  lemma Regroup(q: int, a: int, p: int, b: int)
    ensures (q * a + p) * b == q * (a * b) + p * b
  {
  }

  lemma BelowProduct(p: int, a: int, b: int)
    requires 0 <= p < a && b > 0
    ensures 0 <= p * b < a * b
  {
    HighPlusLow(p, a, b, 0);
  }

  /** acc * b, modulo a * b, keeps the residue of acc modulo a. */
  lemma ScaledMod(acc: int, a: int, b: int)
    requires a > 0 && b > 0
    ensures a * b > 0 && (acc * b) % (a * b) == (acc % a) * b
  {
    Regroup(acc / a, a, acc % a, b);
    assert acc == (acc / a) * a + acc % a;
    BelowProduct(acc % a, a, b);
    ModUnique(acc * b, a * b, acc / a, (acc % a) * b);
  }

  lemma ShiftInNumber(acc: int, n: nat, k: nat, v: nat)
    requires n + k <= 32 && v < P2(k)
    ensures ShiftIn(acc, k, v) % P2(n + k) == (acc % P2(n)) * P2(k) + v
  {
    P2Add(n, k);
    WrapLow(acc * P2(k), n + k);
    ScaledMod(acc, P2(n), P2(k));
    HighPlusLow(acc % P2(n), P2(n), P2(k), v);
    AddLow(ToInt32(acc * P2(k)), P2(n + k), (acc % P2(n)) * P2(k), v);
  }

  lemma MulLe(p: int, q: int, b: int)
    requires 0 <= p <= q && b >= 0
    ensures 0 <= p * b <= q * b
  {
    Product(q - p, b);
    Product(p, b);
    assert (q - p) * b == q * b - p * b;
  }

  lemma Product(x: int, y: int)
    requires x >= 0 && y >= 0
    ensures x * y >= 0
  {
  }

  lemma HighPlusLow(p: int, a: int, b: int, v: int)
    requires 0 <= p < a && 0 <= v < b
    ensures 0 <= p * b + v < a * b
  {
    MulLe(p, a - 1, b);
    assert (a - 1) * b == a * b - b;
  }

  /** The accumulator's low bits hold the pending bits with the new value appended. */
  lemma ShiftInLow(acc: int, k: nat, v: nat, pend: seq<bool>)
    requires |pend| + k <= 32 && v < P2(k)
    requires acc % P2(|pend|) == FromBits(pend)
    ensures ShiftIn(acc, k, v) % P2(|pend| + k) == FromBits(pend + ToBits(v, k))
  {
    ShiftInNumber(acc, |pend|, k, v);
    AppendValue(pend, v, k);
  }

  lemma AppendValue(pend: seq<bool>, v: nat, k: nat)
    requires v < P2(k)
    ensures FromBits(pend + ToBits(v, k)) == FromBits(pend) * P2(k) + v
  {
    FromConcat(pend, ToBits(v, k));
    FromTo(v, k);
  }

  lemma AddLow(w: int, big: int, high: int, v: int)
    requires big > 0 && w % big == high && 0 <= high + v < big
    ensures (w + v) % big == high + v
  {
    assert w == big * (w / big) + high;
    ModUnique(w + v, big, w / big, high + v);
  }

  /** Reading the oldest pending bits off the top, and what stays behind. */
  lemma ReadTop(acc: int, head: seq<bool>, rest: seq<bool>)
    requires acc % P2(|head| + |rest|) == FromBits(head + rest)
    ensures Shr(acc, |rest|) % P2(|head|) == FromBits(head)
    ensures acc % P2(|rest|) == FromBits(rest)
  {
    FromConcat(head, rest);
    FromBitsBound(head);
    FromBitsBound(rest);
    P2Add(|head|, |rest|);
    SplitMod(acc, P2(|head|), P2(|rest|), FromBits(head), FromBits(rest));
  }

  lemma SplitMod(acc: int, a: int, b: int, h: int, r: int)
    requires 0 <= h < a && 0 <= r < b
    requires a * b > 0 && acc % (a * b) == h * b + r
    ensures (acc / b) % a == h && acc % b == r
  {
    var q := acc / (a * b);
    assert acc == (a * b) * q + (h * b + r);
    assert (a * b) * q + h * b == (q * a + h) * b;
    ModUnique(acc, b, q * a + h, r);
    ModUnique(acc / b, a, q, h);
  }
}
