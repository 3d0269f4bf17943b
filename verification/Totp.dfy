/** Time-based one-time passwords (RFC 6238): the skew window and the replay marker. */
module Totp {
  import opened Basics
  import opened Identity
  import LocalRecords

  /** `totpForStep` for one credential: the code of each time-step. HMAC itself is not modelled. */
  type Generator = nat -> string

  datatype Outcome = Settled(step: Option<int>) | Thrown

  function WithoutSpaces(s: string): string {
    if s == "" then "" else (if IsSpace(s[0]) then "" else [s[0]]) + WithoutSpaces(s[1..])
  }

  function Presented(code: string): string {
    LocalRecords.WithoutHyphens(WithoutSpaces(code))
  }

  predicate AllDigits(s: string) {
    s != "" && forall i :: 0 <= i < |s| ==> '0' <= s[i] <= '9'
  }

  predicate WellTyped(presented: string, digits: int) {
    |presented| == digits && AllDigits(presented)
  }

  /** A step that may be accepted: its code was presented and the marker has not reached it. */
  predicate Accepts(gen: Generator, presented: string, lastUsed: Option<int>, step: int) {
    step >= 0 && gen(step) == presented && (lastUsed.Some? ==> step > lastUsed.value)
  }

  /** The greatest acceptable step in lo..hi. */
  function Latest(gen: Generator, presented: string, lastUsed: Option<int>, lo: int, hi: int): (r: Option<int>)
    ensures r.Some? ==> lo <= r.value <= hi && Accepts(gen, presented, lastUsed, r.value)
    ensures r.Some? ==> forall step :: r.value < step <= hi ==> !Accepts(gen, presented, lastUsed, step)
    ensures r.None? ==> forall step :: lo <= step <= hi ==> !Accepts(gen, presented, lastUsed, step)
    decreases hi - lo
  {
    if hi < lo then None
    else if Accepts(gen, presented, lastUsed, hi) then Some(hi)
    else Latest(gen, presented, lastUsed, lo, hi - 1)
  }

  predicate ValidWindow(period: int, skew: int) {
    15 <= period <= 120 && 0 <= skew <= 5
  }

  function CurrentStep(now: int, period: int): int
    requires period > 0
  {
    now / (1000 * period)
  }

  /** What verification decides, without the loop. `now` is in milliseconds. */
  function Verdict(gen: Generator, code: string, now: int, digits: int, period: int, skew: int, lastUsed: Option<int>): Outcome {
    if !WellTyped(Presented(code), digits) then Settled(None)
    else if !ValidWindow(period, skew) then Thrown
    else
      var current := CurrentStep(now, period);
      if current + skew > LocalRecords.MAX_SAFE then Thrown
      else Settled(Latest(gen, Presented(code), lastUsed, current - skew, current + skew))
  }

  /**
   * The loop of the source: every candidate in the window is computed, and the latest match above
   * the marker is kept.
   */
  method VerifyTotp(gen: Generator, code: string, now: int, digits: int, period: int, skew: int, lastUsed: Option<int>)
    returns (r: Outcome)
    ensures r == Verdict(gen, code, now, digits, period, skew, lastUsed)
  {
    var presented := Presented(code);
    if !WellTyped(presented, digits) {
      return Settled(None);
    }
    if !ValidWindow(period, skew) {
      return Thrown;
    }
    var current := CurrentStep(now, period);
    var matched: Option<int> := None;
    var delta := -skew;
    while delta <= skew
      invariant -skew <= delta <= skew + 1
      invariant delta > -skew ==> current + delta - 1 <= LocalRecords.MAX_SAFE
      invariant matched == Latest(gen, presented, lastUsed, current - skew, current + delta - 1)
    {
      var step := current + delta;
      if step > LocalRecords.MAX_SAFE {
        return Thrown;
      }
      if step >= 0 {
        var expected := gen(step);
        if expected == presented && (lastUsed == None || step > lastUsed.value) {
          matched := if matched == None then Some(step) else Some(Max(matched.value, step));
        }
      }
      delta := delta + 1;
    }
    return Settled(matched);
  }

  /** An accepted step lies in the window, produced the presented code, and is above the marker; no later one would do. */
  lemma AcceptedStep(gen: Generator, code: string, now: int, digits: int, period: int, skew: int, lastUsed: Option<int>)
    ensures Verdict(gen, code, now, digits, period, skew, lastUsed).Settled?
            && Verdict(gen, code, now, digits, period, skew, lastUsed).step.Some? ==>
              var step := Verdict(gen, code, now, digits, period, skew, lastUsed).step.value;
              && ValidWindow(period, skew)
              && CurrentStep(now, period) - skew <= step <= CurrentStep(now, period) + skew
              && 0 <= step <= LocalRecords.MAX_SAFE && gen(step) == Presented(code)
              && (lastUsed.Some? ==> step > lastUsed.value)
              && (forall later :: step < later <= CurrentStep(now, period) + skew ==> gen(later) != Presented(code))
  {
    var v := Verdict(gen, code, now, digits, period, skew, lastUsed);
    if v.Settled? && v.step.Some? {
      forall later | v.step.value < later <= CurrentStep(now, period) + skew ensures gen(later) != Presented(code) {
        assert !Accepts(gen, Presented(code), lastUsed, later);
      }
    }
  }
}
