/** The one-shot celebration run by launchSequence: an interval whose
    closure counter starts at five, announces the count on each firing while
    it is positive, and on the firing after that clears itself and hands off
    to postLaunchTransition. */
module Celebration {
  import Countdown

  /** The starting value of celebrationCount. */
  const START_COUNT: nat := 5

  /** What one firing of the celebration interval does. */
  datatype Tick = Announce(n: nat) | HandOff

  /** The effect of a firing with the counter at `count`, and the counter it
      leaves behind. The counter is only decremented while positive, so it
      never goes below zero. */
  function Step(count: nat): (r: (Tick, nat))
    ensures r.0 == HandOff <==> count == 0
    ensures r.0.Announce? ==> r.0.n == count && r.1 == count - 1
    ensures r.0 == HandOff ==> r.1 == 0
  {
    if count > 0 then (Announce(count), count - 1) else (HandOff, count)
  }

  const TITLE_PREFIX: string := "\U{1F680} LAUNCHING IN "
  const TITLE_SUFFIX: string := "... \U{1F680}"

  /** A title announcing n: the prefix, a run of decimal digits that reads
      back as n, and the suffix. */
  predicate Announces(r: string, n: nat)
  {
    && |r| > |TITLE_PREFIX| + |TITLE_SUFFIX|
    && r[..|TITLE_PREFIX|] == TITLE_PREFIX && r[|r| - |TITLE_SUFFIX|..] == TITLE_SUFFIX
    && Countdown.AllDigits(r[|TITLE_PREFIX|..|r| - |TITLE_SUFFIX|])
    && Countdown.DigitsValue(r[|TITLE_PREFIX|..|r| - |TITLE_SUFFIX|]) == n
  }

  /** The title shown while the counter is n. */
  function Title(n: nat): (r: string)
    ensures Announces(r, n)
  {
    Countdown.DecimalStringFacts(n);
    var digits := Countdown.DecimalString(n);
    assert (TITLE_PREFIX + digits + TITLE_SUFFIX)[|TITLE_PREFIX|..|TITLE_PREFIX| + |digits|] == digits;
    TITLE_PREFIX + digits + TITLE_SUFFIX
  }

  /** The effects of the first k firings of an interval whose counter is
      `count`. A hand-off clears the interval, so nothing follows it. */
  function Ticks(count: nat, k: nat): (r: seq<Tick>)
    ensures |r| <= k && |r| <= count + 1
    decreases k
  {
    if k == 0 then []
    else
      var (t, next) := Step(count);
      if t == HandOff then [t] else [t] + Ticks(next, k - 1)
  }

  /** However long the interval is left running, a counter at `count` produces
      the announcements count, count - 1, ..., 1 in that order, then exactly
      one hand-off, and then nothing. */
  lemma {:induction false} TicksShape(count: nat, k: nat)
    requires k > count
    ensures |Ticks(count, k)| == count + 1
    ensures forall i :: 0 <= i < count ==> Ticks(count, k)[i] == Announce(count - i)
    ensures Ticks(count, k)[count] == HandOff
    decreases count
  {
    if count > 0 {
      TicksShape(count - 1, k - 1);
      assert Ticks(count, k) == [Announce(count)] + Ticks(count - 1, k - 1);
    }
  }

  /** Before the hand-off is due (k firings, k no more than the counter),
      every firing is an announcement, counting down from the start. */
  lemma {:induction false} TicksBeforeHandOff(count: nat, k: nat)
    requires k <= count
    ensures |Ticks(count, k)| == k
    ensures forall i :: 0 <= i < k ==> Ticks(count, k)[i] == Announce(count - i)
    decreases k
  {
    if k > 0 {
      TicksBeforeHandOff(count - 1, k - 1);
      assert Ticks(count, k) == [Announce(count)] + Ticks(count - 1, k - 1);
    }
  }

  /** The launch celebration: five, four, three, two, one, then the hand-off
      on the sixth firing. */
  lemma LaunchCelebration(k: nat)
    requires k >= 6
    ensures Ticks(START_COUNT, k) == [Announce(5), Announce(4), Announce(3), Announce(2), Announce(1), HandOff]
  {
    TicksShape(START_COUNT, k);
  }

  /** The titles differ from one count to the next, so each firing visibly
      changes the title. */
  lemma TitlesDistinct(m: nat, n: nat)
    requires m != n
    ensures Title(m) != Title(n)
  {
    assert Announces(Title(m), m) && Announces(Title(n), n);
  }
}
