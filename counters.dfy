/**
 * The two timer-driven text animations: the stat counters that count up to
 * the number in their text (script.js:316-334) and the hero title's typing
 * effect (script.js:243-256). Each timer tick is one loop iteration.
 */
module Counters {
  import opened Wrappers

  predicate IsDigit(c: char) {
    '0' <= c <= '9'
  }

  /** `text.replace(/\D/g, '')`: the digits of `text`, in order. */
  function Digits(text: string): (ds: string)
    ensures forall k :: 0 <= k < |ds| ==> IsDigit(ds[k])
  {
    if text == [] then []
    else (if IsDigit(text[0]) then [text[0]] else []) + Digits(text[1..])
  }

  /** `text.replace(/\d/g, '')`: everything else, in order. */
  function NonDigits(text: string): (rest: string)
    ensures forall k :: 0 <= k < |rest| ==> !IsDigit(rest[k])
  {
    if text == [] then []
    else (if IsDigit(text[0]) then [] else [text[0]]) + NonDigits(text[1..])
  }

  lemma {:induction false} DigitsAppend(a: string, b: string)
    ensures Digits(a + b) == Digits(a) + Digits(b)
    ensures NonDigits(a + b) == NonDigits(a) + NonDigits(b)
    decreases |a|
  {
    if a != [] {
      assert (a + b)[1..] == a[1..] + b;
      DigitsAppend(a[1..], b);
    } else {
      assert a + b == b;
    }
  }

  function DigitValue(c: char): (d: nat)
    requires IsDigit(c)
    ensures d <= 9
  {
    c as int - '0' as int
  }

  /** `parseInt` of a string of decimal digits. */
  function DecimalValue(ds: string): nat
    requires forall k :: 0 <= k < |ds| ==> IsDigit(ds[k])
  {
    if ds == [] then 0
    else DecimalValue(ds[..|ds| - 1]) * 10 + DigitValue(ds[|ds| - 1])
  }

  /** `String(n)` for a non-negative integer: its decimal digits, without leading zeros. */
  function Decimal(n: nat): (s: string)
    ensures |s| >= 1 && (forall k :: 0 <= k < |s| ==> IsDigit(s[k]))
    ensures DecimalValue(s) == n
    ensures s[0] == '0' ==> s == "0"
  {
    var last := [('0' as int + n % 10) as char];
    assert DigitValue(last[0]) == n % 10;
    if n < 10 then last
    else
      var s := Decimal(n / 10) + last;
      assert s[..|s| - 1] == Decimal(n / 10);
      s
  }

  /** The number a stat counts to: `parseInt` of the text's digits, for a text holding a
    * digit. For a text without one, `parseInt('')` is `NaN`; the model gives 0. */
  function Target(text: string): nat {
    DecimalValue(Digits(text))
  }

  /** What a stat shows for the whole number `n`: `Math.floor(current) + suffix`. */
  function StatText(n: nat, suffix: string): string {
    Decimal(n) + suffix
  }

  lemma {:induction false} DigitsOfDigits(ds: string)
    requires forall k :: 0 <= k < |ds| ==> IsDigit(ds[k])
    ensures Digits(ds) == ds && NonDigits(ds) == []
  {
    if ds != [] {
      DigitsOfDigits(ds[1..]);
      assert ds == [ds[0]] + ds[1..];
    }
  }

  lemma {:induction false} NonDigitsOfNonDigits(s: string)
    requires forall k :: 0 <= k < |s| ==> !IsDigit(s[k])
    ensures Digits(s) == [] && NonDigits(s) == s
  {
    if s != [] {
      NonDigitsOfNonDigits(s[1..]);
      assert s == [s[0]] + s[1..];
    }
  }

  /** A stat written as a number followed by non-digits ends the animation showing its own text. */
  lemma StatTextRoundTrip(n: nat, suffix: string)
    requires forall k :: 0 <= k < |suffix| ==> !IsDigit(suffix[k])
    ensures Target(StatText(n, suffix)) == n
    ensures NonDigits(StatText(n, suffix)) == suffix
  {
    DigitsAppend(Decimal(n), suffix);
    DigitsOfDigits(Decimal(n));
    NonDigitsOfNonDigits(suffix);
    assert Digits(StatText(n, suffix)) == Decimal(n) + [];
    assert Decimal(n) + [] == Decimal(n);
  }

  /** Non-digits before or between the digits all move to the end: "1,500+" ends as "1500,+". */
  lemma SeparatorsMoveToEnd()
    ensures Target("1,500+") == 1500
    ensures StatText(Target("1,500+"), NonDigits("1,500+")) == "1500,+"
  {
    SplitSample();
    DecimalSample();
  }

  lemma DigitsCons(c: char, rest: string)
    ensures Digits([c] + rest) == (if IsDigit(c) then [c] else []) + Digits(rest)
    ensures NonDigits([c] + rest) == (if IsDigit(c) then [] else [c]) + NonDigits(rest)
  {
    assert ([c] + rest)[1..] == rest;
  }

  lemma SplitSample()
    ensures Digits("1,500+") == "1500"
    ensures NonDigits("1,500+") == ",+"
  {
    DigitsCons('+', []);
    DigitsCons('0', "+");
    DigitsCons('0', "0+");
    DigitsCons('5', "00+");
    DigitsCons(',', "500+");
    DigitsCons('1', ",500+");
  }

  lemma DecimalSample()
    ensures Decimal(1500) == "1500"
  {
    assert Decimal(1) == "1";
    assert Decimal(15) == "15";
    assert Decimal(150) == "150";
  }

  /** Ticks of the interval. */
  const TickCount: nat := 50

  /** The uncapped value of `current` after `n` ticks towards `target`. */
  function Progress(n: nat, target: real): (c: real)
    requires target >= 0.0
    ensures c >= 0.0
  {
    n as real * (target / TickCount as real)
  }

  /** Before tick 50 the uncapped value is still below the target. */
  lemma BelowTarget(m: nat, target: real)
    requires target > 0.0 && m < TickCount
    ensures Progress(m, target) < target
  {
    var inc := target / TickCount as real;
    var gap := (TickCount - m) as real;
    assert target - Progress(m, target) == gap * inc;
    assert gap * inc == inc + (gap - 1.0) * inc;
    assert (gap - 1.0) * inc >= 0.0;
  }

  /** One tick adds the increment, and the cap is reached exactly at tick 50. */
  lemma ProgressStep(n: nat, target: real)
    requires target > 0.0 && n < TickCount
    ensures Progress(n + 1, target) == Progress(n, target) + target / TickCount as real
    ensures Progress(n, target) < target
    ensures Progress(n + 1, target) >= target <==> n + 1 == TickCount
    ensures n + 1 == TickCount ==> Progress(n + 1, target) == target
  {
    var inc := target / TickCount as real;
    assert Progress(n + 1, target) == n as real * inc + inc;
    BelowTarget(n, target);
    if n + 1 == TickCount {
      assert Progress(n + 1, target) == TickCount as real * inc;
    } else {
      BelowTarget(n + 1, target);
    }
  }

  predicate Nondecreasing(s: seq<int>) {
    forall a, b :: 0 <= a <= b < |s| ==> s[a] <= s[b]
  }

  lemma NondecreasingAppend(s: seq<int>, x: int)
    requires Nondecreasing(s)
    requires s != [] ==> s[|s| - 1] <= x
    ensures Nondecreasing(s + [x])
  {
  }

  /**
   * `animateStats` for one stat: every 30 ms `current` grows by `target / 50`,
   * is capped at `target` (which also stops the timer), and the stat shows
   * `floor(current) + suffix`. `ticks` are the whole numbers shown, one per
   * tick, and `shown` the texts. The text must hold a digit.
   */
  method AnimateStat(text: string) returns (ticks: seq<nat>, shown: seq<string>)
    requires Digits(text) != []
    ensures |ticks| == if Target(text) == 0 then 1 else TickCount
    ensures forall k :: 0 <= k < |ticks| ==> ticks[k] == Progress(k + 1, Target(text) as real).Floor
    ensures ticks[|ticks| - 1] == Target(text)
    ensures forall k :: 0 <= k < |ticks| ==> ticks[k] <= Target(text)
    ensures Nondecreasing(ticks)
    ensures |shown| == |ticks|
    ensures forall k :: 0 <= k < |shown| ==> shown[k] == StatText(ticks[k], NonDigits(text))
    ensures shown[|shown| - 1] == StatText(Target(text), NonDigits(text))
  {
    var target := Target(text) as real;
    var suffix := NonDigits(text);
    var current := 0.0;
    var increment := target / TickCount as real;
    ticks, shown := [], [];
    var running := true;
    while running
      invariant 0.0 <= current <= target
      invariant running ==> current == Progress(|ticks|, target)
      invariant running ==> target > 0.0 ==> |ticks| < TickCount
      invariant running ==> target == 0.0 ==> ticks == []
      invariant !running ==> current == target && |ticks| == if target == 0.0 then 1 else TickCount
      invariant forall k :: 0 <= k < |ticks| ==> ticks[k] == Progress(k + 1, target).Floor
      invariant forall k :: 0 <= k < |ticks| ==> ticks[k] <= current.Floor
      invariant Nondecreasing(ticks)
      invariant |ticks| > 0 ==> ticks[|ticks| - 1] == current.Floor
      invariant |shown| == |ticks|
      invariant forall k :: 0 <= k < |shown| ==> shown[k] == StatText(ticks[k], suffix)
      decreases running, TickCount - |ticks|
    {
      if target > 0.0 {
        ProgressStep(|ticks|, target);
      } else {
        assert increment == 0.0 && Progress(1, target) == 0.0;
      }
      current := current + increment;
      if current >= target {
        current := target;
        running := false;
      }
      assert current == Progress(|ticks| + 1, target);
      var value: nat := current.Floor;
      NondecreasingAppend(ticks, value);
      ticks := ticks + [value];
      shown := shown + [StatText(value, suffix)];
    }
  }

  /**
   * `typeWriter`: the title is emptied, then each call of `type` appends the
   * next character and schedules another call, until the text is used up.
   * `calls` is how many calls have run; `pending` is whether one more is scheduled.
   */
  method TypeWriter(text: string, calls: nat) returns (shown: string, pending: bool)
    ensures shown == text[..Min(calls, |text|)]
    ensures pending <==> calls <= |text|
  {
    shown := [];
    pending := true;
    var i := 0;
    var n := 0;
    while n < calls && pending
      invariant 0 <= n <= calls
      invariant i == Min(n, |text|) && shown == text[..i]
      invariant pending <==> n <= |text|
    {
      if i < |text| {
        shown := shown + [text[i]];
        i := i + 1;
      } else {
        pending := false;
      }
      n := n + 1;
    }
  }
}
