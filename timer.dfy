/**
 * Elapsed-time display (src/utils/timer.ts): durations in milliseconds
 * rendered as `45s`, `2m 34s` or `1h 2m`, and the module-level session timer.
 * The clock is a parameter: every reading of `Date.now()` is passed in as `now`.
 */
module Timer {

  import opened Wrappers
  import opened Strings

  /** `formatDuration`: whole hours and minutes, else minutes and seconds, else seconds; zero parts omitted. */
  function FormatDuration(ms: int): (r: string)
    ensures |r| >= 2
  {
    var seconds := ms / 1000;
    var minutes := seconds / 60;
    var hours := minutes / 60;
    if hours > 0 then TwoUnits(hours, 'h', minutes % 60, 'm')
    else if minutes > 0 then TwoUnits(minutes, 'm', seconds % 60, 's')
    else IntToString(seconds) + "s"
  }

  /** `<n><u> <rest><v>`, or `<n><u>` alone when `rest` is zero. */
  function TwoUnits(n: int, u: char, rest: int, v: char): (r: string)
    ensures |r| >= 2
  {
    if rest > 0 then IntToString(n) + [u] + " " + IntToString(rest) + [v]
    else IntToString(n) + [u]
  }

  // ---------------------------------------------------------------------------
  // Reading a rendered duration back
  // ---------------------------------------------------------------------------

  /** The milliseconds one unit letter stands for. */
  function UnitMs(u: char): Option<nat> {
    if u == 'h' then Some(3600000) else if u == 'm' then Some(60000) else if u == 's' then Some(1000) else None
  }

  /** The value of one part such as `12m`: digits, then a unit letter. */
  function PartMs(part: string): Option<int> {
    if |part| >= 2 && AllDigits(part[..|part| - 1]) && UnitMs(part[|part| - 1]).Some? then
      Some(DecimalValue(part[..|part| - 1]) * UnitMs(part[|part| - 1]).value)
    else None
  }

  function SumParts(parts: seq<string>): Option<int>
    decreases |parts|
  {
    if |parts| == 0 then Some(0)
    else
      match PartMs(parts[0])
      case None => None
      case Some(v) =>
        match SumParts(parts[1..])
        case None => None
        case Some(w) => Some(v + w)
  }

  /** The duration a rendering denotes: the sum of its space-separated parts. */
  function ParseDuration(s: string): Option<int> {
    SumParts(Split(s, ' '))
  }

  /** The duration shown for `ms`: rounded down to the minute from one hour on, else to the second. */
  function Shown(ms: nat): nat {
    if ms >= 3600000 then ms / 60000 * 60000 else ms / 1000 * 1000
  }

  /** The resolution of what is shown for `ms`. */
  function Resolution(ms: nat): nat {
    if ms >= 3600000 then 60000 else 1000
  }

  lemma PartOf(n: nat, u: char)
    requires UnitMs(u).Some?
    ensures PartMs(NatToString(n) + [u]) == Some(n * UnitMs(u).value)
    ensures ' ' !in NatToString(n) + [u]
  {
    var d := NatToString(n);
    assert (d + [u])[..|d + [u]| - 1] == d;
    NatToStringValue(n);
  }

  lemma TwoParts(a: string, b: string)
    requires ' ' !in a && ' ' !in b
    ensures Split(a + " " + b, ' ') == [a, b]
  {
    assert Join([a, b], ' ') == a + " " + b;
    SplitJoin([a, b], ' ');
  }

  lemma SumTwo(a: string, b: string)
    requires PartMs(a).Some? && PartMs(b).Some?
    ensures SumParts([a, b]) == Some(PartMs(a).value + PartMs(b).value)
  {
    assert [a, b][1..] == [b];
    assert SumParts([b]) == Some(PartMs(b).value);
  }

  lemma SumOne(a: string)
    requires PartMs(a).Some?
    ensures SumParts([a]) == PartMs(a)
  {
    assert [a][1..] == [];
  }

  lemma OnePart(a: string)
    requires ' ' !in a
    ensures Split(a, ' ') == [a]
  {
    SplitJoin([a], ' ');
  }

  /**
   * A rendering reads back as the duration rounded down to its resolution
   * (a minute from one hour on, a second below), and that is within one
   * resolution step of the true duration.
   */
  lemma FormatDurationReadsBack(ms: nat)
    ensures ParseDuration(FormatDuration(ms)) == Some(Shown(ms))
    ensures Shown(ms) <= ms < Shown(ms) + Resolution(ms)
  {
    if ms >= 3600000 {
      HoursReadBack(ms);
    } else if ms >= 60000 {
      MinutesReadBack(ms);
    } else {
      PartOf(ms / 1000, 's');
      OnePart(NatToString(ms / 1000) + "s");
      SumOne(NatToString(ms / 1000) + "s");
    }
  }

  lemma TwoUnitsReadBack(n: nat, u: char, rest: nat, v: char)
    requires n > 0 && UnitMs(u).Some? && UnitMs(v).Some?
    ensures ParseDuration(TwoUnits(n, u, rest, v)) == Some(n * UnitMs(u).value + rest * UnitMs(v).value)
  {
    var a := NatToString(n) + [u];
    PartOf(n, u);
    if rest > 0 {
      var b := NatToString(rest) + [v];
      PartOf(rest, v);
      TwoParts(a, b);
      SumTwo(a, b);
      assert TwoUnits(n, u, rest, v) == a + " " + b;
    } else {
      OnePart(a);
      SumOne(a);
    }
  }

  lemma HoursReadBack(ms: nat)
    requires ms >= 3600000
    ensures ParseDuration(FormatDuration(ms)) == Some(ms / 60000 * 60000)
  {
    var minutes := ms / 1000 / 60;
    assert minutes == ms / 60000;
    var hours := minutes / 60;
    assert hours > 0;
    assert FormatDuration(ms) == TwoUnits(hours, 'h', minutes % 60, 'm');
    TwoUnitsReadBack(hours, 'h', minutes % 60, 'm');
  }

  lemma MinutesReadBack(ms: nat)
    requires 60000 <= ms < 3600000
    ensures ParseDuration(FormatDuration(ms)) == Some(ms / 1000 * 1000)
  {
    var seconds := ms / 1000;
    var minutes := seconds / 60;
    assert 0 < minutes < 60;
    assert FormatDuration(ms) == TwoUnits(minutes, 'm', seconds % 60, 's');
    TwoUnitsReadBack(minutes, 'm', seconds % 60, 's');
  }

  /** A non-negative duration renders as `0s` exactly when it is under a second. */
  lemma FormatDurationZero(ms: nat)
    ensures ms < 1000 <==> FormatDuration(ms) == "0s"
  {
    var seconds := ms / 1000;
    if 1000 <= ms < 60000 {
      NatToStringValue(seconds);
      assert FormatDuration(ms) == NatToString(seconds) + "s";
    } else if ms >= 60000 {
      var r := FormatDuration(ms);
      assert r[|r| - 1] == 'm' || r[|r| - 1] == 'h' || |r| > 2;
    }
  }

  /** The rendering of `TwoUnits` splits into its one or two parts. */
  lemma TwoUnitsParts(n: nat, u: char, rest: nat, v: char)
    requires UnitMs(u).Some? && UnitMs(v).Some?
    ensures rest > 0 ==> Split(TwoUnits(n, u, rest, v), ' ') == [NatToString(n) + [u], NatToString(rest) + [v]]
    ensures rest == 0 ==> Split(TwoUnits(n, u, rest, v), ' ') == [NatToString(n) + [u]]
  {
    var a := NatToString(n) + [u];
    assert ' ' !in a by { PartOf(n, u); }
    if rest > 0 {
      var b := NatToString(rest) + [v];
      assert ' ' !in b by { PartOf(rest, v); }
      TwoParts(a, b);
      assert TwoUnits(n, u, rest, v) == a + " " + b;
    } else {
      OnePart(a);
    }
  }

  /** One or two parts, and a second part shows a value from 1 to 59. */
  predicate SecondaryInRange(parts: seq<string>) {
    && 1 <= |parts| <= 2
    && (|parts| == 2 ==>
          && |parts[1]| >= 2 && AllDigits(parts[1][..|parts[1]| - 1])
          && 1 <= DecimalValue(parts[1][..|parts[1]| - 1]) <= 59)
  }

  lemma TwoUnitsSecondary(n: nat, u: char, rest: nat, v: char)
    requires UnitMs(u).Some? && UnitMs(v).Some? && rest < 60
    ensures SecondaryInRange(Split(TwoUnits(n, u, rest, v), ' '))
  {
    TwoUnitsParts(n, u, rest, v);
    if rest > 0 {
      var second := NatToString(rest) + [v];
      assert second[..|second| - 1] == NatToString(rest);
      NatToStringValue(rest);
    }
  }

  /**
   * A rendering has one or two parts, and a second part (minutes after
   * hours, seconds after minutes) shows a value from 1 to 59.
   */
  lemma SecondaryFieldInRange(ms: nat)
    ensures SecondaryInRange(Split(FormatDuration(ms), ' '))
  {
    var seconds := ms / 1000;
    var minutes := seconds / 60;
    var hours := minutes / 60;
    if hours > 0 {
      assert FormatDuration(ms) == TwoUnits(hours, 'h', minutes % 60, 'm');
      TwoUnitsSecondary(hours, 'h', minutes % 60, 'm');
    } else if minutes > 0 {
      assert FormatDuration(ms) == TwoUnits(minutes, 'm', seconds % 60, 's');
      TwoUnitsSecondary(minutes, 'm', seconds % 60, 's');
    } else {
      PartOf(seconds, 's');
      OnePart(NatToString(seconds) + "s");
    }
  }

  /**
   * The module-level session timer: `None` until `startSessionTimer` runs,
   * then the clock reading at that moment.
   */
  class SessionTimer {
    var startTime: Option<int>

    constructor()
      ensures startTime == None
    {
      startTime := None;
    }

    /** `startSessionTimer`: (re)start counting from `now`. */
    method Start(now: int)
      modifies this
      ensures startTime == Some(now)
    {
      startTime := Some(now);
    }

    /** `getSessionElapsedMs`: 0 before the timer is started, else the time since the start. */
    method ElapsedMs(now: int) returns (ms: int)
      ensures startTime.None? ==> ms == 0
      ensures startTime.Some? ==> startTime.value + ms == now
    {
      if startTime.None? {
        return 0;
      }
      ms := now - startTime.value;
    }

    /** `getSessionElapsed`: `0s` before the timer is started, else the elapsed time formatted. */
    method Elapsed(now: int) returns (s: string)
      ensures startTime.None? ==> s == "0s"
      ensures startTime.Some? ==> s == FormatDuration(now - startTime.value)
    {
      if startTime.None? {
        return "0s";
      }
      s := FormatDuration(now - startTime.value);
    }
  }
}
