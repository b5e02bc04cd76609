/**
 * Human-readable durations (app/assets/js/time-helper.js): `msToHumanReadable`
 * splits a duration in milliseconds into day, hour and minute counts, renders the
 * non-zero ones and joins them into a sentence with `arrayToSentence`.
 */
module TimeHelper {
  import opened JsText

  const MS_PER_MINUTE: int := 1000 * 60
  const MS_PER_HOUR: int := 1000 * 60 * 60
  const MS_PER_DAY: int := 1000 * 60 * 60 * 24

  /** A JavaScript array of strings, which `pop()` shortens in place. */
  class JsArray {
    var items: seq<string>

    constructor (items: seq<string>)
      ensures this.items == items
    {
      this.items := items;
    }

    /** `pop()`: removes and returns the last element, or undefined (None) when empty. */
    method Pop() returns (x: Option<string>)
      modifies this
      ensures old(items) == [] ==> x == None && items == []
      ensures old(items) != [] ==> x == Some(old(items)[|old(items)| - 1]) && items == old(items)[..|old(items)| - 1]
    {
      if items == [] {
        x := None;
      } else {
        x := Some(items[|items| - 1]);
        items := items[..|items| - 1];
      }
    }
  }

  /**
   * The sentence `arrayToSentence` builds: null for no parts, the part itself for
   * one, and otherwise all but the last joined by ", ", then " and " and the last.
   */
  function Sentence(parts: seq<string>): Option<string>
  {
    if |parts| == 0 then None
    else if |parts| == 1 then Some(parts[0])
    else Some(Join(parts[..|parts| - 1], ", ") + " and " + parts[|parts| - 1])
  }

  /** Reference definition of the same sentence, built from the front. */
  function SentenceFromFront(parts: seq<string>): Option<string>
  {
    if |parts| == 0 then None
    else if |parts| == 1 then Some(parts[0])
    else if |parts| == 2 then Some(parts[0] + " and " + parts[1])
    else Some(parts[0] + ", " + SentenceFromFront(parts[1..]).value)
  }

  /** The sentence equals the reference: commas between all but the last pair, no Oxford comma. */
  lemma {:induction false} SentenceMatchesReference(parts: seq<string>)
    ensures Sentence(parts) == SentenceFromFront(parts)
    decreases |parts|
  {
    if |parts| > 2 {
      var rest := parts[1..];
      SentenceMatchesReference(rest);
      assert parts[..|parts| - 1] == [parts[0]] + rest[..|rest| - 1];
      assert (parts[..|parts| - 1])[1..] == rest[..|rest| - 1];
      assert parts[|parts| - 1] == rest[|rest| - 1];
      var init := parts[..|parts| - 1];
      assert Join(init, ", ") == parts[0] + ", " + Join(rest[..|rest| - 1], ", ");
      assert Sentence(rest).value == Join(rest[..|rest| - 1], ", ") + " and " + rest[|rest| - 1];
      assert Sentence(parts).value == Join(init, ", ") + " and " + parts[|parts| - 1];
      assert Sentence(parts).value == parts[0] + ", " + Sentence(rest).value;
      assert SentenceFromFront(parts).value == parts[0] + ", " + SentenceFromFront(rest).value;
    } else if |parts| == 2 {
      assert parts[..1] == [parts[0]];
    }
  }

  /**
   * `arrayToSentence(arr)`: null for a missing or empty array; otherwise the
   * sentence of its elements. The array loses its last element to `pop()`.
   */
  method ArrayToSentence(arr: JsArray?) returns (r: Option<string>)
    modifies arr
    ensures arr == null ==> r == None
    ensures arr != null ==> r == Sentence(old(arr.items))
    ensures arr != null ==> arr.items == if old(arr.items) == [] then [] else old(arr.items)[..|old(arr.items)| - 1]
  {
    if arr == null {
      return None;
    }
    var length := |arr.items|;
    if length == 0 {
      return None;
    }
    if length == 1 {
      r := arr.Pop();
      return;
    }
    var last := arr.Pop();
    r := Some(Join(arr.items, ", ") + " and " + last.value);
  }

  /**
   * `Math.floor((duration / unitMs) % modulus)` on JavaScript numbers, for an
   * integer duration. `/` is real division and `%` keeps the sign of the
   * dividend, so a negative duration gives the negated ceiling of the positive
   * case: the whole quotient reduced by the modulus, plus one for a remainder.
   */
  function FloorQuotientRem(duration: int, unitMs: int, modulus: int): (q: int)
    requires unitMs > 0 && modulus > 0
    ensures duration >= 0 ==> 0 <= q < modulus
    ensures duration < 0 ==> -modulus <= q <= 0
  {
    if duration >= 0 then (duration / unitMs) % modulus
    else
      var e := -duration;
      -((e / unitMs) % modulus + (if e % unitMs == 0 then 0 else 1))
  }

  function Days(duration: int): int { FloorQuotientRem(duration, MS_PER_DAY, 24) }
  function Hours(duration: int): int { FloorQuotientRem(duration, MS_PER_HOUR, 24) }
  function Minutes(duration: int): int { FloorQuotientRem(duration, MS_PER_MINUTE, 60) }

  /** The map step: null for zero, "s" appended only for even quantities. */
  function Part(unit: string, quantity: int): Option<string>
  {
    if quantity == 0 then None
    else if quantity % 2 == 0 then Some(IntToString(quantity) + " " + unit + "s")
    else Some(IntToString(quantity) + " " + unit)
  }

  /** The filter(Boolean) step keeps the non-null parts, in the order day, hour, minute. */
  function Parts(duration: int): seq<string>
  {
    var entries := [Part("day", Days(duration)), Part("hour", Hours(duration)), Part("minute", Minutes(duration))];
    (if entries[0].Some? then [entries[0].value] else [])
    + (if entries[1].Some? then [entries[1].value] else [])
    + (if entries[2].Some? then [entries[2].value] else [])
  }

  /** What `msToHumanReadable(duration)` returns. */
  function HumanReadable(duration: int): Option<string>
  {
    Sentence(Parts(duration))
  }

  /** `msToHumanReadable(duration)`: the parts go into a fresh array handed to `arrayToSentence`. */
  method MsToHumanReadable(duration: int) returns (r: Option<string>)
    ensures r == HumanReadable(duration)
  {
    var arr := new JsArray(Parts(duration));
    r := ArrayToSentence(arr);
  }

  /** For a non-negative duration the day and hour counts lie in [0, 24) and the minutes in [0, 60). */
  lemma QuantityBounds(duration: int)
    requires duration >= 0
    ensures 0 <= Days(duration) < 24 && 0 <= Hours(duration) < 24 && 0 <= Minutes(duration) < 60
    ensures Days(duration) == (duration / MS_PER_DAY) % 24
  {
  }

  /** A rendered part is the count, a space and the unit, with "s" exactly when the count is even. */
  lemma PartShape(unit: string, quantity: int)
    requires unit in {"day", "hour", "minute"}
    ensures Part(unit, quantity).None? <==> quantity == 0
    ensures Part(unit, quantity).Some? ==>
      var p := Part(unit, quantity).value;
      var prefix := IntToString(quantity) + " " + unit;
      && p == prefix + (if quantity % 2 == 0 then "s" else "")
      && p[..|prefix|] == prefix && (p[|p| - 1] == 's' <==> quantity % 2 == 0)
  {
  }

  /** The parts come in the order day, hour, minute, each at the position its non-zero predecessors leave it, zeros left out. */
  lemma PartsInOrder(duration: int)
    ensures |Parts(duration)| == (if Days(duration) != 0 then 1 else 0) + (if Hours(duration) != 0 then 1 else 0)
      + (if Minutes(duration) != 0 then 1 else 0)
    ensures Days(duration) != 0 ==> Parts(duration)[0] == Part("day", Days(duration)).value
    ensures Hours(duration) != 0 ==>
      Parts(duration)[if Days(duration) != 0 then 1 else 0] == Part("hour", Hours(duration)).value
    ensures Minutes(duration) != 0 ==> Parts(duration)[|Parts(duration)| - 1] == Part("minute", Minutes(duration)).value
  {
  }

  /** Less than a minute gives null, not a phrase. */
  lemma UnderAMinuteIsNull(duration: int)
    requires 0 <= duration < MS_PER_MINUTE
    ensures HumanReadable(duration) == None
  {
    assert duration / MS_PER_MINUTE == 0 && duration / MS_PER_HOUR == 0 && duration / MS_PER_DAY == 0;
    assert Days(duration) == 0 && Hours(duration) == 0 && Minutes(duration) == 0;
    assert Parts(duration) == [];
  }

  /** Because days are reduced modulo 24, a whole multiple of 24 days gives null as well. */
  lemma WholeMultipleOf24DaysIsNull(k: nat)
    ensures HumanReadable(k * 24 * MS_PER_DAY) == None
  {
    var d := k * 24 * MS_PER_DAY;
    assert d / MS_PER_DAY == k * 24;
    assert d / MS_PER_HOUR == k * 24 * 24;
    assert d / MS_PER_MINUTE == k * 24 * 24 * 60;
    assert Days(d) == 0 && Hours(d) == 0 && Minutes(d) == 0;
    assert Parts(d) == [];
  }

  /** The decimal strings of the counts in the examples below. */
  lemma SmallNumbers()
    ensures IntToString(1) == "1" && IntToString(5) == "5" && IntToString(6) == "6"
    ensures IntToString(15) == "15" && IntToString(30) == "30"
  {
    assert NatToString(15) == NatToString(1) + ['5'];
    assert NatToString(30) == NatToString(3) + ['0'];
  }

  /** Two parts are joined by " and " alone. */
  lemma SentenceOfTwo(a: string, b: string)
    ensures Sentence([a, b]) == Some(a + " and " + b)
  {
    assert [a, b][..1] == [a];
  }

  /** Three parts: a comma after the first, " and " before the last. */
  lemma SentenceOfThree(a: string, b: string, c: string)
    ensures Sentence([a, b, c]) == Some(a + ", " + b + " and " + c)
  {
    assert [a, b, c][..2] == [a, b];
    assert [a, b][1..] == [b];
    assert Join([a, b], ", ") == a + ", " + Join([b], ", ");
  }

  /** The parts of the duration in `FiveDaysFifteenMinutesAsWritten`. */
  lemma FiveDaysFifteenMinutesParts()
    ensures Parts(432946802) == ["5 day", "15 minute"]
  {
    var d := 432946802;
    assert Days(d) == 5 && Hours(d) == 0 && Minutes(d) == 15 by {
      assert d / MS_PER_DAY == 5 && d / MS_PER_HOUR == 120 && d / MS_PER_MINUTE == 7215;
    }
    assert Part("day", 5) == Some("5 day") by {
      SmallNumbers();
      assert IntToString(5) + " " + "day" == "5 day";
    }
    assert Part("minute", 15) == Some("15 minute") by {
      SmallNumbers();
      assert IntToString(15) + " " + "minute" == "15 minute";
    }
  }

  /** The test's "5 days and 15 minutes" comes out without either "s": 5 and 15 are odd. */
  lemma FiveDaysFifteenMinutesAsWritten()
    ensures HumanReadable(432946802) == Some("5 day and 15 minute")
  {
    FiveDaysFifteenMinutesParts();
    SentenceOfTwo("5 day", "15 minute");
    assert "5 day" + " and " + "15 minute" == "5 day and 15 minute" by {
      assert "5 day" + " and " == "5 day and ";
      assert "5 day and " + "15 minute" == "5 day and 15 minute";
    }
  }

  /** The parts of the duration in `ThirtyDaysAsWritten`. */
  lemma ThirtyDaysParts()
    ensures Parts(30 * MS_PER_DAY + MS_PER_HOUR + MS_PER_MINUTE) == ["6 days", "1 hour", "1 minute"]
  {
    var d := 30 * MS_PER_DAY + MS_PER_HOUR + MS_PER_MINUTE;
    assert Days(d) == 6 && Hours(d) == 1 && Minutes(d) == 1 by {
      assert d / MS_PER_DAY == 30 && d / MS_PER_HOUR == 721 && d / MS_PER_MINUTE == 43261;
    }
    assert Part("day", 6) == Some("6 days") by {
      SmallNumbers();
      assert IntToString(6) + " " + "day" + "s" == "6 days";
    }
    assert Part("hour", 1) == Some("1 hour") by {
      SmallNumbers();
      assert IntToString(1) + " " + "hour" == "1 hour";
    }
    assert Part("minute", 1) == Some("1 minute") by {
      SmallNumbers();
      assert IntToString(1) + " " + "minute" == "1 minute";
    }
  }

  /** The test's "30 days, 1 hour and 1 minute": the day count is reduced modulo 24 to 6. */
  lemma ThirtyDaysAsWritten()
    ensures HumanReadable(30 * MS_PER_DAY + MS_PER_HOUR + MS_PER_MINUTE) == Some("6 days, 1 hour and 1 minute")
  {
    ThirtyDaysParts();
    SentenceOfThree("6 days", "1 hour", "1 minute");
    assert "6 days" + ", " + "1 hour" + " and " + "1 minute" == "6 days, 1 hour and 1 minute" by {
      assert "6 days" + ", " == "6 days, ";
      assert "6 days, " + "1 hour" == "6 days, 1 hour";
      assert "6 days, 1 hour" + " and " == "6 days, 1 hour and ";
      assert "6 days, 1 hour and " + "1 minute" == "6 days, 1 hour and 1 minute";
    }
  }

  /** The evidently intended part: "s" for every count other than 1. */
  function PartIntended(unit: string, quantity: int): Option<string>
  {
    if quantity == 0 then None
    else if quantity != 1 then Some(IntToString(quantity) + " " + unit + "s")
    else Some(IntToString(quantity) + " " + unit)
  }

  /** The evidently intended day count: whole days, not reduced modulo 24 (floor division). */
  function DaysIntended(duration: int): int { duration / MS_PER_DAY }

  function PartsIntended(duration: int): seq<string>
  {
    var entries := [PartIntended("day", DaysIntended(duration)), PartIntended("hour", Hours(duration)),
                    PartIntended("minute", Minutes(duration))];
    (if entries[0].Some? then [entries[0].value] else [])
    + (if entries[1].Some? then [entries[1].value] else [])
    + (if entries[2].Some? then [entries[2].value] else [])
  }

  /** The corrected duration sentence. */
  function HumanReadableIntended(duration: int): Option<string>
  {
    Sentence(PartsIntended(duration))
  }

  /** With the intended rule a part ends in "s" exactly when its count is not 1. */
  lemma IntendedPluralRule(unit: string, quantity: int)
    requires unit in {"day", "hour", "minute"} && quantity != 0
    ensures var p := PartIntended(unit, quantity).value;
      p[|p| - 1] == 's' <==> quantity != 1
  {
  }

  /** With the intended rule whole days are kept: every duration of d >= 1 days names d days first. */
  lemma IntendedKeepsWholeDays(duration: int)
    requires duration >= MS_PER_DAY
    ensures var d := duration / MS_PER_DAY;
      PartsIntended(duration)[0] == IntToString(d) + " day" + (if d != 1 then "s" else "")
  {
  }

  /** The parts of the duration in `IntendedFiveDaysFifteenMinutes`. */
  lemma IntendedFiveDaysFifteenMinutesParts()
    ensures PartsIntended(432946802) == ["5 days", "15 minutes"]
  {
    var d := 432946802;
    assert DaysIntended(d) == 5 && Hours(d) == 0 && Minutes(d) == 15 by {
      assert d / MS_PER_DAY == 5 && d / MS_PER_HOUR == 120 && d / MS_PER_MINUTE == 7215;
    }
    assert PartIntended("day", 5) == Some("5 days") by {
      SmallNumbers();
      assert IntToString(5) + " " + "day" + "s" == "5 days";
    }
    assert PartIntended("minute", 15) == Some("15 minutes") by {
      SmallNumbers();
      assert IntToString(15) + " " + "minute" + "s" == "15 minutes";
    }
  }

  /** The corrected sentence gives what the test expects for 5 days and 15 minutes. */
  lemma IntendedFiveDaysFifteenMinutes()
    ensures HumanReadableIntended(432946802) == Some("5 days and 15 minutes")
  {
    IntendedFiveDaysFifteenMinutesParts();
    SentenceOfTwo("5 days", "15 minutes");
    assert "5 days" + " and " + "15 minutes" == "5 days and 15 minutes" by {
      assert "5 days" + " and " == "5 days and ";
      assert "5 days and " + "15 minutes" == "5 days and 15 minutes";
    }
  }

  /** The parts of the duration in `IntendedThirtyDays`. */
  lemma IntendedThirtyDaysParts()
    ensures PartsIntended(30 * MS_PER_DAY + MS_PER_HOUR + MS_PER_MINUTE) == ["30 days", "1 hour", "1 minute"]
  {
    var d := 30 * MS_PER_DAY + MS_PER_HOUR + MS_PER_MINUTE;
    assert DaysIntended(d) == 30 && Hours(d) == 1 && Minutes(d) == 1 by {
      assert d / MS_PER_DAY == 30 && d / MS_PER_HOUR == 721 && d / MS_PER_MINUTE == 43261;
    }
    assert PartIntended("day", 30) == Some("30 days") by {
      SmallNumbers();
      assert IntToString(30) + " " + "day" + "s" == "30 days";
    }
    assert PartIntended("hour", 1) == Some("1 hour") by {
      SmallNumbers();
      assert IntToString(1) + " " + "hour" == "1 hour";
    }
    assert PartIntended("minute", 1) == Some("1 minute") by {
      SmallNumbers();
      assert IntToString(1) + " " + "minute" == "1 minute";
    }
  }

  /** The corrected sentence gives what the test expects for 30 days, 1 hour and 1 minute. */
  lemma IntendedThirtyDays()
    ensures HumanReadableIntended(30 * MS_PER_DAY + MS_PER_HOUR + MS_PER_MINUTE) == Some("30 days, 1 hour and 1 minute")
  {
    IntendedThirtyDaysParts();
    SentenceOfThree("30 days", "1 hour", "1 minute");
    assert "30 days" + ", " + "1 hour" + " and " + "1 minute" == "30 days, 1 hour and 1 minute" by {
      assert "30 days" + ", " == "30 days, ";
      assert "30 days, " + "1 hour" == "30 days, 1 hour";
      assert "30 days, 1 hour" + " and " == "30 days, 1 hour and ";
      assert "30 days, 1 hour and " + "1 minute" == "30 days, 1 hour and 1 minute";
    }
  }
}
