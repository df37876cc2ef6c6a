/** The language of cron expressions: what every parsed expression is sure to hold, and
    printing an expression tree and parsing it back. */
module CronLanguage {
  import opened Arithmetic
  import opened Outcomes
  import opened Strings
  import opened Calendar
  import opened CronSearch
  import opened CronParser

  // ----- What a parsed expression holds -----

  ghost predicate HoldsSome(min: int, max: int, values: set<int>) {
    (exists v :: v in values) && forall v :: v in values ==> min <= v <= max
  }

  lemma LoopedHoldsStart(min: int, start: int, end: int, step: int)
    requires min <= start <= end && 0 < step <= MAX_INT64
    ensures start in Looped(min, start, end, step)
    ensures forall v :: v in Looped(min, start, end, step) ==> min <= v <= end
  {
  }

  lemma PartHoldsSome(part: string, min: int, max: int)
    requires min <= max && PartValues(part, min, max).Some?
    ensures HoldsSome(min, max, PartValues(part, min, max).value)
  {
    hide Looped;
    var slash := IndexOf(part, '/');
    var step := if slash == |part| then Some(1) else StepOf(part[slash + 1..]);
    var base := part[..slash];
    var dash := IndexOf(base, '-');
    if base == "*" {
      LoopedHoldsStart(min, min, max, step.value);
    } else if dash < |base| {
      LoopedHoldsStart(min, Atoi(base[..dash]).value, Atoi(base[dash + 1..]).value, step.value);
    }
  }

  lemma {:induction false} PartsHoldSome(parts: seq<string>, min: int, max: int)
    requires min <= max && parts != [] && PartsValues(parts, min, max).Some?
    ensures HoldsSome(min, max, PartsValues(parts, min, max).value)
  {
    var n := |parts| - 1;
    PartHoldsSome(parts[n], min, max);
    if n > 0 {
      PartsHoldSome(parts[..n], min, max);
    }
  }

  /** Every field of an expression that parses is non-empty and in range, so some minute
      of a day always fits its hour and minute fields. */
  lemma ParsedFieldsHoldSome(expr: string)
    requires ParseCron(expr).Some?
    ensures var f := ParseCron(expr).value;
            HoldsSome(0, 59, f.minute) && HoldsSome(0, 23, f.hour) && HoldsSome(1, 31, f.day)
            && HoldsSome(1, 12, f.month) && HoldsSome(0, 6, f.weekday) && Live(f)
  {
    var words := Fields(expr);
    var f := ParseCron(expr).value;
    PartsHoldSome(Split(words[0], ','), 0, 59);
    PartsHoldSome(Split(words[1], ','), 0, 23);
    PartsHoldSome(Split(words[2], ','), 1, 31);
    PartsHoldSome(Split(words[3], ','), 1, 12);
    PartsHoldSome(Split(words[4], ','), 0, 6);
    FieldsLive(f, f);
  }

  lemma FieldsLive(f: CronFields, g: CronFields)
    requires HoldsSome(0, 59, f.minute) && HoldsSome(0, 23, f.hour) && SameFields(f, g)
    ensures Live(g)
  {
    var h :| h in f.hour;
    var m :| m in f.minute;
    var u := 60 * h + m;
    assert u / 60 == h && u % 60 == m;
    assert MatchesClock(g, u);
  }

  /** The values a parsed map may hold below its field's range are never looked up. */
  lemma SameFieldsMatchAlike(f: CronFields, g: CronFields, t: int)
    requires SameFields(f, g)
    ensures Matches(f, t) == Matches(g, t)
  {
    DayNumberOfDate(t / MINUTES_PER_DAY);
    hide YearOf, MonthOf, DayOfMonth;
  }

  // ----- Steps -----

  /** The loop collects every step-th value, and only those, unless the step is so large that
      the 64-bit counter wraps around to a smaller value still inside the field. */
  lemma SteppedUnlessWrapped(min: int, start: int, end: int, step: int)
    requires 0 <= min <= start <= end <= 59 && 0 < step <= MAX_INT64
    ensures Looped(min, start, end, step) == Stepped(start, end, step) <==> start - min < WrappedStep(step)
  {
    if start + step > MAX_INT64 {
      var k := WrappedStep(step);
      assert OnStep(start, start, k) by { QuotientIs(0, k, 0, 0); }
      NextStep(start, start, k);
      assert OnStep(start, start, step) by { QuotientIs(0, step, 0, 0); }
      NextStep(start, start, step);
      assert start in Stepped(start, end, step);
      assert OnStep(start - k, start, k);
      assert Stepped(start, end, step) == {start};
      if start - min >= k {
        assert start - k in Looped(min, start, end, step);
      } else {
        assert Looped(min, start, end, step) == {start};
      }
    }
  }

  // ----- Expression trees -----

  datatype Base = Every | At(value: nat) | Between(first: nat, last: nat)
  datatype Part = Part(base: Base, step: Option<nat>)

  predicate ValidPart(p: Part, min: nat, max: nat) {
    && (p.step.Some? ==> 0 < p.step.value <= MAX_INT64)
    && (p.base.At? ==> min <= p.base.value <= max)
    && (p.base.Between? ==>
        && min <= p.base.first <= p.base.last <= max
        && (p.step.Some? ==> p.base.first - min < WrappedStep(p.step.value)))
  }

  /** A step on a single value is read and ignored. */
  ghost function Meaning(p: Part, min: nat, max: nat): set<int>
    requires ValidPart(p, min, max)
  {
    var step := if p.step.Some? then p.step.value else 1;
    match p.base
    case Every => Stepped(min, max, step)
    case At(v) => {v}
    case Between(a, b) => Stepped(a, b, step)
  }

  ghost function MeaningOf(parts: seq<Part>, min: nat, max: nat): set<int>
    requires forall i :: 0 <= i < |parts| ==> ValidPart(parts[i], min, max)
  {
    set v, i | 0 <= i < |parts| && v in Meaning(parts[i], min, max) :: v
  }

  function PrintBase(b: Base): string {
    match b
    case Every => "*"
    case At(v) => Decimal(v)
    case Between(first, last) => Decimal(first) + "-" + Decimal(last)
  }

  function PrintPart(p: Part): string {
    match p.step
    case None => PrintBase(p.base)
    case Some(n) => PrintBase(p.base) + "/" + Decimal(n)
  }

  function PrintParts(parts: seq<Part>): seq<string> {
    seq(|parts|, i requires 0 <= i < |parts| => PrintPart(parts[i]))
  }

  function PrintField(parts: seq<Part>): string {
    Join(PrintParts(parts), ',')
  }

  /** The characters a printed part is made of. */
  predicate PartChar(c: char) {
    IsAsciiDigit(c) || c == '*' || c == '-' || c == '/'
  }

  lemma PrintedPart(p: Part)
    ensures PrintPart(p) != "" && forall k :: 0 <= k < |PrintPart(p)| ==> PartChar(PrintPart(p)[k])
    ensures forall k :: 0 <= k < |PrintBase(p.base)| ==> PrintBase(p.base)[k] != '/'
  {
  }

  lemma CutAt(s: string, t: string, c: char)
    requires forall k :: 0 <= k < |s| ==> s[k] != c
    ensures var u := s + [c] + t; IndexOf(u, c) == |s| && u[..|s|] == s && u[|s| + 1..] == t
    ensures IndexOf(s, c) == |s| && s[..|s|] == s
  {
    var u := s + [c] + t;
    assert u[..|s|] == s;
    IndexOfIs(u, c, |s|);
    IndexOfIs(s, c, |s|);
  }

  lemma PartRoundTrip(p: Part, min: nat, max: nat)
    requires min <= max <= 59 && ValidPart(p, min, max)
    ensures PartValues(PrintPart(p), min, max) == Some(Meaning(p, min, max))
  {
    hide Looped, Stepped, Atoi;
    var s, base := PrintPart(p), PrintBase(p.base);
    var step := if p.step.Some? then p.step.value else 1;
    PrintedPart(p);
    if p.step.Some? {
      CutAt(base, Decimal(step), '/');
      assert s == base + ['/'] + Decimal(step);
      AtoiDecimal(step);
    } else {
      CutAt(base, "", '/');
    }
    assert s[..IndexOf(s, '/')] == base;
    match p.base {
      case Every =>
        SteppedUnlessWrapped(min, min, max, step);
      case At(v) =>
        CutAt(base, "", '-');
        AtoiDecimal(v);
        assert base != "*" by { assert IsAsciiDigit(base[0]); }
      case Between(a, b) =>
        CutAt(Decimal(a), Decimal(b), '-');
        assert base == Decimal(a) + ['-'] + Decimal(b);
        AtoiDecimal(a);
        AtoiDecimal(b);
        assert base != "*" by { assert base[0] == Decimal(a)[0]; }
        SteppedUnlessWrapped(min, a, b, step);
    }
  }

  lemma {:induction false} PartsRoundTrip(parts: seq<Part>, min: nat, max: nat)
    requires min <= max <= 59 && forall i :: 0 <= i < |parts| ==> ValidPart(parts[i], min, max)
    ensures PartsValues(PrintParts(parts), min, max) == Some(MeaningOf(parts, min, max))
  {
    hide Meaning, PrintPart, PartValues;
    if parts == [] {
      assert MeaningOf(parts, min, max) == {};
    } else {
      var n := |parts| - 1;
      PartsRoundTrip(parts[..n], min, max);
      PartRoundTrip(parts[n], min, max);
      assert PrintParts(parts)[..n] == PrintParts(parts[..n]);
      MeaningOfLast(parts, min, max);
    }
  }

  lemma MeaningOfLast(parts: seq<Part>, min: nat, max: nat)
    requires parts != [] && forall i :: 0 <= i < |parts| ==> ValidPart(parts[i], min, max)
    ensures var n := |parts| - 1;
            MeaningOf(parts, min, max) == MeaningOf(parts[..n], min, max) + Meaning(parts[n], min, max)
  {
    hide ValidPart, Meaning;
    var n := |parts| - 1;
    var all, most := MeaningOf(parts, min, max), MeaningOf(parts[..n], min, max);
    forall v | v in all ensures v in most + Meaning(parts[n], min, max) {
      var i :| 0 <= i < |parts| && v in Meaning(parts[i], min, max);
      if i < n { assert parts[..n][i] == parts[i]; }
    }
    forall v | v in most ensures v in all {
      var i :| 0 <= i < n && v in Meaning(parts[..n][i], min, max);
      assert parts[..n][i] == parts[i];
    }
    forall v | v in Meaning(parts[n], min, max) ensures v in all {
    }
    assert all == most + Meaning(parts[n], min, max);
  }

  /** A printed field parses to the union of what its parts mean, and is one word. */
  lemma FieldRoundTrip(parts: seq<Part>, min: nat, max: nat)
    requires min <= max <= 59 && parts != []
    requires forall i :: 0 <= i < |parts| ==> ValidPart(parts[i], min, max)
    ensures FieldValues(PrintField(parts), min, max) == Some(MeaningOf(parts, min, max))
    ensures IsWord(PrintField(parts))
  {
    var printed := PrintParts(parts);
    forall i | 0 <= i < |printed| ensures ',' !in printed[i] {
      PrintedPart(parts[i]);
    }
    SplitJoin(printed, ',');
    PartsRoundTrip(parts, min, max);
    JoinIsWord(parts);
  }

  lemma {:induction false} JoinIsWord(parts: seq<Part>)
    requires parts != []
    ensures IsWord(Join(PrintParts(parts), ','))
  {
    PrintedPart(parts[0]);
    if |parts| > 1 {
      JoinIsWord(parts[1..]);
      assert PrintParts(parts)[1..] == PrintParts(parts[1..]);
    }
  }

  /** Printing five lists of parts and parsing the text gives back what the lists mean. */
  lemma CronRoundTrip(minute: seq<Part>, hour: seq<Part>, day: seq<Part>, month: seq<Part>, weekday: seq<Part>)
    requires minute != [] && hour != [] && day != [] && month != [] && weekday != []
    requires forall i :: 0 <= i < |minute| ==> ValidPart(minute[i], 0, 59)
    requires forall i :: 0 <= i < |hour| ==> ValidPart(hour[i], 0, 23)
    requires forall i :: 0 <= i < |day| ==> ValidPart(day[i], 1, 31)
    requires forall i :: 0 <= i < |month| ==> ValidPart(month[i], 1, 12)
    requires forall i :: 0 <= i < |weekday| ==> ValidPart(weekday[i], 0, 6)
    ensures var words := [PrintField(minute), PrintField(hour), PrintField(day), PrintField(month),
                          PrintField(weekday)];
            ParseCron(Join(words, ' ')) == Some(CronFields(MeaningOf(minute, 0, 59), MeaningOf(hour, 0, 23),
                                                            MeaningOf(day, 1, 31), MeaningOf(month, 1, 12),
                                                            MeaningOf(weekday, 0, 6)))
  {
    hide FieldValues, MeaningOf, PrintField, ValidPart;
    FieldRoundTrip(minute, 0, 59);
    FieldRoundTrip(hour, 0, 23);
    FieldRoundTrip(day, 1, 31);
    FieldRoundTrip(month, 1, 12);
    FieldRoundTrip(weekday, 0, 6);
    FieldsJoin([PrintField(minute), PrintField(hour), PrintField(day), PrintField(month), PrintField(weekday)]);
  }

  /** The range "59-59" with the largest step that parses means {59}, but the parser also
      collects 57, 55, ... down to 1. */
  lemma HugeStepWrapsAround()
    ensures var text := "59-59/" + Decimal(MAX_INT64);
            PartValues(text, 0, 59).Some? && 57 in PartValues(text, 0, 59).value
    ensures Stepped(59, 59, MAX_INT64) == {59}
  {
    hide Atoi;
    var base, step := Decimal(59), MAX_INT64;
    var text := "59-59/" + Decimal(step);
    assert Decimal(5) == "5" && Decimal(59) == "59";
    AtoiDecimal(59);
    AtoiDecimal(step);
    CutAt("59", "59", '-');
    CutAt("59-59", Decimal(step), '/');
    assert "59" + ['-'] + "59" == "59-59";
    assert "59-59" + ['/'] + Decimal(step) == text;
    assert OnStep(57, 59, WrappedStep(step));
    assert Stepped(59, 59, step) == {59} by { assert OnStep(59, 59, step); }
  }
}
