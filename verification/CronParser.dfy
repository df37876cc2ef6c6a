/** parseCronExpr, parseSingleField and parsePart: five fields of comma-separated parts,
    each a wildcard, a range or a value, with an optional step. */
module CronParser {
  import opened Arithmetic
  import opened Outcomes
  import opened Strings
  import opened CronSearch

  const WORD := 0x1_0000_0000_0000_0000

  /** b is reached from a by whole steps of k. */
  ghost predicate OnStep(a: int, b: int, k: int)
    requires k > 0
  {
    (b - a) % k == 0
  }

  /** What "every step-th value from start to end" means. */
  ghost function Stepped(start: int, end: int, step: int): set<int>
    requires step > 0
  {
    set v | start <= v <= end && OnStep(start, v, step)
  }

  /** How far below itself a value lands after wrapping around and taking one more step. */
  function WrappedStep(step: int): (k: int)
    requires step <= MAX_INT64
    ensures k > 0
  {
    2 * (MAX_INT64 - step) + 2
  }

  /** What the loop over v += step collects at or above min when v is a 64-bit integer:
      past the largest integer v turns negative, and the loop goes on below start. */
  ghost function Looped(min: int, start: int, end: int, step: int): set<int>
    requires 0 < step <= MAX_INT64
  {
    if start + step <= MAX_INT64 then Stepped(start, end, step)
    else set v | min <= v <= start && OnStep(v, start, WrappedStep(step))
  }

  function WrappingAdd(a: int, b: int): int {
    if a + b > MAX_INT64 then a + b - WORD else a + b
  }

  /** The step of "base/step"; None is the error. */
  function StepOf(text: string): (r: Option<int>)
    ensures r.Some? ==> 0 < r.value <= MAX_INT64
  {
    match Atoi(text)
    case None => None
    case Some(n) => if n <= 0 then None else Some(n)
  }

  // ----- What an expression denotes -----

  ghost function PartValues(part: string, min: int, max: int): Option<set<int>> {
    var slash := IndexOf(part, '/');
    var step := if slash == |part| then Some(1) else StepOf(part[slash + 1..]);
    var base := part[..slash];
    var dash := IndexOf(base, '-');
    if step.None? then None
    else if base == "*" then Some(Looped(min, min, max, step.value))
    else if dash < |base| then
      match (Atoi(base[..dash]), Atoi(base[dash + 1..]))
      case (Some(a), Some(b)) => if a < min || b > max || a > b then None else Some(Looped(min, a, b, step.value))
      case _ => None
    else
      match Atoi(base)
      case Some(v) => if v < min || v > max then None else Some({v})
      case None => None
  }

  ghost function PartsValues(parts: seq<string>, min: int, max: int): Option<set<int>> {
    if parts == [] then Some({})
    else
      match (PartsValues(parts[..|parts| - 1], min, max), PartValues(parts[|parts| - 1], min, max))
      case (Some(a), Some(b)) => Some(a + b)
      case _ => None
  }

  ghost function FieldValues(field: string, min: int, max: int): Option<set<int>> {
    PartsValues(Split(field, ','), min, max)
  }

  /** The five value sets of an expression; None is a syntax or range error. */
  ghost function ParseCron(expr: string): Option<CronFields> {
    var words := Fields(expr);
    if |words| != 5 then None
    else
      match (FieldValues(words[0], 0, 59), FieldValues(words[1], 0, 23), FieldValues(words[2], 1, 31),
             FieldValues(words[3], 1, 12), FieldValues(words[4], 0, 6))
      case (Some(mi), Some(h), Some(d), Some(mo), Some(w)) => Some(CronFields(mi, h, d, mo, w))
      case _ => None
  }

  // ----- The parser -----

  /** Two value maps that agree on every value a field can take. */
  ghost predicate SameFrom(min: int, a: set<int>, b: set<int>) {
    forall v :: v >= min ==> (v in a <==> v in b)
  }

  /** How far the stepping loop is: phase 0 before taking h, 1 after h with v wrapped around,
      2 after the last h. Only the wrapping case has phases 1 and 2. */
  ghost predicate Stepping(values: set<int>, out: set<int>, start: int, end: int, step: int, v: int, h: int, phase: int)
    requires 0 < step <= MAX_INT64
  {
    if start + step <= MAX_INT64 then
      && start <= v && h == v && phase == 0 && OnStep(start, v, step)
      && SameFrom(0, out, values + Stepped(start, v - 1, step))
    else
      var k := MAX_INT64 - step;
      && -1 - k <= h <= start && OnStep(h, start, WrappedStep(step))
      && (|| (phase == 0 && v == h)
          || (phase == 1 && v == h + step - WORD && h > k)
          || (phase == 2 && v == h + step && h <= k))
      && SameFrom(0, out, values
           + set u | (if phase == 0 then h + 1 else h) <= u <= start && OnStep(u, start, WrappedStep(step)))
  }

  /** The loop of parsePart that collects start, start+step, ... up to end. */
  method StepThrough(values: set<int>, start: int, end: int, step: int) returns (out: set<int>)
    requires 0 <= start <= end <= 59 && 0 < step <= MAX_INT64
    ensures SameFrom(0, out, values + Looped(0, start, end, step))
  {
    out := values;
    var v := start;
    ghost var h, phase, wraps := start, 0, start + step > MAX_INT64;
    while v <= end
      invariant Stepping(values, out, start, end, step, v, h, phase)
      invariant !wraps ==> v <= end + step
      decreases if wraps then h + 200 else end + 1 - v, 2 - phase
    {
      ghost var was := (v, out);
      out := out + {v};
      v := WrappingAdd(v, step);
      if !wraps {
        StepUp(values, was.1, start, end, step, was.0);
        h := v;
      } else if phase == 1 {
        StepDown(values, was.1, start, end, step, was.0, h);
        h, phase := v, 0;
      } else {
        phase := if h > MAX_INT64 - step then 1 else 2;
      }
    }
    SteppedThrough(values, out, start, end, step, v, h, phase);
  }

  method ParsePart(part: string, min: int, max: int, values: set<int>) returns (r: Option<set<int>>)
    requires 0 <= min <= max <= 59
    ensures r.Some? <==> PartValues(part, min, max).Some?
    ensures r.Some? ==> SameFrom(min, r.value, values + PartValues(part, min, max).value)
  {
    hide Looped, Stepped, OnStep, IndexOf, Atoi, StepOf, WORD;
    var step, base := 1, part;
    var slash := IndexOf(part, '/');
    if slash < |part| {
      match StepOf(part[slash + 1..]) {
        case None => return None;
        case Some(n) => step := n;
      }
      base := part[..slash];
    } else {
      assert part[..slash] == part;
    }
    if base == "*" {
      var out := StepThrough(values, min, max, step);
      LoopedFrom(min, min, max, step);
      return Some(out);
    }
    var dash := IndexOf(base, '-');
    if dash < |base| {
      var start, end := Atoi(base[..dash]), Atoi(base[dash + 1..]);
      if start.None? || end.None? || start.value < min || end.value > max || start.value > end.value {
        return None;
      }
      var out := StepThrough(values, start.value, end.value, step);
      LoopedFrom(min, start.value, end.value, step);
      return Some(out);
    }
    var val := Atoi(base);
    if val.None? || val.value < min || val.value > max {
      return None;
    }
    return Some(values + {val.value});
  }

  method ParseSingleField(field: string, min: int, max: int) returns (r: Option<set<int>>)
    requires 0 <= min <= max <= 59
    ensures r.Some? <==> FieldValues(field, min, max).Some?
    ensures r.Some? ==> SameFrom(min, r.value, FieldValues(field, min, max).value)
  {
    var values := {};
    var parts := Split(field, ',');
    for i := 0 to |parts|
      invariant PartsValues(parts[..i], min, max).Some?
      invariant SameFrom(min, values, PartsValues(parts[..i], min, max).value)
    {
      assert parts[..i + 1][..i] == parts[..i];
      var added := ParsePart(parts[i], min, max, values);
      if added.None? {
        BadPartBadList(parts, i + 1, min, max);
        return None;
      }
      values := added.value;
    }
    assert parts[..|parts|] == parts;
    return Some(values);
  }

  /** Two field records that agree on every value a minute can show. */
  ghost predicate SameFields(a: CronFields, b: CronFields) {
    SameFrom(0, a.minute, b.minute) && SameFrom(0, a.hour, b.hour) && SameFrom(1, a.day, b.day)
    && SameFrom(1, a.month, b.month) && SameFrom(0, a.weekday, b.weekday)
  }

  method ParseCronExpr(expr: string) returns (r: Option<CronFields>)
    ensures r.Some? <==> ParseCron(expr).Some?
    ensures r.Some? ==> SameFields(r.value, ParseCron(expr).value)
  {
    var words := Fields(expr);
    if |words| != 5 {
      return None;
    }
    var mi := ParseSingleField(words[0], 0, 59);
    var h := ParseSingleField(words[1], 0, 23);
    var d := ParseSingleField(words[2], 1, 31);
    var mo := ParseSingleField(words[3], 1, 12);
    var w := ParseSingleField(words[4], 0, 6);
    if mi.None? || h.None? || d.None? || mo.None? || w.None? {
      return None;
    }
    return Some(CronFields(mi.value, h.value, d.value, mo.value, w.value));
  }

  // ----- The stepping loop -----

  /** The step after b is b + k, the one before a is a - k, and there is none between. */
  lemma NextStep(a: int, b: int, k: int)
    requires k > 0 && OnStep(a, b, k)
    ensures OnStep(a, b + k, k) && OnStep(a - k, b, k)
    ensures forall u :: b < u < b + k ==> !OnStep(a, u, k)
    ensures forall u :: a - k < u < a ==> !OnStep(u, b, k)
  {
    var q := (b - a) / k;
    assert k * (q + 1) == k * q + k;
    QuotientIs(b + k - a, k, q + 1, 0);
    forall u | b < u < b + k ensures !OnStep(a, u, k) {
      QuotientIs(u - a, k, q, u - b);
    }
    forall u | a - k < u < a ensures !OnStep(u, b, k) {
      QuotientIs(b - u, k, q, a - u);
    }
  }

  lemma StepsReach(a: int, b: int, k: int)
    requires a < b && k > 0 && OnStep(a, b, k)
    ensures k <= b - a
  {
  }

  lemma LoopedFrom(min: int, start: int, end: int, step: int)
    requires 0 <= min <= start && 0 < step <= MAX_INT64
    ensures SameFrom(min, Looped(0, start, end, step), Looped(min, start, end, step))
  {
  }

  lemma StepUp(values: set<int>, out: set<int>, start: int, end: int, step: int, v: int)
    requires 0 <= start <= v <= end <= 59 && 0 < step && start + step <= MAX_INT64
    requires OnStep(start, v, step) && SameFrom(0, out, values + Stepped(start, v - 1, step))
    ensures v + step <= MAX_INT64
    ensures OnStep(start, v + step, step) && SameFrom(0, out + {v}, values + Stepped(start, v + step - 1, step))
  {
    if v > start {
      StepsReach(start, v, step);
    }
    NextStep(start, v, step);
    forall u | u >= 0 ensures u in out + {v} <==> u in values + Stepped(start, v + step - 1, step) {
      if v < u <= v + step - 1 {
        assert !OnStep(start, u, step);
      }
    }
  }

  lemma StepDown(values: set<int>, out: set<int>, start: int, end: int, step: int, v: int, h: int)
    requires 0 <= start <= end <= 59 && 0 < step <= MAX_INT64 < start + step
    requires Stepping(values, out, start, end, step, v, h, 1)
    ensures WrappingAdd(v, step) == h - (WrappedStep(step))
    ensures Stepping(values, out + {v}, start, end, step, WrappingAdd(v, step), WrappingAdd(v, step), 0)
  {
    var m := WrappedStep(step);
    var h' := h - m;
    NextStep(h, start, m);
    var after := set u | h' + 1 <= u <= start && OnStep(u, start, m);
    forall u | u >= 0 ensures u in out + {v} <==> u in values + after {
      if h' + 1 <= u < h {
        assert !OnStep(u, start, m);
      }
    }
  }

  lemma SteppedThrough(values: set<int>, out: set<int>, start: int, end: int, step: int, v: int, h: int, phase: int)
    requires 0 <= start <= end <= 59 && 0 < step <= MAX_INT64
    requires Stepping(values, out, start, end, step, v, h, phase) && v > end
    requires start + step <= MAX_INT64 ==> v <= end + step
    ensures SameFrom(0, out, values + Looped(0, start, end, step))
  {
    if start + step <= MAX_INT64 {
      // nothing between end and v is a multiple
      forall u | u >= 0 ensures u in Stepped(start, v - 1, step) <==> u in Stepped(start, end, step) {
        if end < u < v && OnStep(start, u, step) {
          NextStep(start, u, step);
        }
      }
    } else {
      assert phase == 2;
      var m := WrappedStep(step);
      NextStep(h, start, m);
    }
  }

  lemma {:induction false} BadPartBadList(parts: seq<string>, n: nat, min: int, max: int)
    requires n <= |parts| && PartsValues(parts[..n], min, max).None?
    ensures PartsValues(parts, min, max).None?
    decreases |parts| - n
  {
    if n == |parts| {
      assert parts[..n] == parts;
    } else {
      assert parts[..n + 1][..n] == parts[..n];
      BadPartBadList(parts, n + 1, min, max);
    }
  }
}
