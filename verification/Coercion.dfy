/** Converting record fields to the types that the mappings ask for. */
module Coercion {
  import opened Arithmetic
  import opened Outcomes
  import opened FieldRenaming

  /** The functions of Go's libraries that conversions call. `wide` is what the conversion of a
      float beyond 64 bits gives, which Go leaves open; `readBack` is the float that an integer
      written as JSON is read back as. */
  datatype Library = Library(
    lower: string -> string, formatInt: int -> string, formatFloat: real -> string, format: Value -> string,
    parseInt: string -> Option<int>, parseFloat: string -> Option<real>, parseBool: string -> Option<bool>,
    parseTime: string -> Option<string>, formatUnix: int -> string, wide: real -> int, readBack: int -> real)

  predicate IsInt64(n: int) {
    MIN_INT64 <= n <= MAX_INT64
  }

  /** Conversion of a float to int64: towards zero. */
  function ToInt64(lib: Library, x: real): int {
    var n := if x >= 0.0 then x.Floor else -(-x).Floor;
    if IsInt64(n) then n else lib.wide(x)
  }

  datatype Target = ToText | ToInteger | ToFloat | ToBool | ToTime | Unknown

  function TargetOf(lib: Library, name: string): Target {
    match lib.lower(name)
    case "string" => ToText
    case "int64" => ToInteger
    case "int" => ToInteger
    case "integer" => ToInteger
    case "float64" => ToFloat
    case "float" => ToFloat
    case "double" => ToFloat
    case "number" => ToFloat
    case "bool" => ToBool
    case "boolean" => ToBool
    case "timestamp" => ToTime
    case "datetime" => ToTime
    case _ => Unknown
  }

  function CoerceToString(lib: Library, v: Value): Value {
    match v
    case Text(_) => v
    case Number(x) =>
      var n := ToInt64(lib, x);
      Text(if x == n as real then lib.formatInt(n) else lib.formatFloat(x))
    case Flag(b) => Text(if b then "true" else "false")
    case Null => Text("")
    case _ => Text(lib.format(v))
  }

  function CoerceToInt64(lib: Library, v: Value): Option<Value> {
    match v
    case Number(x) => Some(Integer(ToInt64(lib, x)))
    case Text(s) =>
      if lib.parseInt(s).Some? then Some(Integer(lib.parseInt(s).value))
      else if lib.parseFloat(s).Some? then Some(Integer(ToInt64(lib, lib.parseFloat(s).value)))
      else None
    case Flag(b) => Some(Integer(if b then 1 else 0))
    case Null => Some(Integer(0))
    case _ => None
  }

  function CoerceToFloat64(lib: Library, v: Value): Option<Value> {
    match v
    case Number(_) => Some(v)
    case Text(s) => if lib.parseFloat(s).Some? then Some(Number(lib.parseFloat(s).value)) else None
    case Flag(b) => Some(Number(if b then 1.0 else 0.0))
    case Null => Some(Number(0.0))
    case _ => None
  }

  function CoerceToBool(lib: Library, v: Value): Option<Value> {
    match v
    case Flag(_) => Some(v)
    case Number(x) => Some(Flag(x != 0.0))
    case Text(s) => if lib.parseBool(s).Some? then Some(Flag(lib.parseBool(s).value)) else None
    case Null => Some(Flag(false))
    case _ => None
  }

  function CoerceToTimestamp(lib: Library, v: Value): Value {
    match v
    case Text(s) => if lib.parseTime(s).Some? then Text(lib.parseTime(s).value) else v
    case Number(x) => Text(lib.formatUnix(ToInt64(lib, x)))
    case Null => Text("")
    case _ => Text(lib.format(v))
  }

  function CoerceValue(lib: Library, v: Value, targetType: string): Option<Value> {
    match TargetOf(lib, targetType)
    case ToText => Some(CoerceToString(lib, v))
    case ToInteger => CoerceToInt64(lib, v)
    case ToFloat => CoerceToFloat64(lib, v)
    case ToBool => CoerceToBool(lib, v)
    case ToTime => Some(CoerceToTimestamp(lib, v))
    case Unknown => Some(v)
  }

  /** The value that the next activity reads after this one has been written. */
  function ReadBack(lib: Library, v: Value): Value {
    match v
    case Integer(n) => Number(lib.readBack(n))
    case _ => v
  }

  /** A text that reads as a time is in the form that times are written in. */
  predicate Settled(lib: Library, v: Value) {
    v.Text? ==> lib.parseTime(v.text) in {None, Some(v.text)}
  }

  /** An integer that comes back from a float. */
  predicate Survives(lib: Library, n: int) {
    ToInt64(lib, lib.readBack(n)) == n
  }

  /** Coercing a coerced value again, after it was written and read, changes nothing if and only if a
      timestamp is in the form that timestamps are written in, and an integer comes back from the
      float it is read as. */
  lemma CoercionIsIdempotent(lib: Library, v: Value, targetType: string)
    requires CoerceValue(lib, v, targetType).Some?
    ensures var w := CoerceValue(lib, v, targetType).value;
            CoerceValue(lib, ReadBack(lib, w), targetType) == Some(w) <==>
              match TargetOf(lib, targetType)
              case ToTime => Settled(lib, w)
              case _ => w.Integer? ==> TargetOf(lib, targetType) == ToInteger && Survives(lib, w.int64)
  {
    hide TargetOf, ToInt64;
  }

  const EXACT_IN_FLOATS := 0x20_0000_0000_0000

  /** Floats hold every integer up to 2^53. */
  ghost predicate FloatsAreDoubles(lib: Library) {
    forall n :: -EXACT_IN_FLOATS <= n <= EXACT_IN_FLOATS ==> lib.readBack(n) == n as real
  }

  /** Up to 2^53, coercing to an integer twice is coercing once. */
  lemma SmallIntegersSurvive(lib: Library, n: int)
    requires FloatsAreDoubles(lib) && -EXACT_IN_FLOATS <= n <= EXACT_IN_FLOATS
    ensures Survives(lib, n)
  {
    assert n >= 0 ==> (n as real).Floor == n;
    assert n < 0 ==> -(n as real) == (-n) as real;
  }

  /** The text of 2^53 + 1 becomes that integer, and 2^53 the second time. */
  lemma LargeIntegerChanges(lib: Library)
    requires TargetOf(lib, "int64") == ToInteger
    requires lib.parseInt("9007199254740993") == Some(9007199254740993)
    requires lib.readBack(9007199254740993) == 9007199254740992.0
    ensures var first := CoerceValue(lib, Text("9007199254740993"), "int64");
            && first == Some(Integer(EXACT_IN_FLOATS + 1))
            && CoerceValue(lib, ReadBack(lib, first.value), "int64") == Some(Integer(EXACT_IN_FLOATS))
  {
    hide TargetOf;
    assert 9007199254740992.0 == EXACT_IN_FLOATS as real;
    assert (EXACT_IN_FLOATS as real).Floor == EXACT_IN_FLOATS;
  }

  // ----- There and back -----

  const TEXT_NAMES := {"string"}
  const INTEGER_NAMES := {"int64", "int", "integer"}
  const FLOAT_NAMES := {"float64", "float", "double", "number"}
  const BOOL_NAMES := {"bool", "boolean"}
  const TIME_NAMES := {"timestamp", "datetime"}

  predicate Asks(lib: Library, targetType: string, names: set<string>) {
    lib.lower(targetType) in names
  }

  /** The value that one conversion and then another leave, with the value written and read in between. */
  function Twice(lib: Library, v: Value, there: string, back: string): Option<Value> {
    match CoerceValue(lib, v, there)
    case None => None
    case Some(w) => CoerceValue(lib, ReadBack(lib, w), back)
  }

  /** A number of 64 bits. */
  predicate HasWord(n: int) {
    -9223372036854775808 <= n <= 9223372036854775807
  }

  /** True is written as such, and is one; false is written as such, and is zero. */
  lemma FlagsConvert(lib: Library, b: bool, targetType: string)
    ensures Asks(lib, targetType, TEXT_NAMES) ==>
              CoerceValue(lib, Flag(b), targetType) == Some(Text(if b then "true" else "false"))
    ensures Asks(lib, targetType, INTEGER_NAMES) ==>
              CoerceValue(lib, Flag(b), targetType) == Some(Integer(if b then 1 else 0))
    ensures Asks(lib, targetType, FLOAT_NAMES) ==>
              CoerceValue(lib, Flag(b), targetType) == Some(Number(if b then 1.0 else 0.0))
    ensures Asks(lib, targetType, BOOL_NAMES) ==> CoerceValue(lib, Flag(b), targetType) == Some(Flag(b))
  {
  }

  /** A flag comes back from a text, an integer and a float. */
  lemma FlagsComeBack(lib: Library, b: bool, there: string, back: string)
    requires Asks(lib, there, TEXT_NAMES + INTEGER_NAMES + FLOAT_NAMES + BOOL_NAMES) && Asks(lib, back, BOOL_NAMES)
    requires lib.parseBool("true") == Some(true) && lib.parseBool("false") == Some(false)
    requires FloatsAreDoubles(lib)
    ensures Twice(lib, Flag(b), there, back) == Some(Flag(b))
  {
    hide ToInt64;
    assert TargetOf(lib, back) == ToBool;
    assert TargetOf(lib, there) in {ToText, ToInteger, ToFloat, ToBool};
    hide TargetOf, Asks;
  }

  /** A whole number comes back from its text, as an integer, or as the float that it is read as. */
  lemma WholeNumbersComeBack(lib: Library, n: int, there: string, back: string)
    requires Asks(lib, there, TEXT_NAMES) && HasWord(n)
    requires lib.parseInt(lib.formatInt(n)) == Some(n) && lib.parseFloat(lib.formatInt(n)) == Some(lib.readBack(n))
    ensures Asks(lib, back, INTEGER_NAMES) ==> Twice(lib, Number(n as real), there, back) == Some(Integer(n))
    ensures Asks(lib, back, FLOAT_NAMES) ==>
              Twice(lib, Number(n as real), there, back) == Some(Number(lib.readBack(n)))
  {
    Truncated(lib, n as real, n);
  }

  /** A number with a fraction comes back from its text. */
  lemma FractionsComeBack(lib: Library, x: real, there: string, back: string)
    requires Asks(lib, there, TEXT_NAMES) && Asks(lib, back, FLOAT_NAMES)
    requires x.Floor as real != x && lib.parseFloat(lib.formatFloat(x)) == Some(x)
    ensures Twice(lib, Number(x), there, back) == Some(Number(x))
  {
    hide ToInt64;
    assert x != ToInt64(lib, x) as real;
  }

  /** The integer next to a number towards zero. */
  predicate TowardsZero(x: real, n: int) {
    if x >= 0.0 then n as real <= x < (n + 1) as real else (n - 1) as real < x <= n as real
  }

  lemma Truncated(lib: Library, x: real, n: int)
    requires HasWord(n) && TowardsZero(x, n)
    ensures ToInt64(lib, x) == n
  {
    if x >= 0.0 {
      assert x.Floor == n;
    } else {
      assert (-n) as real == -(n as real) && (-n + 1) as real == -((n - 1) as real);
      assert (-x).Floor == -n;
    }
  }

  /** A number is true exactly when it is not zero, and becomes the integer next to it towards zero, if that
      has 64 bits; so does a text that reads as a float but not as an integer. */
  lemma NumbersConvert(lib: Library, x: real, n: int, targetType: string)
    requires TowardsZero(x, n)
    ensures Asks(lib, targetType, BOOL_NAMES) ==>
              CoerceValue(lib, Number(x), targetType) == Some(Flag(x < 0.0 || x > 0.0))
    ensures Asks(lib, targetType, FLOAT_NAMES) ==> CoerceValue(lib, Number(x), targetType) == Some(Number(x))
    ensures Asks(lib, targetType, INTEGER_NAMES) && HasWord(n) ==>
              && CoerceValue(lib, Number(x), targetType) == Some(Integer(n))
              && forall s :: lib.parseInt(s).None? && lib.parseFloat(s) == Some(x) ==>
                   CoerceValue(lib, Text(s), targetType) == Some(Integer(n))
  {
    hide ToInt64, TowardsZero;
    if HasWord(n) {
      Truncated(lib, x, n);
    }
  }

  /** Each target's empty value is what null becomes. */
  lemma NullIsEmpty(lib: Library, targetType: string)
    ensures Asks(lib, targetType, TEXT_NAMES + TIME_NAMES) ==> CoerceValue(lib, Null, targetType) == Some(Text(""))
    ensures Asks(lib, targetType, INTEGER_NAMES) ==> CoerceValue(lib, Null, targetType) == Some(Integer(0))
    ensures Asks(lib, targetType, FLOAT_NAMES) ==> CoerceValue(lib, Null, targetType) == Some(Number(0.0))
    ensures Asks(lib, targetType, BOOL_NAMES) ==> CoerceValue(lib, Null, targetType) == Some(Flag(false))
  {
  }

  /** A text stays a text; it is a flag or a float if it reads as one, and otherwise an error. A time is
      written anew if the text reads as one, and left alone otherwise. */
  lemma TextsConvert(lib: Library, s: string, targetType: string)
    ensures Asks(lib, targetType, TEXT_NAMES) ==> CoerceValue(lib, Text(s), targetType) == Some(Text(s))
    ensures Asks(lib, targetType, BOOL_NAMES) ==>
              (forall b :: CoerceValue(lib, Text(s), targetType) == Some(Flag(b)) <==> lib.parseBool(s) == Some(b))
              && (CoerceValue(lib, Text(s), targetType).None? <==> lib.parseBool(s).None?)
    ensures Asks(lib, targetType, FLOAT_NAMES) ==>
              (forall x :: CoerceValue(lib, Text(s), targetType) == Some(Number(x)) <==> lib.parseFloat(s) == Some(x))
              && (CoerceValue(lib, Text(s), targetType).None? <==> lib.parseFloat(s).None?)
    ensures Asks(lib, targetType, INTEGER_NAMES) ==>
              (forall n :: lib.parseInt(s) == Some(n) ==> CoerceValue(lib, Text(s), targetType) == Some(Integer(n)))
              && (CoerceValue(lib, Text(s), targetType).None? <==> lib.parseInt(s).None? && lib.parseFloat(s).None?)
    ensures Asks(lib, targetType, TIME_NAMES) ==>
              CoerceValue(lib, Text(s), targetType)
              == Some(if lib.parseTime(s).Some? then Text(lib.parseTime(s).value) else Text(s))
  {
    hide ToInt64;
  }

  /** Lists and objects are only written out, as a text or a time; no number or flag is made of them. */
  lemma OnlyWrittenOut(lib: Library, v: Value, targetType: string)
    requires v.List? || v.Object?
    ensures Asks(lib, targetType, TEXT_NAMES + TIME_NAMES) ==>
              CoerceValue(lib, v, targetType) == Some(Text(lib.format(v)))
    ensures Asks(lib, targetType, INTEGER_NAMES + FLOAT_NAMES + BOOL_NAMES) ==>
              CoerceValue(lib, v, targetType) == None
  {
  }

  /** A number is a time in seconds, cut to whole ones. */
  lemma NumbersAsTimes(lib: Library, x: real, n: int, targetType: string)
    requires Asks(lib, targetType, TIME_NAMES) && HasWord(n) && TowardsZero(x, n)
    ensures CoerceValue(lib, Number(x), targetType) == Some(Text(lib.formatUnix(n)))
  {
    hide ToInt64;
    Truncated(lib, x, n);
  }

  /** A type that is not known changes nothing. */
  lemma UnknownChangesNothing(lib: Library, v: Value, targetType: string)
    requires !Asks(lib, targetType, TEXT_NAMES + INTEGER_NAMES + FLOAT_NAMES + BOOL_NAMES + TIME_NAMES)
    ensures CoerceValue(lib, v, targetType) == Some(v)
  {
  }

  // ----- The fields of a record -----

  /** The conversions of a stream's mappings by destination field; the later mapping wins. */
  function Coercions(ms: seq<FieldMapping>): map<string, string> {
    if ms == [] then map[]
    else
      var m, before := ms[|ms| - 1], Coercions(ms[..|ms| - 1]);
      if m.coerce != "" then before[m.dest := m.coerce] else before
  }

  method BuildCoercions(ms: seq<FieldMapping>) returns (coercions: map<string, string>)
    ensures coercions == Coercions(ms)
  {
    coercions := map[];
    for i := 0 to |ms|
      invariant coercions == Coercions(ms[..i])
    {
      assert ms[..i + 1][..i] == ms[..i];
      if ms[i].coerce != "" {
        coercions := coercions[ms[i].dest := ms[i].coerce];
      }
    }
    assert ms[..|ms|] == ms;
  }

  /** A stream has conversions exactly when one of its mappings asks for one. */
  lemma {:induction false} CoercionsAskedFor(ms: seq<FieldMapping>)
    ensures Coercions(ms) == map[] <==> forall m :: m in ms ==> m.coerce == ""
  {
    if ms != [] {
      var n := |ms| - 1;
      CoercionsAskedFor(ms[..n]);
      assert ms == ms[..n] + [ms[n]];
      if ms[n].coerce != "" {
        assert ms[n].dest in Coercions(ms);
      }
    }
  }

  predicate Applies(coercions: map<string, string>, data: Fields, k: string) {
    k in coercions && k in data && data[k] != Null
  }

  function FieldAfter(lib: Library, coercions: map<string, string>, data: Fields, k: string): Value
    requires k in data
  {
    if Applies(coercions, data, k) && CoerceValue(lib, data[k], coercions[k]).Some? then
      CoerceValue(lib, data[k], coercions[k]).value
    else data[k]
  }

  predicate Fails(lib: Library, coercions: map<string, string>, data: Fields, k: string) {
    Applies(coercions, data, k) && CoerceValue(lib, data[k], coercions[k]).None?
  }

  /** The record and the failures once the given fields have been visited. */
  function CoercedAt(lib: Library, coercions: map<string, string>, data: Fields, visited: set<string>): Fields {
    map k | k in data :: if k in visited then FieldAfter(lib, coercions, data, k) else data[k]
  }

  function FailingAt(lib: Library, coercions: map<string, string>, data: Fields, visited: set<string>): set<string> {
    set k | k in visited && Fails(lib, coercions, data, k)
  }

  /** A field that cannot be converted keeps its value; null fields are left alone. */
  function Coerced(lib: Library, coercions: map<string, string>, data: Fields): Fields {
    CoercedAt(lib, coercions, data, coercions.Keys)
  }

  function Failing(lib: Library, coercions: map<string, string>, data: Fields): set<string> {
    FailingAt(lib, coercions, data, coercions.Keys)
  }

  /** A list of the elements of a set, each once. */
  ghost predicate Lists(list: seq<string>, elements: set<string>) {
    |list| == |elements| && forall x :: x in list <==> x in elements
  }

  lemma VisitField(lib: Library, coercions: map<string, string>, data: Fields, visited: set<string>, k: string)
    requires k in coercions && k !in visited
    ensures var out, out' := CoercedAt(lib, coercions, data, visited), CoercedAt(lib, coercions, data, visited + {k});
            && (k in out <==> k in data) && (k in data ==> out[k] == data[k])
            && out' == (if Applies(coercions, data, k) && CoerceValue(lib, data[k], coercions[k]).Some?
                        then out[k := CoerceValue(lib, data[k], coercions[k]).value] else out)
  {
    hide CoerceValue;
  }

  lemma ReportField(lib: Library, coercions: map<string, string>, data: Fields, visited: set<string>, k: string,
                    failed: seq<string>)
    requires k in coercions && k !in visited && Lists(failed, FailingAt(lib, coercions, data, visited))
    ensures Lists(if Fails(lib, coercions, data, k) then failed + [k] else failed,
                  FailingAt(lib, coercions, data, visited + {k}))
  {
    hide Fails, Lists;
    var bad := FailingAt(lib, coercions, data, visited);
    if Fails(lib, coercions, data, k) {
      assert FailingAt(lib, coercions, data, visited + {k}) == bad + {k};
      ListOneMore(failed, bad, k);
    } else {
      assert FailingAt(lib, coercions, data, visited + {k}) == bad;
    }
  }

  lemma ListOneMore(list: seq<string>, elements: set<string>, k: string)
    requires Lists(list, elements) && k !in elements
    ensures Lists(list + [k], elements + {k})
  {
  }

  /** The record and the list of failures after some of the fields have been visited. */
  ghost predicate Visited(lib: Library, coercions: map<string, string>, data: Fields, visited: set<string>,
                          out: Fields, failed: seq<string>)
  {
    out == CoercedAt(lib, coercions, data, visited) && Lists(failed, FailingAt(lib, coercions, data, visited))
  }

  lemma VisitNone(lib: Library, coercions: map<string, string>, data: Fields)
    ensures Visited(lib, coercions, data, {}, data, [])
  {
  }

  lemma VisitOne(lib: Library, coercions: map<string, string>, data: Fields, visited: set<string>, out: Fields,
                 failed: seq<string>, k: string)
    requires Visited(lib, coercions, data, visited, out, failed) && k in coercions && k !in visited
    ensures k !in out || out[k] == Null ==> Visited(lib, coercions, data, visited + {k}, out, failed)
    ensures k in out && out[k] != Null ==>
              match CoerceValue(lib, out[k], coercions[k])
              case None => Visited(lib, coercions, data, visited + {k}, out, failed + [k])
              case Some(v) => Visited(lib, coercions, data, visited + {k}, out[k := v], failed)
  {
    hide CoerceValue, Lists, FailingAt, CoercedAt;
    VisitField(lib, coercions, data, visited, k);
    ReportField(lib, coercions, data, visited, k, failed);
  }

  /** Whatever the order in which the fields are visited, the record comes out the same, and each
      field that cannot be converted is reported once. */
  method CoerceFields(lib: Library, coercions: map<string, string>, data: Fields)
    returns (out: Fields, failed: seq<string>)
    ensures out == Coerced(lib, coercions, data)
    ensures Lists(failed, Failing(lib, coercions, data))
  {
    hide CoerceValue, CoercedAt, FailingAt, FieldAfter, Lists, Visited;
    out, failed := data, [];
    var todo := coercions.Keys;
    ghost var visited: set<string> := {};
    VisitNone(lib, coercions, data);
    while todo != {}
      invariant todo !! visited && todo + visited == coercions.Keys
      invariant Visited(lib, coercions, data, visited, out, failed)
      decreases todo
    {
      var field :| field in todo;
      VisitOne(lib, coercions, data, visited, out, failed, field);
      if field in out && out[field] != Null {
        var coercedVal := CoerceValue(lib, out[field], coercions[field]);
        if coercedVal.None? {
          failed := failed + [field];
        } else {
          out := out[field := coercedVal.value];
        }
      }
      todo, visited := todo - {field}, visited + {field};
    }
    assert visited == coercions.Keys;
    VisitAll(lib, coercions, data, out, failed);
  }

  lemma VisitAll(lib: Library, coercions: map<string, string>, data: Fields, out: Fields, failed: seq<string>)
    requires Visited(lib, coercions, data, coercions.Keys, out, failed)
    ensures out == Coerced(lib, coercions, data) && Lists(failed, Failing(lib, coercions, data))
  {
  }

  // ----- What becomes of each field -----

  /** The place of the last mapping that asks for a conversion of the field. */
  ghost predicate LastFor(ms: seq<FieldMapping>, field: string, i: nat) {
    && i < |ms| && ms[i].dest == field && ms[i].coerce != ""
    && forall j | i < j < |ms| :: !(ms[j].dest == field && ms[j].coerce != "")
  }

  /** A field is converted to what the last mapping that asks for it says. */
  lemma {:induction false} LastMappingDecides(ms: seq<FieldMapping>, field: string)
    ensures forall i: nat :: LastFor(ms, field, i) ==> field in Coercions(ms) && Coercions(ms)[field] == ms[i].coerce
    ensures (forall i: nat :: !LastFor(ms, field, i)) ==> field !in Coercions(ms)
  {
    if ms != [] {
      var n := |ms| - 1;
      LastMappingDecides(ms[..n], field);
      if ms[n].dest == field && ms[n].coerce != "" {
        assert LastFor(ms, field, n);
      } else {
        forall i: nat ensures LastFor(ms, field, i) <==> LastFor(ms[..n], field, i) {
        }
      }
    }
  }

  /** The record keeps its fields. A field that no mapping asks to convert, that is null, or that cannot be
      converted, keeps its value; any other has the converted one. */
  lemma FieldsAfter(lib: Library, coercions: map<string, string>, data: Fields, k: string)
    ensures Coerced(lib, coercions, data).Keys == data.Keys
    ensures k in data && (k !in coercions || data[k] == Null) ==>
              Coerced(lib, coercions, data)[k] == data[k] && k !in Failing(lib, coercions, data)
    ensures k in data && k in coercions && data[k] != Null ==>
              match CoerceValue(lib, data[k], coercions[k])
              case None => Coerced(lib, coercions, data)[k] == data[k] && k in Failing(lib, coercions, data)
              case Some(v) => Coerced(lib, coercions, data)[k] == v && k !in Failing(lib, coercions, data)
    ensures k in Failing(lib, coercions, data) ==> k in data
  {
    hide CoerceValue;
  }

  /** The number 1 in a field that is mapped to a bool is true, and 0 is false. */
  lemma ActiveIsTrue(lib: Library, x: real)
    requires lib.lower("bool") == "bool" && (x == 1.0 || x == 0.0)
    ensures Coerced(lib, Coercions([FieldMapping("on", "active", "bool")]), map["active" := Number(x)])
            == map["active" := Flag(x == 1.0)]
  {
    hide Coercions;
    var ms := [FieldMapping("on", "active", "bool")];
    var data: Fields := map["active" := Number(x)];
    LastMappingDecides(ms, "active");
    assert LastFor(ms, "active", 0);
    NumbersConvert(lib, x, x.Floor, "bool");
    FieldsAfter(lib, Coercions(ms), data, "active");
  }
}
