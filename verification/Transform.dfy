/** The transform workflow: fields are renamed, then converted, then duplicates are dropped. Each
    step is an activity over the whole batch. */
module Transform {
  import opened Outcomes
  import opened Strings
  import opened FieldRenaming
  import opened Coercion

  datatype Record = Record(stream: string, namespace: string, data: string, emittedAt: int)

  /** A stream's own primary key and the one configured for the sync, as lists of field paths. */
  datatype ConfiguredStream = ConfiguredStream(name: string, streamKey: seq<seq<string>>, primaryKey: seq<seq<string>>)

  /** Reading and writing JSON objects may fail. */
  datatype Config = Config(
    read: string -> Option<Fields>, write: Fields -> Option<string>, lib: Library,
    mappings: map<string, seq<FieldMapping>>, streams: seq<ConfiguredStream>)

  datatype Stage = Mapping | Coercing

  datatype Problem =
    | Unreadable(stage: Stage, record: nat, stream: string)
    | Unwritable(stage: Stage, record: nat, stream: string)
    | BadField(record: nat, field: string)

  // ----- What a stage does to one record -----

  function MappingsOf(cfg: Config, stream: string): seq<FieldMapping> {
    if stream in cfg.mappings then cfg.mappings[stream] else []
  }

  /** Streams that the stage has nothing to do for pass through untouched. */
  predicate Passes(cfg: Config, stage: Stage, stream: string) {
    match stage
    case Mapping => MappingsOf(cfg, stream) == []
    case Coercing => Coercions(MappingsOf(cfg, stream)) == map[]
  }

  function Changed(cfg: Config, stage: Stage, stream: string, data: Fields): Fields {
    match stage
    case Mapping => Renamed(MappingsOf(cfg, stream), data)
    case Coercing => Coerced(cfg.lib, Coercions(MappingsOf(cfg, stream)), data)
  }

  /** The record after a stage, or None if its data cannot be read or written. */
  function One(cfg: Config, stage: Stage, r: Record): Option<Record> {
    if Passes(cfg, stage, r.stream) then Some(r)
    else if cfg.read(r.data).None? then None
    else
      var written := cfg.write(Changed(cfg, stage, r.stream, cfg.read(r.data).value));
      if written.None? then None else Some(r.(data := written.value))
  }

  function All(cfg: Config, stage: Stage, rs: seq<Record>): seq<Record> {
    if rs == [] then []
    else
      var last := One(cfg, stage, rs[|rs| - 1]);
      All(cfg, stage, rs[..|rs| - 1]) + if last.Some? then [last.value] else []
  }

  /** The reports about the record at a place of the batch. */
  function Problems(cfg: Config, stage: Stage, i: nat, r: Record): set<Problem> {
    if Passes(cfg, stage, r.stream) then {}
    else if cfg.read(r.data).None? then {Unreadable(stage, i, r.stream)}
    else
      var data := cfg.read(r.data).value;
      (if stage == Mapping then {}
       else set f | f in Failing(cfg.lib, Coercions(MappingsOf(cfg, r.stream)), data) :: BadField(i, f))
      + if cfg.write(Changed(cfg, stage, r.stream, data)).None? then {Unwritable(stage, i, r.stream)} else {}
  }

  function AllProblems(cfg: Config, stage: Stage, rs: seq<Record>): set<Problem> {
    if rs == [] then {}
    else AllProblems(cfg, stage, rs[..|rs| - 1]) + Problems(cfg, stage, |rs| - 1, rs[|rs| - 1])
  }

  /** The reports are those of the records, and a record that got lost was reported. */
  ghost predicate Reported(cfg: Config, stage: Stage, rs: seq<Record>, errors: seq<Problem>) {
    && (forall e :: e in errors <==> e in AllProblems(cfg, stage, rs))
    && |rs| - |All(cfg, stage, rs)| <= |errors|
  }

  lemma AllStep(cfg: Config, stage: Stage, rs: seq<Record>, i: nat)
    requires i < |rs|
    ensures All(cfg, stage, rs[..i + 1])
            == All(cfg, stage, rs[..i])
               + if One(cfg, stage, rs[i]).Some? then [One(cfg, stage, rs[i]).value] else []
    ensures AllProblems(cfg, stage, rs[..i + 1]) == AllProblems(cfg, stage, rs[..i]) + Problems(cfg, stage, i, rs[i])
  {
    assert rs[..i + 1][..i] == rs[..i];
  }

  lemma ReportStep(cfg: Config, stage: Stage, rs: seq<Record>, i: nat, errors: seq<Problem>, more: seq<Problem>)
    requires i < |rs| && Reported(cfg, stage, rs[..i], errors)
    requires forall e :: e in more <==> e in Problems(cfg, stage, i, rs[i])
    requires One(cfg, stage, rs[i]).None? ==> more != []
    ensures Reported(cfg, stage, rs[..i + 1], errors + more)
  {
    hide All, AllProblems, One, Problems;
    AllStep(cfg, stage, rs, i);
  }

  /** MapFieldsActivity. */
  method MapFields(cfg: Config, rs: seq<Record>) returns (mapped: seq<Record>, errors: seq<Problem>)
    ensures mapped == All(cfg, Mapping, rs)
    ensures Reported(cfg, Mapping, rs, errors)
  {
    hide All, Reported, Renamed;
    mapped, errors := [], [];
    NothingDone(cfg, Mapping, rs);
    for i := 0 to |rs|
      invariant mapped == All(cfg, Mapping, rs[..i])
      invariant Reported(cfg, Mapping, rs[..i], errors)
    {
      var rec := rs[i];
      AllStep(cfg, Mapping, rs, i);
      var problem: seq<Problem> := [];
      if rec.stream !in cfg.mappings || |cfg.mappings[rec.stream]| == 0 {
        mapped := mapped + [rec];
      } else {
        var srcData := cfg.read(rec.data);
        if srcData.None? {
          problem := [Unreadable(Mapping, i, rec.stream)];
        } else {
          var destData := RenameFields(cfg.mappings[rec.stream], srcData.value);
          var destBytes := cfg.write(destData);
          if destBytes.None? {
            problem := [Unwritable(Mapping, i, rec.stream)];
          } else {
            mapped := mapped + [Record(rec.stream, rec.namespace, destBytes.value, rec.emittedAt)];
          }
        }
      }
      ReportStep(cfg, Mapping, rs, i, errors, problem);
      errors := errors + problem;
    }
    assert rs[..|rs|] == rs;
  }

  lemma NothingDone(cfg: Config, stage: Stage, rs: seq<Record>)
    ensures All(cfg, stage, rs[..0]) == [] && Reported(cfg, stage, rs[..0], [])
  {
  }

  method Coerce(cfg: Config, r: Record, i: nat) returns (out: Option<Record>, problems: seq<Problem>)
    ensures out == One(cfg, Coercing, r)
    ensures forall e :: e in problems <==> e in Problems(cfg, Coercing, i, r)
    ensures out.None? ==> problems != []
  {
    hide Coerced, Failing;
    var fieldCoercions := BuildCoercions(MappingsOf(cfg, r.stream));
    if fieldCoercions == map[] {
      return Some(r), [];
    }
    var read := cfg.read(r.data);
    if read.None? {
      return None, [Unreadable(Coercing, i, r.stream)];
    }
    var data, failed := CoerceFields(cfg.lib, fieldCoercions, read.value);
    problems := seq(|failed|, j requires 0 <= j < |failed| => BadField(i, failed[j]));
    ghost var bad := set f | f in Failing(cfg.lib, fieldCoercions, read.value) :: BadField(i, f);
    forall e ensures e in problems <==> e in bad {
      if e in bad {
        var f :| f in Failing(cfg.lib, fieldCoercions, read.value) && e == BadField(i, f);
        var j :| 0 <= j < |failed| && failed[j] == f;
        assert problems[j] == e;
      }
    }
    var written := cfg.write(data);
    if written.None? {
      return None, problems + [Unwritable(Coercing, i, r.stream)];
    }
    return Some(r.(data := written.value)), problems;
  }

  /** CoerceTypesActivity. */
  method CoerceTypes(cfg: Config, rs: seq<Record>) returns (coerced: seq<Record>, errors: seq<Problem>)
    ensures coerced == All(cfg, Coercing, rs)
    ensures Reported(cfg, Coercing, rs, errors)
  {
    hide All, Reported, One, Problems;
    coerced, errors := [], [];
    NothingDone(cfg, Coercing, rs);
    for i := 0 to |rs|
      invariant coerced == All(cfg, Coercing, rs[..i])
      invariant Reported(cfg, Coercing, rs[..i], errors)
    {
      AllStep(cfg, Coercing, rs, i);
      var out, problems := Coerce(cfg, rs[i], i);
      if out.Some? {
        coerced := coerced + [out.value];
      }
      ReportStep(cfg, Coercing, rs, i, errors, problems);
      errors := errors + problems;
    }
    assert rs[..|rs|] == rs;
  }

  // ----- Duplicates -----

  function Walk(v: Value, path: seq<string>): Value
    decreases |path|
  {
    if path == [] then v
    else match v
      case Object(m) => Walk(if path[0] in m then m[path[0]] else Null, path[1..])
      case _ => Null
  }

  /** The value at a field path; null if there is none. */
  method NavigateFieldPath(data: Fields, path: seq<string>) returns (v: Value)
    ensures v == if path == [] then Null else Walk(Object(data), path)
  {
    if |path| == 0 {
      return Null;
    }
    v := Object(data);
    for i := 0 to |path|
      invariant Walk(v, path[i..]) == Walk(Object(data), path)
    {
      assert path[i..][1..] == path[i + 1..];
      if !v.Object? {
        return Null;
      }
      v := if path[i] in v.fields then v.fields[path[i]] else Null;
    }
  }

  function KeyParts(cfg: Config, m: Fields, pk: seq<seq<string>>): seq<string> {
    if pk == [] then []
    else
      var path := pk[|pk| - 1];
      KeyParts(cfg, m, pk[..|pk| - 1]) + [cfg.lib.format(if path == [] then Null else Walk(Object(m), path))]
  }

  /** The fields of a composite key are joined by bars. */
  function PrimaryKey(cfg: Config, data: string, pk: seq<seq<string>>): string {
    match cfg.read(data)
    case None => ""
    case Some(m) => Join(KeyParts(cfg, m, pk), '|')
  }

  method ExtractPrimaryKey(cfg: Config, data: string, pk: seq<seq<string>>) returns (key: string)
    ensures key == PrimaryKey(cfg, data, pk)
  {
    hide Walk;
    var record := cfg.read(data);
    if record.None? {
      return "";
    }
    var parts: seq<string> := [];
    for i := 0 to |pk|
      invariant parts == KeyParts(cfg, record.value, pk[..i])
    {
      assert pk[..i + 1][..i] == pk[..i];
      var val := NavigateFieldPath(record.value, pk[i]);
      parts := parts + [cfg.lib.format(val)];
    }
    assert pk[..|pk|] == pk;
    return Join(parts, '|');
  }

  /** The primary keys by stream name; the later configuration wins. */
  function StreamKeys(streams: seq<ConfiguredStream>): map<string, seq<seq<string>>> {
    if streams == [] then map[]
    else
      var cs, before := streams[|streams| - 1], StreamKeys(streams[..|streams| - 1]);
      var pk := if cs.primaryKey == [] then cs.streamKey else cs.primaryKey;
      if pk == [] then before else before[cs.name := pk]
  }

  /** What identifies a record: its stream and key, or nothing. */
  function KeyOf(cfg: Config, r: Record): Option<(string, string)> {
    var keys := StreamKeys(cfg.streams);
    if r.stream !in keys then None
    else
      var key := PrimaryKey(cfg, r.data, keys[r.stream]);
      if key == "" then None else Some((r.stream, key))
  }

  function Keys(cfg: Config, rs: seq<Record>): set<(string, string)> {
    set r | r in rs && KeyOf(cfg, r).Some? :: KeyOf(cfg, r).value
  }

  predicate IsNew(cfg: Config, before: seq<Record>, r: Record) {
    KeyOf(cfg, r).None? || KeyOf(cfg, r).value !in Keys(cfg, before)
  }

  /** The records that have no key or are the first with theirs. */
  function Deduped(cfg: Config, rs: seq<Record>): seq<Record> {
    if rs == [] then []
    else
      var before, last := rs[..|rs| - 1], rs[|rs| - 1];
      Deduped(cfg, before) + if IsNew(cfg, before, last) then [last] else []
  }

  lemma KeysStep(cfg: Config, rs: seq<Record>, i: nat)
    requires i < |rs|
    ensures Keys(cfg, rs[..i + 1])
            == Keys(cfg, rs[..i]) + if KeyOf(cfg, rs[i]).Some? then {KeyOf(cfg, rs[i]).value} else {}
    ensures Deduped(cfg, rs[..i + 1]) == Deduped(cfg, rs[..i]) + if IsNew(cfg, rs[..i], rs[i]) then [rs[i]] else []
  {
    hide KeyOf;
    assert rs[..i + 1][..i] == rs[..i];
    assert rs[..i + 1] == rs[..i] + [rs[i]];
  }

  ghost predicate Remembers(cfg: Config, seen: map<string, set<string>>, rs: seq<Record>) {
    forall s, k :: (s in seen && k in seen[s]) <==> (s, k) in Keys(cfg, rs)
  }

  method BuildStreamKeys(streams: seq<ConfiguredStream>) returns (keys: map<string, seq<seq<string>>>)
    ensures keys == StreamKeys(streams)
  {
    keys := map[];
    for i := 0 to |streams|
      invariant keys == StreamKeys(streams[..i])
    {
      assert streams[..i + 1][..i] == streams[..i];
      var pk := streams[i].primaryKey;
      if |pk| == 0 {
        pk := streams[i].streamKey;
      }
      if |pk| > 0 {
        keys := keys[streams[i].name := pk];
      }
    }
    assert streams[..|streams|] == streams;
  }

  /** DeduplicateActivity. */
  method Deduplicate(cfg: Config, rs: seq<Record>) returns (deduped: seq<Record>, duplicates: nat)
    ensures deduped == Deduped(cfg, rs)
    ensures |rs| == |deduped| + duplicates
  {
    hide Deduped, Keys, PrimaryKey, StreamKeys;
    var streamPKs := BuildStreamKeys(cfg.streams);
    var seen: map<string, set<string>> := map[];
    deduped, duplicates := [], 0;
    NothingSeen(cfg, rs);
    for i := 0 to |rs|
      invariant deduped == Deduped(cfg, rs[..i]) && Remembers(cfg, seen, rs[..i])
      invariant i == |deduped| + duplicates
    {
      var rec := rs[i];
      KeysStep(cfg, rs, i);
      if rec.stream !in streamPKs {
        deduped := deduped + [rec];
        continue;
      }
      var key := ExtractPrimaryKey(cfg, rec.data, streamPKs[rec.stream]);
      if key == "" {
        deduped := deduped + [rec];
        continue;
      }
      assert KeyOf(cfg, rec) == Some((rec.stream, key));
      if rec.stream !in seen {
        seen := seen[rec.stream := {}];
      }
      if key in seen[rec.stream] {
        duplicates := duplicates + 1;
        continue;
      }
      seen := seen[rec.stream := seen[rec.stream] + {key}];
      deduped := deduped + [rec];
    }
    assert rs[..|rs|] == rs;
  }

  lemma NothingSeen(cfg: Config, rs: seq<Record>)
    ensures Deduped(cfg, rs[..0]) == [] && Keys(cfg, rs[..0]) == {}
  {
  }

  // ----- What deduplication keeps -----

  /** The records with a given key, or without one. */
  function WithKey(cfg: Config, rs: seq<Record>, key: Option<(string, string)>): seq<Record> {
    if rs == [] then []
    else WithKey(cfg, rs[..|rs| - 1], key) + if KeyOf(cfg, rs[|rs| - 1]) == key then [rs[|rs| - 1]] else []
  }

  lemma WithKeyStep(cfg: Config, rs: seq<Record>, r: Record, key: Option<(string, string)>)
    ensures WithKey(cfg, rs + [r], key) == WithKey(cfg, rs, key) + if KeyOf(cfg, r) == key then [r] else []
  {
    assert (rs + [r])[..|rs|] == rs;
  }

  lemma {:induction false} KeyedOrNot(cfg: Config, rs: seq<Record>, key: (string, string))
    ensures WithKey(cfg, rs, Some(key)) == [] <==> key !in Keys(cfg, rs)
  {
    hide KeyOf;
    if rs != [] {
      var n := |rs| - 1;
      KeyedOrNot(cfg, rs[..n], key);
      assert rs == rs[..n] + [rs[n]];
    }
  }

  /** Of each key exactly its first record is kept; of the records without a key, all, in order. */
  lemma {:induction false} DedupKeepsFirst(cfg: Config, rs: seq<Record>, key: Option<(string, string)>)
    ensures WithKey(cfg, Deduped(cfg, rs), key)
            == if key.None? || WithKey(cfg, rs, key) == [] then WithKey(cfg, rs, key) else [WithKey(cfg, rs, key)[0]]
  {
    hide KeyOf, Keys;
    if rs != [] {
      var before, last := rs[..|rs| - 1], rs[|rs| - 1];
      DedupKeepsFirst(cfg, before, key);
      assert rs == before + [last];
      WithKeyStep(cfg, before, last, key);
      if IsNew(cfg, before, last) {
        assert Deduped(cfg, rs) == Deduped(cfg, before) + [last];
        WithKeyStep(cfg, Deduped(cfg, before), last, key);
      } else {
        assert Deduped(cfg, rs) == Deduped(cfg, before);
      }
      if KeyOf(cfg, last).Some? {
        KeyedOrNot(cfg, before, KeyOf(cfg, last).value);
      }
    }
  }

  lemma {:induction false} SameKeys(cfg: Config, rs: seq<Record>)
    ensures Keys(cfg, Deduped(cfg, rs)) == Keys(cfg, rs)
  {
    hide KeyOf;
    if rs != [] {
      var n := |rs| - 1;
      SameKeys(cfg, rs[..n]);
      KeysStep(cfg, rs, n);
      assert rs[..n + 1] == rs;
      if IsNew(cfg, rs[..n], rs[n]) {
        var d := Deduped(cfg, rs[..n]) + [rs[n]];
        KeysStep(cfg, d, |d| - 1);
        assert d[..|d| - 1 + 1] == d && d[..|d| - 1] == Deduped(cfg, rs[..n]);
      }
    }
  }

  /** Deduplicating twice is the same as once. */
  lemma {:induction false} DedupIsIdempotent(cfg: Config, rs: seq<Record>)
    ensures Deduped(cfg, Deduped(cfg, rs)) == Deduped(cfg, rs)
  {
    hide KeyOf, Keys;
    if rs != [] {
      var before, last := rs[..|rs| - 1], rs[|rs| - 1];
      DedupIsIdempotent(cfg, before);
      SameKeys(cfg, before);
      if IsNew(cfg, before, last) {
        var d := Deduped(cfg, before) + [last];
        assert Deduped(cfg, rs) == d && d[..|d| - 1] == Deduped(cfg, before) && d[|d| - 1] == last;
        assert IsNew(cfg, Deduped(cfg, before), last);
      } else {
        assert Deduped(cfg, rs) == Deduped(cfg, before);
      }
    }
  }

  // ----- The workflow -----

  datatype TransformResult = TransformResult(records: seq<Record>, recordsCount: int, dropped: int,
                                             errors: seq<Problem>)

  /** The activity that fails for good, if one does. */
  datatype Fault = NoFault | MapFault | CoerceFault | DedupFault

  predicate AsksForCoercion(cfg: Config) {
    exists s :: s in cfg.mappings && exists m :: m in cfg.mappings[s] && m.coerce != ""
  }

  function Mapped(cfg: Config, rs: seq<Record>): seq<Record> {
    All(cfg, Mapping, rs)
  }

  function MappedAndCoerced(cfg: Config, rs: seq<Record>): seq<Record> {
    All(cfg, Coercing, Mapped(cfg, rs))
  }

  lemma {:induction false} NothingToDo(cfg: Config, stage: Stage, rs: seq<Record>)
    requires forall r :: r in rs ==> Passes(cfg, stage, r.stream)
    ensures All(cfg, stage, rs) == rs && AllProblems(cfg, stage, rs) == {}
  {
    hide Passes;
    if rs != [] {
      NothingToDo(cfg, stage, rs[..|rs| - 1]);
    }
  }

  lemma NoCoercion(cfg: Config, rs: seq<Record>)
    requires !AsksForCoercion(cfg)
    ensures All(cfg, Coercing, rs) == rs && AllProblems(cfg, Coercing, rs) == {}
  {
    forall r | r in rs ensures Passes(cfg, Coercing, r.stream) {
      CoercionsAskedFor(MappingsOf(cfg, r.stream));
    }
    NothingToDo(cfg, Coercing, rs);
  }

  method HasCoercions(cfg: Config) returns (has: bool)
    ensures has <==> AsksForCoercion(cfg)
  {
    var todo := cfg.mappings.Keys;
    while todo != {}
      invariant todo <= cfg.mappings.Keys
      invariant forall s :: s in cfg.mappings.Keys - todo ==> forall m :: m in cfg.mappings[s] ==> m.coerce == ""
      decreases todo
    {
      var s :| s in todo;
      for i := 0 to |cfg.mappings[s]|
        invariant forall m :: m in cfg.mappings[s][..i] ==> m.coerce == ""
      {
        if cfg.mappings[s][i].coerce != "" {
          return true;
        }
      }
      assert cfg.mappings[s][..|cfg.mappings[s]|] == cfg.mappings[s];
      todo := todo - {s};
    }
    return false;
  }

  /** The whole workflow. Every input record is in the output, was dropped as a duplicate, or is
      accounted for by an error; None is the failure of an activity. */
  method TransformWorkflow(cfg: Config, records: seq<Record>, fault: Fault) returns (result: Option<TransformResult>)
    ensures result.None? <==>
              || (fault == MapFault && cfg.mappings != map[])
              || (fault == CoerceFault && AsksForCoercion(cfg))
              || fault == DedupFault
    ensures result.Some? ==>
              && result.value.records == Deduped(cfg, MappedAndCoerced(cfg, records))
              && result.value.recordsCount == |result.value.records|
              && result.value.dropped == |MappedAndCoerced(cfg, records)| - |result.value.records|
              && (forall e :: e in result.value.errors <==>
                    e in AllProblems(cfg, Mapping, records) + AllProblems(cfg, Coercing, Mapped(cfg, records)))
              && |records| - result.value.recordsCount - result.value.dropped <= |result.value.errors|
  {
    hide All, AllProblems, Deduped, AsksForCoercion;
    var currentRecords, allErrors := records, [];
    if cfg.mappings != map[] {
      if fault == MapFault {
        return None;
      }
      currentRecords, allErrors := MapFields(cfg, currentRecords);
    } else {
      NothingToDo(cfg, Mapping, records);
    }
    var hasCoercions := HasCoercions(cfg);
    if hasCoercions {
      if fault == CoerceFault {
        return None;
      }
      var errors: seq<Problem>;
      currentRecords, errors := CoerceTypes(cfg, currentRecords);
      allErrors := allErrors + errors;
    } else {
      NoCoercion(cfg, currentRecords);
    }
    if fault == DedupFault {
      return None;
    }
    var deduped, dropped := Deduplicate(cfg, currentRecords);
    return Some(TransformResult(deduped, |deduped|, dropped, allErrors));
  }

  // ----- Order -----

  ghost predicate Increasing(places: seq<nat>, n: nat) {
    && (forall i, j | 0 <= i < j < |places| :: places[i] < places[j])
    && (forall i | 0 <= i < |places| :: places[i] < n)
  }

  /** Where the records that come out of a stage came from: in order, and all that the stage can handle. */
  lemma {:induction false} StageOrigins(cfg: Config, stage: Stage, rs: seq<Record>) returns (from: seq<nat>)
    ensures |from| == |All(cfg, stage, rs)| && Increasing(from, |rs|)
    ensures forall j | 0 <= j < |from| :: One(cfg, stage, rs[from[j]]) == Some(All(cfg, stage, rs)[j])
    ensures forall i | 0 <= i < |rs| && One(cfg, stage, rs[i]).Some? :: i in from
  {
    hide One;
    if rs == [] {
      from := [];
    } else {
      var n := |rs| - 1;
      var before := StageOrigins(cfg, stage, rs[..n]);
      from := before + if One(cfg, stage, rs[n]).Some? then [n] else [];
    }
  }

  lemma {:induction false} DedupOrigins(cfg: Config, rs: seq<Record>) returns (from: seq<nat>)
    ensures |from| == |Deduped(cfg, rs)| && Increasing(from, |rs|)
    ensures forall j | 0 <= j < |from| :: rs[from[j]] == Deduped(cfg, rs)[j]
  {
    hide IsNew;
    if rs == [] {
      from := [];
    } else {
      var n := |rs| - 1;
      var before := DedupOrigins(cfg, rs[..n]);
      from := before + if IsNew(cfg, rs[..n], rs[n]) then [n] else [];
    }
  }

  lemma Compose(outer: seq<nat>, inner: seq<nat>, n: nat) returns (both: seq<nat>)
    requires Increasing(inner, n) && Increasing(outer, |inner|)
    ensures |both| == |outer| && Increasing(both, n)
    ensures forall j | 0 <= j < |outer| :: both[j] == inner[outer[j]]
  {
    both := seq(|outer|, j requires 0 <= j < |outer| => inner[outer[j]]);
    forall i, j | 0 <= i < j < |both| ensures both[i] < both[j] {
      assert outer[i] < outer[j];
    }
  }

  /** The output is an order-preserving image of a subsequence of the input: each record that comes
      out is an input record renamed and then converted, in the input's order. */
  lemma TransformKeepsOrder(cfg: Config, records: seq<Record>) returns (from: seq<nat>)
    ensures var out := Deduped(cfg, MappedAndCoerced(cfg, records));
            && |from| == |out| && Increasing(from, |records|)
            && forall j | 0 <= j < |out| ::
                 var mapped := One(cfg, Mapping, records[from[j]]);
                 mapped.Some? && One(cfg, Coercing, mapped.value) == Some(out[j])
  {
    hide One, All, Deduped;
    var mapped := StageOrigins(cfg, Mapping, records);
    var coerced := StageOrigins(cfg, Coercing, Mapped(cfg, records));
    var deduped := DedupOrigins(cfg, MappedAndCoerced(cfg, records));
    var half := Compose(deduped, coerced, |mapped|);
    from := Compose(half, mapped, |records|);
  }

  /** No stage changes what a record is apart from its data. */
  lemma OnlyDataChanges(cfg: Config, stage: Stage, r: Record)
    requires One(cfg, stage, r).Some?
    ensures One(cfg, stage, r).value == r.(data := One(cfg, stage, r).value.data)
  {
  }

  // ----- What a stage does to a record's data -----

  /** What is written is read back as it was. */
  ghost predicate ReadsBack(cfg: Config) {
    forall d :: cfg.write(d).Some? ==> cfg.read(cfg.write(d).value) == Some(d)
  }

  /** A record that comes out of a stage has its own fields, renamed by the mappings of its stream, or
      converted as they ask; a stream without mappings, or one whose mappings ask for no conversion, is left
      alone. */
  lemma StageData(cfg: Config, r: Record)
    requires ReadsBack(cfg)
    ensures r.stream !in cfg.mappings ==> One(cfg, Mapping, r) == Some(r) && One(cfg, Coercing, r) == Some(r)
    ensures r.stream in cfg.mappings && cfg.mappings[r.stream] != [] && cfg.read(r.data).Some?
              && One(cfg, Mapping, r).Some? ==>
              cfg.read(One(cfg, Mapping, r).value.data) == Some(Renamed(cfg.mappings[r.stream], cfg.read(r.data).value))
    ensures r.stream in cfg.mappings && cfg.read(r.data).Some? && One(cfg, Coercing, r).Some? ==>
              var converted := Coerced(cfg.lib, Coercions(cfg.mappings[r.stream]), cfg.read(r.data).value);
              cfg.read(One(cfg, Coercing, r).value.data) == Some(converted)
  {
    hide Renamed, Failing, Coerced;
    if r.stream in cfg.mappings && Coercions(cfg.mappings[r.stream]) == map[] && cfg.read(r.data).Some? {
      NothingCoerced(cfg.lib, cfg.read(r.data).value);
    }
  }

  lemma NothingCoerced(lib: Library, data: Fields)
    ensures Coerced(lib, map[], data) == data
  {
  }

  /** A report that the record at this place of the batch was lost. */
  ghost predicate ReportsLoss(e: Problem, i: nat) {
    !e.BadField? && e.record == i
  }

  /** A record does not come out of a stage if and only if its loss is reported, by its place in the batch,
      and a field is reported if and only if it is one that cannot be converted. */
  lemma {:induction false} LossIsReported(cfg: Config, stage: Stage, rs: seq<Record>, i: nat)
    requires i < |rs|
    ensures One(cfg, stage, rs[i]).None? <==> exists e :: e in AllProblems(cfg, stage, rs) && ReportsLoss(e, i)
    ensures forall f :: BadField(i, f) in AllProblems(cfg, stage, rs) <==>
              && stage == Coercing && cfg.read(rs[i].data).Some?
              && f in Failing(cfg.lib, Coercions(MappingsOf(cfg, rs[i].stream)), cfg.read(rs[i].data).value)
  {
    hide One, Problems;
    var n := |rs| - 1;
    ProblemsOf(cfg, stage, n, rs[n]);
    if i < n {
      LossIsReported(cfg, stage, rs[..n], i);
    } else {
      OnlyEarlier(cfg, stage, rs[..n]);
    }
  }

  lemma ProblemsOf(cfg: Config, stage: Stage, i: nat, r: Record)
    ensures forall e :: e in Problems(cfg, stage, i, r) ==> e.record == i
    ensures One(cfg, stage, r).None? <==> exists e :: e in Problems(cfg, stage, i, r) && ReportsLoss(e, i)
    ensures forall f :: BadField(i, f) in Problems(cfg, stage, i, r) <==>
              && stage == Coercing && cfg.read(r.data).Some?
              && f in Failing(cfg.lib, Coercions(MappingsOf(cfg, r.stream)), cfg.read(r.data).value)
  {
    hide Renamed, Coerced, CoerceValue;
    if One(cfg, stage, r).None? {
      var e := if cfg.read(r.data).None? then Unreadable(stage, i, r.stream) else Unwritable(stage, i, r.stream);
      assert e in Problems(cfg, stage, i, r) && ReportsLoss(e, i);
    }
  }

  lemma {:induction false} OnlyEarlier(cfg: Config, stage: Stage, rs: seq<Record>)
    ensures forall e :: e in AllProblems(cfg, stage, rs) ==> e.record < |rs|
  {
    hide One, Problems;
    if rs != [] {
      ProblemsOf(cfg, stage, |rs| - 1, rs[|rs| - 1]);
      OnlyEarlier(cfg, stage, rs[..|rs| - 1]);
    }
  }

  // ----- Which key a stream has -----

  /** The place of the last configuration of the stream that has a key, its own or the sync's. */
  ghost predicate LastKeyed(streams: seq<ConfiguredStream>, name: string, i: nat) {
    && i < |streams| && streams[i].name == name && !(streams[i].primaryKey == [] && streams[i].streamKey == [])
    && forall j | i < j < |streams| ::
         !(streams[j].name == name && !(streams[j].primaryKey == [] && streams[j].streamKey == []))
  }

  /** The key configured for the sync comes before the stream's own, and the last configuration that has
      one decides. */
  lemma {:induction false} KeyOfStream(streams: seq<ConfiguredStream>, name: string)
    ensures forall i: nat :: LastKeyed(streams, name, i) ==>
              && name in StreamKeys(streams)
              && (streams[i].primaryKey != [] ==> StreamKeys(streams)[name] == streams[i].primaryKey)
              && (streams[i].primaryKey == [] ==> StreamKeys(streams)[name] == streams[i].streamKey)
    ensures (forall i: nat :: !LastKeyed(streams, name, i)) ==> name !in StreamKeys(streams)
  {
    if streams != [] {
      var n := |streams| - 1;
      KeyOfStream(streams[..n], name);
      if streams[n].name == name && !(streams[n].primaryKey == [] && streams[n].streamKey == []) {
        assert LastKeyed(streams, name, n);
      } else {
        forall i: nat ensures LastKeyed(streams, name, i) <==> LastKeyed(streams[..n], name, i) {
        }
      }
    }
  }
}
