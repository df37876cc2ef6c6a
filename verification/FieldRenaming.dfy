/** Renaming the fields of one record: the mapped fields move, the others stay where they are
    unless a mapped field has taken their place. */
module FieldRenaming {

  /** A decoded JSON value; a number is a float. Integers only come from conversions. */
  datatype Value =
    | Null
    | Text(text: string)
    | Number(number: real)
    | Integer(int64: int)
    | Flag(flag: bool)
    | List(items: seq<Value>)
    | Object(fields: Fields)

  type Fields = map<string, Value>

  datatype FieldMapping = FieldMapping(source: string, dest: string, coerce: string)

  function Sources(ms: seq<FieldMapping>): set<string> {
    set m | m in ms :: m.source
  }

  function Dests(ms: seq<FieldMapping>): set<string> {
    set m | m in ms :: m.dest
  }

  /** The mapped fields that the record has, under their new names; the later mapping wins. */
  function Moved(ms: seq<FieldMapping>, src: Fields): Fields {
    if ms == [] then map[]
    else
      var m, before := ms[|ms| - 1], Moved(ms[..|ms| - 1], src);
      if m.source in src then before[m.dest := src[m.source]] else before
  }

  /** The moved fields, and those of the visited fields that no mapping names and no moved field hides. */
  function Merged(moved: Fields, sources: set<string>, src: Fields, visited: set<string>): Fields {
    map k | k in moved.Keys + visited && (k in moved || (k in src && k !in sources)) ::
      if k in moved then moved[k] else src[k]
  }

  function Renamed(ms: seq<FieldMapping>, src: Fields): Fields {
    Merged(Moved(ms, src), Sources(ms), src, src.Keys)
  }

  lemma VisitOne(moved: Fields, sources: set<string>, src: Fields, visited: set<string>, k: string)
    requires k in src
    ensures Merged(moved, sources, src, visited + {k}) ==
            (if k !in sources && k !in Merged(moved, sources, src, visited) then
               Merged(moved, sources, src, visited)[k := src[k]]
             else Merged(moved, sources, src, visited))
  {
  }

  /** The result does not depend on the order in which the fields of the record are visited. */
  method RenameFields(ms: seq<FieldMapping>, src: Fields) returns (dest: Fields)
    ensures dest == Renamed(ms, src)
  {
    dest := map[];
    for i := 0 to |ms|
      invariant dest == Moved(ms[..i], src)
    {
      assert ms[..i + 1][..i] == ms[..i];
      if ms[i].source in src {
        dest := dest[ms[i].dest := src[ms[i].source]];
      }
    }
    assert ms[..|ms|] == ms;
    dest := KeepOthers(ms, src, dest);
  }

  method KeepOthers(ms: seq<FieldMapping>, src: Fields, moved: Fields) returns (dest: Fields)
    ensures dest == Merged(moved, Sources(ms), src, src.Keys)
  {
    var mappedSources := set m | m in ms :: m.source;
    assert mappedSources == Sources(ms);
    dest := moved;
    var todo := src.Keys;
    ghost var visited: set<string> := {};
    assert dest == Merged(moved, Sources(ms), src, visited);
    hide Merged, Sources;
    while todo != {}
      invariant todo + visited == src.Keys && dest == Merged(moved, Sources(ms), src, visited)
      decreases todo
    {
      var k :| k in todo;
      VisitOne(moved, Sources(ms), src, visited, k);
      if k !in mappedSources && k !in dest {
        dest := dest[k := src[k]];
      }
      todo, visited := todo - {k}, visited + {k};
    }
  }

  // ----- Undoing a renaming -----

  function Inverse(ms: seq<FieldMapping>): seq<FieldMapping> {
    seq(|ms|, i requires 0 <= i < |ms| => FieldMapping(ms[i].dest, ms[i].source, ms[i].coerce))
  }

  /** No two mappings share a source or a destination. */
  ghost predicate Bijective(ms: seq<FieldMapping>) {
    forall i, j | 0 <= i < j < |ms| :: ms[i].source != ms[j].source && ms[i].dest != ms[j].dest
  }

  /** Some field of the record is not mapped but has the name of a destination. */
  ghost predicate Collides(ms: seq<FieldMapping>, src: Fields) {
    exists k :: k in src && k !in Sources(ms) && k in Dests(ms)
  }

  lemma {:induction false} MovedFields(ms: seq<FieldMapping>, src: Fields)
    requires Bijective(ms)
    ensures forall k :: k in Moved(ms, src) ==> exists m :: m in ms && m.source in src && m.dest == k
    ensures forall m :: m in ms && m.source in src ==>
              m.dest in Moved(ms, src) && Moved(ms, src)[m.dest] == src[m.source]
  {
    if ms != [] {
      var n := |ms| - 1;
      MovedFields(ms[..n], src);
      assert ms == ms[..n] + [ms[n]];
      forall m | m in ms[..n] ensures m.dest != ms[n].dest {
        var i :| 0 <= i < n && ms[i] == m;
      }
    }
  }

  lemma {:induction false} OnlyDests(ms: seq<FieldMapping>, src: Fields)
    ensures Moved(ms, src).Keys <= Dests(ms)
  {
    if ms != [] {
      var n := |ms| - 1;
      OnlyDests(ms[..n], src);
      assert ms == ms[..n] + [ms[n]];
    }
  }

  /** Under the destination of a one-to-one mapping there is the source field, or nothing. */
  lemma MovedIff(ms: seq<FieldMapping>, src: Fields, m: FieldMapping)
    requires Bijective(ms) && m in ms
    ensures m.dest in Moved(ms, src) <==> m.source in src
    ensures m.source in src ==> Moved(ms, src)[m.dest] == src[m.source]
  {
    hide Moved;
    MovedFields(ms, src);
  }

  function Turned(m: FieldMapping): FieldMapping {
    FieldMapping(m.dest, m.source, m.coerce)
  }

  lemma InverseFacts(ms: seq<FieldMapping>)
    requires Bijective(ms)
    ensures Bijective(Inverse(ms))
    ensures forall m :: m in ms ==> Turned(m) in Inverse(ms)
    ensures Sources(Inverse(ms)) == Dests(ms) && Dests(Inverse(ms)) == Sources(ms)
  {
    var inv := Inverse(ms);
    forall m | m in ms ensures Turned(m) in inv {
      var i :| 0 <= i < |ms| && ms[i] == m;
      assert inv[i] == Turned(m);
    }
    forall m | m in inv ensures Turned(m) in ms {
      var i :| 0 <= i < |inv| && inv[i] == m;
      assert ms[i] == Turned(m);
    }
    forall k | k in Dests(ms) ensures k in Sources(inv) {
      var m :| m in ms && m.dest == k;
      assert Turned(m) in inv;
    }
    forall k | k in Sources(ms) ensures k in Dests(inv) {
      var m :| m in ms && m.source == k;
      assert Turned(m) in inv;
    }
  }

  /** What the renaming and then its inverse leave under a name. */
  lemma BackAgain(ms: seq<FieldMapping>, src: Fields, k: string)
    requires Bijective(ms) && !Collides(ms, src)
    ensures var back := Renamed(Inverse(ms), Renamed(ms, src));
            (k in back <==> k in src) && (k in src ==> back[k] == src[k])
  {
    hide Moved, Inverse, Bijective;
    var there, inv := Renamed(ms, src), Inverse(ms);
    InverseFacts(ms);
    OnlyDests(ms, src);
    OnlyDests(inv, there);
    if k in Sources(ms) {
      var m :| m in ms && m.source == k;
      MovedIff(ms, src, m);
      MovedIff(inv, there, Turned(m));
      assert m.dest in Dests(ms);
    }
  }

  /** Applying a one-to-one mapping and then its inverse restores the record exactly when no
      unmapped field of the record has the name of a destination. Swaps are restored, and fields the
      record does not have do no harm. */
  lemma InverseRestores(ms: seq<FieldMapping>, src: Fields)
    requires Bijective(ms)
    ensures Renamed(Inverse(ms), Renamed(ms, src)) == src <==> !Collides(ms, src)
  {
    var back := Renamed(Inverse(ms), Renamed(ms, src));
    if Collides(ms, src) {
      var k :| k in src && k !in Sources(ms) && k in Dests(ms);
      InverseFacts(ms);
      OnlyDests(Inverse(ms), Renamed(ms, src));
      assert k !in back;
    } else {
      forall k ensures (k in back <==> k in src) && (k in src ==> back[k] == src[k]) {
        BackAgain(ms, src, k);
      }
    }
  }

  // ----- Any mapping, field by field -----

  /** The place of the last mapping that has a field to move to the name. */
  ghost predicate LastInto(ms: seq<FieldMapping>, src: Fields, name: string, i: nat) {
    && i < |ms| && ms[i].dest == name && ms[i].source in src
    && forall j | i < j < |ms| :: !(ms[j].dest == name && ms[j].source in src)
  }

  lemma {:induction false} LastMoved(ms: seq<FieldMapping>, src: Fields, name: string)
    ensures forall i: nat :: LastInto(ms, src, name, i) ==>
              name in Moved(ms, src) && Moved(ms, src)[name] == src[ms[i].source]
    ensures (forall i: nat :: !LastInto(ms, src, name, i)) ==> name !in Moved(ms, src)
  {
    if ms != [] {
      var n := |ms| - 1;
      LastMoved(ms[..n], src, name);
      if ms[n].dest == name && ms[n].source in src {
        assert LastInto(ms, src, name, n);
      } else {
        forall i: nat ensures LastInto(ms, src, name, i) <==> LastInto(ms[..n], src, name, i) {
        }
      }
    }
  }

  /** Under a name there is the field that the last mapping moves there; if none does, the record's own
      field of that name, unless a mapping takes it away. */
  lemma RenamedField(ms: seq<FieldMapping>, src: Fields, name: string)
    ensures forall i: nat :: LastInto(ms, src, name, i) ==>
              name in Renamed(ms, src) && Renamed(ms, src)[name] == src[ms[i].source]
    ensures (forall i: nat :: !LastInto(ms, src, name, i)) ==>
              && (name in Renamed(ms, src) <==> name in src && forall m :: m in ms ==> m.source != name)
              && (name in Renamed(ms, src) ==> Renamed(ms, src)[name] == src[name])
  {
    hide Moved, LastInto;
    LastMoved(ms, src, name);
  }
}
