/** What the key of a record tells: the values of its key fields are written as texts, and the texts
    are joined by bars. When only true duplicates are dropped, and what else is dropped otherwise. */
module CompositeKeys {
  import opened Coercion
  import opened FieldRenaming
  import opened Outcomes
  import opened Strings
  import opened Transform

  // ----- What a record holds in its key fields -----

  /** The value at a field path, if there is one. */
  function Find(v: Value, path: seq<string>): Option<Value>
    decreases |path|
  {
    if path == [] then Some(v)
    else match v
      case Object(m) => if path[0] in m then Find(m[path[0]], path[1..]) else None
      case _ => None
  }

  function Contents(m: Fields, pk: seq<seq<string>>): seq<Option<Value>> {
    if pk == [] then []
    else
      var path := pk[|pk| - 1];
      Contents(m, pk[..|pk| - 1]) + [if path == [] then None else Find(Object(m), path)]
  }

  /** A field that is not there is written like null. */
  function TextOf(lib: Library, content: Option<Value>): string {
    lib.format(if content.None? then Null else content.value)
  }

  function Texts(lib: Library, contents: seq<Option<Value>>): (texts: seq<string>)
    ensures |texts| == |contents| && forall i | 0 <= i < |contents| :: texts[i] == TextOf(lib, contents[i])
  {
    seq(|contents|, i requires 0 <= i < |contents| => TextOf(lib, contents[i]))
  }

  lemma {:induction false} WalkFinds(v: Value, path: seq<string>)
    ensures Walk(v, path) == match Find(v, path) case None => Null case Some(w) => w
    decreases |path|
  {
    if path != [] && v.Object? {
      if path[0] in v.fields {
        WalkFinds(v.fields[path[0]], path[1..]);
      } else if |path| > 1 {
        assert Walk(Null, path[1..]) == Null;
      }
    }
  }

  lemma {:induction false} PartsAreTexts(cfg: Config, m: Fields, pk: seq<seq<string>>)
    ensures KeyParts(cfg, m, pk) == Texts(cfg.lib, Contents(m, pk)) && |Contents(m, pk)| == |pk|
  {
    hide Walk, Find;
    if pk != [] {
      var path := pk[|pk| - 1];
      PartsAreTexts(cfg, m, pk[..|pk| - 1]);
      WalkFinds(Object(m), path);
    }
  }

  lemma {:induction false} KeysHaveFields(streams: seq<ConfiguredStream>)
    ensures forall s :: s in StreamKeys(streams) ==> StreamKeys(streams)[s] != []
  {
    if streams != [] {
      KeysHaveFields(streams[..|streams| - 1]);
    }
  }

  /** A readable record of a stream that has a primary key. */
  predicate Readable(cfg: Config, r: Record) {
    r.stream in StreamKeys(cfg.streams) && cfg.read(r.data).Some?
  }

  function ContentsOf(cfg: Config, r: Record): seq<Option<Value>>
    requires Readable(cfg, r)
  {
    Contents(cfg.read(r.data).value, StreamKeys(cfg.streams)[r.stream])
  }

  function JoinedTexts(lib: Library, contents: seq<Option<Value>>): string {
    Join(Texts(lib, contents), '|')
  }

  /** A record's key is the texts of its key fields, joined; a record with an empty one, or that
      cannot be read, has none. */
  lemma KeyIsJoin(cfg: Config, r: Record)
    ensures KeyOf(cfg, r).Some? <==> Readable(cfg, r) && JoinedTexts(cfg.lib, ContentsOf(cfg, r)) != ""
    ensures KeyOf(cfg, r).Some? ==> KeyOf(cfg, r) == Some((r.stream, JoinedTexts(cfg.lib, ContentsOf(cfg, r))))
    ensures Readable(cfg, r) ==> ContentsOf(cfg, r) != []
  {
    hide Contents, KeyParts, Texts;
    if Readable(cfg, r) {
      KeysHaveFields(cfg.streams);
      PartsAreTexts(cfg, cfg.read(r.data).value, StreamKeys(cfg.streams)[r.stream]);
    }
  }

  // ----- Which texts give a key -----

  /** A single text, or texts that hold no bar. */
  ghost predicate Unambiguous(texts: seq<string>) {
    |texts| == 1 || NoneHolds(texts, '|')
  }

  /** No other texts of their number are joined to the same key if and only if there is one or none
      of them holds a bar. */
  lemma TextsAreExact(texts: seq<string>)
    requires texts != []
    ensures (forall q :: |q| == |texts| && Join(q, '|') == Join(texts, '|') ==> q == texts) <==> Unambiguous(texts)
  {
    if |texts| >= 2 {
      JoinUnambiguous(texts, '|');
    } else {
      forall q: seq<string> | |q| == 1 && Join(q, '|') == Join(texts, '|') ensures q == texts {
      }
    }
  }

  // ----- Which values give a key -----

  /** fmt.Sprintf("%v") writes a string as itself. */
  ghost predicate WritesTexts(lib: Library) {
    forall t :: lib.format(Text(t)) == t
  }

  /** No other value than the string itself is written like this: the string is not how a number, a
      boolean, null, a list or an object is written. */
  ghost predicate OnlyText(lib: Library, t: string) {
    forall v :: lib.format(v) == t ==> v == Text(t)
  }

  /** Every key field is there. */
  ghost predicate Present(contents: seq<Option<Value>>) {
    forall i | 0 <= i < |contents| :: contents[i].Some?
  }

  /** Key fields that their key identifies: all are there and hold strings, each written like no
      value of another kind, and there is one of them or none holds a bar. */
  ghost predicate Exact(lib: Library, contents: seq<Option<Value>>) {
    && Unambiguous(Texts(lib, contents))
    && forall i | 0 <= i < |contents| ::
         contents[i].Some? && contents[i].value.Text? && OnlyText(lib, contents[i].value.text)
  }

  /** Other contents with the same key, or the same ones with a field missing. */
  ghost predicate Mistaken(lib: Library, contents: seq<Option<Value>>, other: seq<Option<Value>>) {
    && |other| == |contents| && JoinedTexts(lib, other) == JoinedTexts(lib, contents)
    && (other != contents || !Present(other))
  }

  lemma OneWritten(lib: Library, contents: seq<Option<Value>>, i: nat, v: Value)
    requires i < |contents| && lib.format(v) == TextOf(lib, contents[i])
    ensures Texts(lib, contents[i := Some(v)]) == Texts(lib, contents)
  {
    hide TextOf;
    assert TextOf(lib, Some(v)) == lib.format(v) by { WrittenValue(lib, v); }
  }

  lemma WrittenValue(lib: Library, v: Value)
    ensures TextOf(lib, Some(v)) == lib.format(v)
  {
  }

  lemma AllWritten(lib: Library, texts: seq<string>) returns (contents: seq<Option<Value>>)
    requires WritesTexts(lib)
    ensures |contents| == |texts| && Texts(lib, contents) == texts
  {
    contents := seq(|texts|, i requires 0 <= i < |texts| => Some(Text(texts[i])));
  }

  /** Contents that are not exact can be mistaken for others. */
  lemma InexactIsMistaken(lib: Library, contents: seq<Option<Value>>) returns (other: seq<Option<Value>>)
    requires contents != [] && WritesTexts(lib) && !Exact(lib, contents)
    ensures Mistaken(lib, contents, other)
  {
    hide Join, Texts;
    other := contents;
    if !Unambiguous(Texts(lib, contents)) {
      var texts := Texts(lib, contents);
      var i :| 0 <= i < |texts| && '|' in texts[i];
      var q := OtherParts(texts, '|', i);
      other := AllWritten(lib, q);
    } else if Present(contents) {
      var i :| 0 <= i < |contents| && !(contents[i].value.Text? && OnlyText(lib, contents[i].value.text));
      var v := contents[i].value;
      if v.Text? {
        var w :| lib.format(w) == v.text && w != Text(v.text);
        OneWritten(lib, contents, i, w);
        other := contents[i := Some(w)];
        assert other[i] != contents[i];
      } else {
        OneWritten(lib, contents, i, Text(lib.format(v)));
        other := contents[i := Some(Text(lib.format(v)))];
        assert other[i] != contents[i];
      }
    }
  }

  /** Exact contents are mistaken for no others. */
  lemma ExactIsNotMistaken(lib: Library, contents: seq<Option<Value>>, other: seq<Option<Value>>)
    requires WritesTexts(lib) && Exact(lib, contents)
    requires |other| == |contents| > 0 && JoinedTexts(lib, other) == JoinedTexts(lib, contents)
    ensures other == contents && Present(other)
  {
    hide Join;
    var texts := Texts(lib, contents);
    TextsAreExact(texts);
    assert Texts(lib, other) == texts;
    forall i | 0 <= i < |other| ensures other[i] == contents[i] {
      assert TextOf(lib, other[i]) == TextOf(lib, contents[i]);
      assert lib.format(contents[i].value) == TextOf(lib, contents[i]);
      SameValue(lib, contents[i].value.text, contents[i].value, other[i]);
    }
  }

  lemma SameValue(lib: Library, t: string, v: Value, other: Option<Value>)
    requires v == Text(t) && OnlyText(lib, t) && TextOf(lib, other) == lib.format(v) == t
    ensures other == Some(v)
  {
  }

  /** A record's key determines what its key fields hold if and only if all of them are there and
      hold strings, each written like no value of another kind, and there is one of them or none
      holds a bar. */
  lemma KeyIsExact(cfg: Config, r: Record)
    requires WritesTexts(cfg.lib) && KeyOf(cfg, r).Some?
    ensures Readable(cfg, r)
    ensures (forall other :: !Mistaken(cfg.lib, ContentsOf(cfg, r), other)) <==> Exact(cfg.lib, ContentsOf(cfg, r))
  {
    hide KeyOf, Readable, Exact, Mistaken, ContentsOf;
    KeyIsJoin(cfg, r);
    var contents := ContentsOf(cfg, r);
    if Exact(cfg.lib, contents) {
      forall other ensures !Mistaken(cfg.lib, contents, other) {
        ExactIsNeverMistaken(cfg.lib, contents, other);
      }
    } else {
      var other := InexactIsMistaken(cfg.lib, contents);
    }
  }

  lemma ExactIsNeverMistaken(lib: Library, contents: seq<Option<Value>>, other: seq<Option<Value>>)
    requires contents != [] && WritesTexts(lib) && Exact(lib, contents)
    ensures !Mistaken(lib, contents, other)
  {
    hide Exact, Present, JoinedTexts;
    if |other| == |contents| && JoinedTexts(lib, other) == JoinedTexts(lib, contents) {
      ExactIsNotMistaken(lib, contents, other);
    }
  }

  // ----- Which records are dropped -----

  /** An earlier record of the stream that holds the same values in all key fields. */
  ghost predicate TrueDuplicate(cfg: Config, before: seq<Record>, r: Record)
    requires Readable(cfg, r)
  {
    && Present(ContentsOf(cfg, r))
    && exists s :: s in before && s.stream == r.stream && Readable(cfg, s) && ContentsOf(cfg, s) == ContentsOf(cfg, r)
  }

  /** A record and one with an exact key have the same key if and only if their key fields hold the
      same values. */
  lemma SameKeyIff(cfg: Config, r: Record, s: Record)
    requires WritesTexts(cfg.lib) && KeyOf(cfg, r).Some? && Readable(cfg, r) && Exact(cfg.lib, ContentsOf(cfg, r))
    ensures KeyOf(cfg, s) == KeyOf(cfg, r)
            <==> s.stream == r.stream && Readable(cfg, s) && ContentsOf(cfg, s) == ContentsOf(cfg, r)
  {
    KeyIsJoin(cfg, r);
    KeyIsJoin(cfg, s);
    if KeyOf(cfg, s) == KeyOf(cfg, r) {
      SameStreamSameCount(cfg, r, s);
      hide KeyOf, Readable, ContentsOf, JoinedTexts;
      ExactIsNotMistaken(cfg.lib, ContentsOf(cfg, r), ContentsOf(cfg, s));
    }
  }

  lemma SameStreamSameCount(cfg: Config, r: Record, s: Record)
    requires Readable(cfg, r) && Readable(cfg, s) && s.stream == r.stream
    ensures |ContentsOf(cfg, s)| == |ContentsOf(cfg, r)|
  {
    PartsAreTexts(cfg, cfg.read(r.data).value, StreamKeys(cfg.streams)[r.stream]);
    PartsAreTexts(cfg, cfg.read(s.data).value, StreamKeys(cfg.streams)[s.stream]);
  }

  /** A record with an exact key is dropped if and only if it is a true duplicate. */
  lemma DroppedIffDuplicate(cfg: Config, before: seq<Record>, r: Record)
    requires WritesTexts(cfg.lib) && KeyOf(cfg, r).Some? && Readable(cfg, r) && Exact(cfg.lib, ContentsOf(cfg, r))
    ensures !IsNew(cfg, before, r) <==> TrueDuplicate(cfg, before, r)
  {
    hide KeyOf, Readable, ContentsOf, Exact;
    ExactIsPresent(cfg.lib, ContentsOf(cfg, r));
    forall s | s in before
      ensures KeyOf(cfg, s) == KeyOf(cfg, r)
              <==> s.stream == r.stream && Readable(cfg, s) && ContentsOf(cfg, s) == ContentsOf(cfg, r)
    {
      SameKeyIff(cfg, r, s);
    }
    DroppedIff(cfg, before, r);
  }

  lemma ExactIsPresent(lib: Library, contents: seq<Option<Value>>)
    requires Exact(lib, contents)
    ensures Present(contents)
  {
  }

  /** A keyed record is dropped if and only if an earlier one has the same key. */
  lemma DroppedIff(cfg: Config, before: seq<Record>, r: Record)
    requires KeyOf(cfg, r).Some?
    ensures !IsNew(cfg, before, r) <==> exists s :: s in before && KeyOf(cfg, s) == KeyOf(cfg, r)
  {
    hide KeyOf;
    if !IsNew(cfg, before, r) {
      var s :| s in before && KeyOf(cfg, s).Some? && KeyOf(cfg, s).value == KeyOf(cfg, r).value;
      assert KeyOf(cfg, s) == KeyOf(cfg, r);
    }
  }

  /** A record of the stream with the given contents of the key fields. */
  ghost predicate HasContents(cfg: Config, s: Record, stream: string, contents: seq<Option<Value>>) {
    s.stream == stream && Readable(cfg, s) && ContentsOf(cfg, s) == contents
  }

  /** A record whose key is not exact: there are contents of the key fields such that any record with
      them is dropped after this one, although it is no true duplicate. */
  lemma InexactKeyCollides(cfg: Config, r: Record) returns (other: seq<Option<Value>>)
    requires WritesTexts(cfg.lib) && KeyOf(cfg, r).Some? && Readable(cfg, r) && !Exact(cfg.lib, ContentsOf(cfg, r))
    ensures Mistaken(cfg.lib, ContentsOf(cfg, r), other)
    ensures forall s :: HasContents(cfg, s, r.stream, other) ==>
              Deduped(cfg, [r, s]) == [r] && !TrueDuplicate(cfg, [r], s)
  {
    KeyIsJoin(cfg, r);
    other := InexactIsMistaken(cfg.lib, ContentsOf(cfg, r));
    forall s | HasContents(cfg, s, r.stream, other) ensures Deduped(cfg, [r, s]) == [r] && !TrueDuplicate(cfg, [r], s) {
      SecondIsMistaken(cfg, r, s);
    }
  }

  lemma SecondIsMistaken(cfg: Config, r: Record, s: Record)
    requires Readable(cfg, r) && KeyOf(cfg, r).Some? && Readable(cfg, s) && s.stream == r.stream
    requires Mistaken(cfg.lib, ContentsOf(cfg, r), ContentsOf(cfg, s))
    ensures KeyOf(cfg, s) == KeyOf(cfg, r) && Deduped(cfg, [r, s]) == [r] && !TrueDuplicate(cfg, [r], s)
  {
    KeyIsJoin(cfg, r);
    KeyIsJoin(cfg, s);
    hide KeyOf, Readable, ContentsOf, JoinedTexts;
    SecondDropped(cfg, r, s);
  }

  lemma SecondDropped(cfg: Config, r: Record, s: Record)
    requires KeyOf(cfg, r).Some? && KeyOf(cfg, s) == KeyOf(cfg, r)
    ensures Deduped(cfg, [r, s]) == [r]
  {
    hide KeyOf;
    assert [r, s][..1] == [r] && [r][..0] == [];
    assert KeyOf(cfg, r).value in Keys(cfg, [r]);
    assert Deduped(cfg, [r]) == [r];
  }

  /** All records of a stream that lack the same key fields and agree in the others share a key: the
      second is dropped, although nothing tells that it is the same. */
  lemma LackingRecordsCollide(cfg: Config, r: Record, s: Record)
    requires KeyOf(cfg, r).Some? && Readable(cfg, r) && Readable(cfg, s) && s.stream == r.stream
    requires ContentsOf(cfg, s) == ContentsOf(cfg, r) && !Present(ContentsOf(cfg, r))
    ensures KeyOf(cfg, s) == KeyOf(cfg, r) && Deduped(cfg, [r, s]) == [r] && !TrueDuplicate(cfg, [r], s)
  {
    hide JoinedTexts;
    SecondIsMistaken(cfg, r, s);
  }

  // ----- Three pairs of records that are taken for duplicates -----

  /** The number 1 and the string 1 in the only key field. */
  lemma NumberAndTextCollide(cfg: Config, first: Record, second: Record)
    requires cfg.streams == [ConfiguredStream("s", [], [["id"]])] && first.stream == "s" && second.stream == "s"
    requires cfg.read(first.data) == Some(map["id" := Number(1.0)])
    requires cfg.read(second.data) == Some(map["id" := Text("1")])
    requires WritesTexts(cfg.lib) && cfg.lib.format(Number(1.0)) == "1"
    ensures Deduped(cfg, [first, second]) == [first]
    ensures Readable(cfg, second) && !TrueDuplicate(cfg, [first], second)
  {
    OneField(cfg, first, Some(Number(1.0)));
    OneField(cfg, second, Some(Text("1")));
    hide ContentsOf, Readable, KeyOf, JoinedTexts;
    assert [Some(Number(1.0))][0] != [Some(Text("1"))][0];
    SecondIsMistaken(cfg, first, second);
  }

  /** Any two records without the only key field. */
  lemma LackingTheFieldCollides(cfg: Config, first: Record, second: Record)
    requires cfg.streams == [ConfiguredStream("s", [], [["id"]])] && first.stream == "s" && second.stream == "s"
    requires cfg.read(first.data).Some? && "id" !in cfg.read(first.data).value
    requires cfg.read(second.data).Some? && "id" !in cfg.read(second.data).value
    requires cfg.lib.format(Null) == "<nil>"
    ensures Deduped(cfg, [first, second]) == [first]
    ensures Readable(cfg, second) && !TrueDuplicate(cfg, [first], second)
  {
    OneField(cfg, first, None);
    OneField(cfg, second, None);
    hide ContentsOf, Readable, KeyOf, JoinedTexts;
    LackingRecordsCollide(cfg, first, second);
  }

  lemma OneField(cfg: Config, r: Record, content: Option<Value>)
    requires cfg.streams == [ConfiguredStream("s", [], [["id"]])] && r.stream == "s" && cfg.read(r.data).Some?
    requires content == (if "id" in cfg.read(r.data).value then Some(cfg.read(r.data).value["id"]) else None)
    requires TextOf(cfg.lib, content) != ""
    ensures Readable(cfg, r) && ContentsOf(cfg, r) == [content]
    ensures JoinedTexts(cfg.lib, [content]) == TextOf(cfg.lib, content)
    ensures KeyOf(cfg, r) == Some(("s", TextOf(cfg.lib, content)))
  {
    var pk, m := [["id"]], cfg.read(r.data).value;
    assert cfg.streams[..0] == [];
    assert StreamKeys(cfg.streams) == map["s" := pk];
    assert pk[..0] == [] && pk[0][1..] == [];
    assert Contents(m, pk) == [content];
    assert Texts(cfg.lib, [content]) == [TextOf(cfg.lib, content)];
    KeyIsJoin(cfg, r);
  }

  /** Strings that hold a bar in two key fields. */
  lemma BarsCollide(cfg: Config, first: Record, second: Record)
    requires cfg.streams == [ConfiguredStream("s", [], [["a"], ["b"]])] && first.stream == "s" && second.stream == "s"
    requires cfg.read(first.data) == Some(map["a" := Text("x|y"), "b" := Text("z")])
    requires cfg.read(second.data) == Some(map["a" := Text("x"), "b" := Text("y|z")])
    requires WritesTexts(cfg.lib)
    ensures Deduped(cfg, [first, second]) == [first]
    ensures Readable(cfg, second) && !TrueDuplicate(cfg, [first], second)
  {
    TwoTexts(cfg, first, "x|y", "z");
    TwoTexts(cfg, second, "x", "y|z");
    assert "x|y" + ['|'] + "z" == "x" + ['|'] + "y|z";
    hide ContentsOf, Readable, KeyOf;
    SecondIsMistaken(cfg, first, second);
  }

  lemma TwoTexts(cfg: Config, r: Record, a: string, b: string)
    requires cfg.streams == [ConfiguredStream("s", [], [["a"], ["b"]])] && r.stream == "s" && a != ""
    requires cfg.read(r.data) == Some(map["a" := Text(a), "b" := Text(b)]) && WritesTexts(cfg.lib)
    ensures Readable(cfg, r) && ContentsOf(cfg, r) == [Some(Text(a)), Some(Text(b))]
    ensures JoinedTexts(cfg.lib, ContentsOf(cfg, r)) == a + ['|'] + b && KeyOf(cfg, r) == Some(("s", a + ['|'] + b))
  {
    var pk, m := [["a"], ["b"]], map["a" := Text(a), "b" := Text(b)];
    assert cfg.streams[..0] == [];
    assert StreamKeys(cfg.streams) == map["s" := pk];
    assert pk[0][1..] == [] && pk[1][1..] == [];
    assert pk[..1] == [["a"]] && pk[..1][..0] == [];
    assert Contents(m, pk[..1]) == [Some(Text(a))];
    assert Contents(m, pk) == [Some(Text(a)), Some(Text(b))];
    var texts := Texts(cfg.lib, ContentsOf(cfg, r));
    assert texts == [a, b] && texts[1..] == [b];
    assert Join(texts[1..], '|') == b;
    assert Join(texts, '|') == a + ['|'] + b;
    KeyIsJoin(cfg, r);
  }
}
