/** matchFields of the auto-mapper: score every pair of fields, sort the pairs by score, and
    take each pair whose two fields are still free. Scores are exact numbers. */
module FieldMatching {
  import opened EditDistance

  datatype SchemaField = SchemaField(path: string, typ: string, name: string)
  datatype FieldMapping = FieldMapping(sourceField: string, destField: string, transform: string,
                                       confidence: real, autoMatched: bool)
  datatype AutoMapper = AutoMapper(minConfidence: real, typeWeight: real, nameWeight: real)
  datatype ScoredPair = ScoredPair(src: nat, dst: nat, score: real)

  // ----- Scores -----

  function TypeCompatibility(srcType: string, destType: string): (r: real)
    ensures 0.0 <= r <= 1.0
    ensures srcType == destType ==> r == 1.0
  {
    if srcType == destType then 1.0
    else
      match (srcType, destType)
      case ("string", "number") => 0.3
      case ("number", "string") => 0.5
      case ("string", "integer") => 0.3
      case ("integer", "string") => 0.5
      case ("integer", "number") => 0.9
      case ("number", "integer") => 0.7
      case ("boolean", "string") => 0.4
      case ("string", "boolean") => 0.3
      case ("boolean", "integer") => 0.3
      case ("integer", "boolean") => 0.3
      case _ => 0.0
  }

  function FieldScore(am: AutoMapper, src: SchemaField, dest: SchemaField, lower: char -> char): real {
    Weighted(am, Similarity(src.name, dest.name, lower), TypeCompatibility(src.typ, dest.typ))
  }

  function Weighted(am: AutoMapper, nameScore: real, typeScore: real): real {
    am.nameWeight * nameScore + am.typeWeight * typeScore
  }

  /** With the documented weights no score is negative. */
  lemma ScoreIsNotNegative(am: AutoMapper, src: SchemaField, dest: SchemaField, lower: char -> char)
    requires am.nameWeight >= 0.0 && am.typeWeight >= 0.0
    ensures 0.0 <= FieldScore(am, src, dest, lower) <= am.nameWeight + am.typeWeight
  {
    SimilarityBounds(src.name, dest.name, lower);
    WeightedBounds(am, Similarity(src.name, dest.name, lower), TypeCompatibility(src.typ, dest.typ));
  }

  lemma WeightedBounds(am: AutoMapper, nameScore: real, typeScore: real)
    requires am.nameWeight >= 0.0 && am.typeWeight >= 0.0
    requires 0.0 <= nameScore <= 1.0 && 0.0 <= typeScore <= 1.0
    ensures 0.0 <= Weighted(am, nameScore, typeScore) <= am.nameWeight + am.typeWeight
  {
    var byName := Scaled(am.nameWeight, nameScore);
    var byType := Scaled(am.typeWeight, typeScore);
    assert Weighted(am, nameScore, typeScore) == byName + byType;
  }

  lemma Scaled(w: real, x: real) returns (y: real)
    requires w >= 0.0 && 0.0 <= x <= 1.0
    ensures y == w * x && 0.0 <= y <= w
  {
    y := w * x;
    assert w == w * x + w * (1.0 - x);
    Product(w, x);
    Product(w, 1.0 - x);
  }

  lemma Product(x: real, y: real)
    requires x >= 0.0 && y >= 0.0
    ensures x * y >= 0.0
  {
  }

  // ----- Candidates and their order -----

  ghost predicate IsCandidate(am: AutoMapper, src: seq<SchemaField>, dst: seq<SchemaField>, lower: char -> char,
                              p: ScoredPair)
  {
    p.src < |src| && p.dst < |dst| && p.score == FieldScore(am, src[p.src], dst[p.dst], lower)
      && p.score >= am.minConfidence
  }

  ghost predicate CandidatesOnly(am: AutoMapper, src: seq<SchemaField>, dst: seq<SchemaField>, lower: char -> char,
                                 pairs: seq<ScoredPair>)
  {
    forall p :: p in pairs ==> IsCandidate(am, src, dst, lower, p)
  }

  ghost predicate Distinct(pairs: seq<ScoredPair>) {
    forall i, j :: 0 <= i < j < |pairs| ==> pairs[i] != pairs[j]
  }

  /** The pairs are the candidates, each once. */
  ghost predicate AllCandidates(am: AutoMapper, src: seq<SchemaField>, dst: seq<SchemaField>, lower: char -> char,
                                pairs: seq<ScoredPair>)
  {
    Distinct(pairs) && forall p :: p in pairs <==> IsCandidate(am, src, dst, lower, p)
  }

  /** The candidates that come before pair (si, di) in the double loop. */
  ghost predicate CandidatesBefore(am: AutoMapper, src: seq<SchemaField>, dst: seq<SchemaField>, lower: char -> char,
                                   pairs: seq<ScoredPair>, si: nat, di: nat) {
    && Distinct(pairs)
    && forall p :: p in pairs <==> IsCandidate(am, src, dst, lower, p) && (p.src < si || (p.src == si && p.dst < di))
  }

  method ScorePairs(am: AutoMapper, src: seq<SchemaField>, dst: seq<SchemaField>, lower: char -> char)
    returns (pairs: seq<ScoredPair>)
    ensures AllCandidates(am, src, dst, lower, pairs)
  {
    hide CandidatesBefore, Similarity, TypeCompatibility, Weighted;
    pairs := [];
    NoCandidates(am, src, dst, lower);
    for si := 0 to |src|
      invariant CandidatesBefore(am, src, dst, lower, pairs, si, 0)
    {
      for di := 0 to |dst|
        invariant CandidatesBefore(am, src, dst, lower, pairs, si, di)
      {
        var name := NameSimilarity(src[si].name, dst[di].name, lower);
        var score := Weighted(am, name, TypeCompatibility(src[si].typ, dst[di].typ));
        NextCandidate(am, src, dst, lower, pairs, si, di);
        if score >= am.minConfidence {
          pairs := pairs + [ScoredPair(si, di, score)];
        }
      }
      RowDone(am, src, dst, lower, pairs, si);
    }
    AllRowsDone(am, src, dst, lower, pairs);
  }

  lemma NoCandidates(am: AutoMapper, src: seq<SchemaField>, dst: seq<SchemaField>, lower: char -> char)
    ensures CandidatesBefore(am, src, dst, lower, [], 0, 0)
  {
  }

  lemma NextCandidate(am: AutoMapper, src: seq<SchemaField>, dst: seq<SchemaField>, lower: char -> char,
                      pairs: seq<ScoredPair>, si: nat, di: nat)
    requires si < |src| && di < |dst| && CandidatesBefore(am, src, dst, lower, pairs, si, di)
    ensures var score := FieldScore(am, src[si], dst[di], lower);
            CandidatesBefore(am, src, dst, lower,
              if score >= am.minConfidence then pairs + [ScoredPair(si, di, score)] else pairs, si, di + 1)
  {
    hide FieldScore;
    var p := ScoredPair(si, di, FieldScore(am, src[si], dst[di], lower));
    assert p !in pairs;
    assert forall k :: 0 <= k < |pairs| ==> pairs[k] in pairs;
  }

  lemma RowDone(am: AutoMapper, src: seq<SchemaField>, dst: seq<SchemaField>, lower: char -> char,
                pairs: seq<ScoredPair>, si: nat)
    requires CandidatesBefore(am, src, dst, lower, pairs, si, |dst|)
    ensures CandidatesBefore(am, src, dst, lower, pairs, si + 1, 0)
  {
    hide FieldScore;
  }

  lemma AllRowsDone(am: AutoMapper, src: seq<SchemaField>, dst: seq<SchemaField>, lower: char -> char,
                    pairs: seq<ScoredPair>)
    requires CandidatesBefore(am, src, dst, lower, pairs, |src|, 0)
    ensures AllCandidates(am, src, dst, lower, pairs)
  {
    hide FieldScore;
  }

  ghost predicate Descending(pairs: seq<ScoredPair>) {
    forall i, j :: 0 <= i < j < |pairs| ==> pairs[i].score >= pairs[j].score
  }

  ghost predicate IsReordering(pairs: seq<ScoredPair>, sorted: seq<ScoredPair>) {
    multiset(pairs) == multiset(sorted)
  }

  /** Stands for sort.Slice: callers know only that the result is some descending reordering. */
  method SortDescending(pairs: seq<ScoredPair>) returns (sorted: seq<ScoredPair>)
    ensures Descending(sorted) && IsReordering(pairs, sorted)
  {
    hide Descending, IsReordering;
    sorted := [];
    NothingSorted(pairs);
    for i := 0 to |pairs|
      invariant Descending(sorted) && IsReordering(pairs[..i], sorted)
    {
      var k := 0;
      while k < |sorted| && sorted[k].score >= pairs[i].score
        invariant k <= |sorted| && forall j :: 0 <= j < k ==> sorted[j].score >= pairs[i].score
      {
        k := k + 1;
      }
      InsertKeepsOrder(pairs[..i], sorted, k, pairs[i]);
      assert pairs[..i + 1] == pairs[..i] + [pairs[i]];
      sorted := sorted[..k] + [pairs[i]] + sorted[k..];
    }
    assert pairs[..|pairs|] == pairs;
  }

  lemma NothingSorted(pairs: seq<ScoredPair>)
    ensures Descending([]) && IsReordering(pairs[..0], [])
  {
  }

  lemma InsertKeepsOrder(pairs: seq<ScoredPair>, sorted: seq<ScoredPair>, k: nat, p: ScoredPair)
    requires Descending(sorted) && IsReordering(pairs, sorted) && k <= |sorted|
    requires forall j :: 0 <= j < k ==> sorted[j].score >= p.score
    requires k < |sorted| ==> p.score >= sorted[k].score
    ensures Descending(sorted[..k] + [p] + sorted[k..])
    ensures IsReordering(pairs + [p], sorted[..k] + [p] + sorted[k..])
  {
    assert sorted == sorted[..k] + sorted[k..];
  }

  // ----- Greedy assignment -----

  ghost predicate Clash(p: ScoredPair, q: ScoredPair) {
    p.src == q.src || p.dst == q.dst
  }

  ghost function Greedy(pairs: seq<ScoredPair>, usedSrc: set<nat>, usedDst: set<nat>): seq<ScoredPair> {
    if pairs == [] then []
    else if pairs[0].src in usedSrc || pairs[0].dst in usedDst then Greedy(pairs[1..], usedSrc, usedDst)
    else [pairs[0]] + Greedy(pairs[1..], usedSrc + {pairs[0].src}, usedDst + {pairs[0].dst})
  }

  /** A pair list in which no field is used twice. */
  ghost predicate OneToOne(pairs: seq<ScoredPair>) {
    forall i, j :: 0 <= i < j < |pairs| ==> !Clash(pairs[i], pairs[j])
  }

  function Transform(sf: SchemaField, df: SchemaField): string {
    if sf.typ != df.typ && sf.typ != "" && df.typ != "" then TypeCoercionTransform(sf.typ, df.typ) else ""
  }

  function TypeCoercionTransform(srcType: string, destType: string): string {
    if destType == "string" then "to_string"
    else if destType == "integer" || destType == "number" then
      if srcType == "string" then "to_float" else if destType == "integer" then "to_int" else "to_float"
    else if destType == "boolean" then "to_bool"
    else ""
  }

  /** math.Round(x * 100) / 100: two decimals, halves away from zero. */
  function RoundCents(x: real): real {
    (if x >= 0.0 then (x * 100.0 + 0.5).Floor as real else -((-x * 100.0 + 0.5).Floor as real)) / 100.0
  }

  function ToMapping(src: seq<SchemaField>, dst: seq<SchemaField>, p: ScoredPair): FieldMapping
    requires p.src < |src| && p.dst < |dst|
  {
    var sf, df := src[p.src], dst[p.dst];
    FieldMapping(sf.path, df.path, Transform(sf, df), RoundCents(p.score), true)
  }

  /** What matchFields may choose: the greedy choice from some descending order of the candidates. */
  ghost predicate Outcome(am: AutoMapper, src: seq<SchemaField>, dst: seq<SchemaField>, lower: char -> char,
                          chosen: seq<ScoredPair>)
  {
    exists sorted :: SortedCandidates(am, src, dst, lower, sorted) && chosen == Greedy(sorted, {}, {})
  }

  ghost predicate SortedCandidates(am: AutoMapper, src: seq<SchemaField>, dst: seq<SchemaField>, lower: char -> char,
                                   sorted: seq<ScoredPair>)
  {
    AllCandidates(am, src, dst, lower, sorted) && Descending(sorted)
  }

  method MatchFields(am: AutoMapper, src: seq<SchemaField>, dst: seq<SchemaField>, lower: char -> char)
    returns (mappings: seq<FieldMapping>)
    ensures exists chosen :: Outcome(am, src, dst, lower, chosen) && Rendered(src, dst, chosen, mappings)
    ensures SourceToDest(am, src, dst, lower, mappings)
    ensures DistinctPaths(src) && DistinctPaths(dst) ==> PathsOnce(mappings)
  {
    hide RoundCents, TypeCoercionTransform, AllCandidates, Descending, SourceToDest, PathsOnce, Outcome;
    hide Rendered, Greedy;
    var found := ScorePairs(am, src, dst, lower);
    var pairs := SortDescending(found);
    ReorderedCandidates(am, src, dst, lower, found, pairs);
    var usedSrc: set<nat>, usedDst: set<nat> := {}, {};
    mappings := [];
    ghost var chosen := [];
    NothingRendered(src, dst);
    for i := 0 to |pairs|
      invariant chosen + Greedy(pairs[i..], usedSrc, usedDst) == Greedy(pairs, {}, {})
      invariant Rendered(src, dst, chosen, mappings)
    {
      var p := pairs[i];
      PairInRange(am, src, dst, lower, pairs, i);
      GreedyStep(pairs, i, usedSrc, usedDst, chosen);
      if p.src in usedSrc || p.dst in usedDst {
        continue;
      }
      usedSrc := usedSrc + {p.src};
      usedDst := usedDst + {p.dst};
      var sf, df := src[p.src], dst[p.dst];
      var mapping := FieldMapping(sf.path, df.path, "", RoundCents(p.score), true);
      if sf.typ != df.typ && sf.typ != "" && df.typ != "" {
        mapping := mapping.(transform := TypeCoercionTransform(sf.typ, df.typ));
      }
      RenderOneMore(src, dst, chosen, mappings, p);
      mappings := mappings + [mapping];
      chosen := chosen + [p];
    }
    NothingChosen(usedSrc, usedDst);
    assert pairs[|pairs|..] == [] && chosen + [] == chosen;
    assert SortedCandidates(am, src, dst, lower, pairs);
    OutcomeIs(am, src, dst, lower, pairs);
    MappingsTakeSourceToDest(am, src, dst, lower, chosen, mappings);
  }

  lemma PairInRange(am: AutoMapper, src: seq<SchemaField>, dst: seq<SchemaField>, lower: char -> char,
                    pairs: seq<ScoredPair>, i: nat)
    requires i < |pairs| && AllCandidates(am, src, dst, lower, pairs)
    ensures pairs[i].src < |src| && pairs[i].dst < |dst|
  {
    assert IsCandidate(am, src, dst, lower, pairs[i]);
  }

  lemma GreedyStep(pairs: seq<ScoredPair>, i: nat, usedSrc: set<nat>, usedDst: set<nat>, chosen: seq<ScoredPair>)
    requires i < |pairs|
    ensures var p, rest := pairs[i], pairs[i + 1..];
            chosen + Greedy(pairs[i..], usedSrc, usedDst)
            == if p.src in usedSrc || p.dst in usedDst then chosen + Greedy(rest, usedSrc, usedDst)
               else chosen + [p] + Greedy(rest, usedSrc + {p.src}, usedDst + {p.dst})
  {
    assert pairs[i..][0] == pairs[i] && pairs[i..][1..] == pairs[i + 1..];
  }

  lemma NothingChosen(usedSrc: set<nat>, usedDst: set<nat>)
    ensures Greedy([], usedSrc, usedDst) == []
  {
  }

  lemma NothingRendered(src: seq<SchemaField>, dst: seq<SchemaField>)
    ensures Rendered(src, dst, [], [])
  {
  }

  lemma RenderOneMore(src: seq<SchemaField>, dst: seq<SchemaField>, chosen: seq<ScoredPair>,
                      mappings: seq<FieldMapping>, p: ScoredPair)
    requires Rendered(src, dst, chosen, mappings) && p.src < |src| && p.dst < |dst|
    ensures Rendered(src, dst, chosen + [p], mappings + [ToMapping(src, dst, p)])
  {
    hide ToMapping;
  }

  lemma OutcomeIs(am: AutoMapper, src: seq<SchemaField>, dst: seq<SchemaField>, lower: char -> char,
                  sorted: seq<ScoredPair>)
    requires SortedCandidates(am, src, dst, lower, sorted)
    ensures Outcome(am, src, dst, lower, Greedy(sorted, {}, {}))
  {
  }

  ghost predicate Rendered(src: seq<SchemaField>, dst: seq<SchemaField>, chosen: seq<ScoredPair>,
                           mappings: seq<FieldMapping>)
  {
    && |mappings| == |chosen|
    && forall i :: 0 <= i < |chosen| ==>
         chosen[i].src < |src| && chosen[i].dst < |dst| && mappings[i] == ToMapping(src, dst, chosen[i])
  }

  lemma ReorderedCandidates(am: AutoMapper, src: seq<SchemaField>, dst: seq<SchemaField>, lower: char -> char,
                            pairs: seq<ScoredPair>, sorted: seq<ScoredPair>)
    requires AllCandidates(am, src, dst, lower, pairs) && IsReordering(pairs, sorted)
    ensures AllCandidates(am, src, dst, lower, sorted)
  {
    forall p ensures p in sorted <==> p in pairs {
      assert p in multiset(sorted) <==> p in multiset(pairs);
    }
    forall i, j | 0 <= i < j < |sorted| ensures sorted[i] != sorted[j] {
      OnceInMultiset(pairs, sorted[i]);
      if sorted[i] == sorted[j] {
        TwiceInMultiset(sorted, i, j);
      }
    }
  }

  lemma TwiceInMultiset(s: seq<ScoredPair>, i: nat, j: nat)
    requires i < j < |s| && s[i] == s[j]
    ensures multiset(s)[s[i]] >= 2
  {
    assert s == s[..j] + [s[j]] + s[j + 1..];
    assert s[..j][i] == s[i];
  }

  lemma {:induction false} OnceInMultiset(s: seq<ScoredPair>, p: ScoredPair)
    requires Distinct(s)
    ensures multiset(s)[p] <= 1
  {
    if s != [] {
      assert s == [s[0]] + s[1..];
      OnceInMultiset(s[1..], p);
      if p == s[0] {
        assert p !in s[1..];
      }
    }
  }

  // ----- The choice is 1:1, maximal and stable -----

  lemma {:induction false} GreedyIsOneToOne(pairs: seq<ScoredPair>, usedSrc: set<nat>, usedDst: set<nat>)
    ensures var g := Greedy(pairs, usedSrc, usedDst);
            OneToOne(g) && forall p :: p in g ==> p in pairs && p.src !in usedSrc && p.dst !in usedDst
  {
    if pairs == [] {
    } else if pairs[0].src in usedSrc || pairs[0].dst in usedDst {
      GreedyIsOneToOne(pairs[1..], usedSrc, usedDst);
    } else {
      GreedyIsOneToOne(pairs[1..], usedSrc + {pairs[0].src}, usedDst + {pairs[0].dst});
      var g := Greedy(pairs[1..], usedSrc + {pairs[0].src}, usedDst + {pairs[0].dst});
      forall i | 0 <= i < |g| ensures !Clash(pairs[0], g[i]) {
        assert g[i] in g;
      }
    }
  }

  /** A pair passed over shares a field with a chosen pair scoring at least as high, or with the used fields. */
  lemma {:induction false} GreedyIsStable(pairs: seq<ScoredPair>, usedSrc: set<nat>, usedDst: set<nat>, p: ScoredPair)
    requires Descending(pairs) && p in pairs && p.src !in usedSrc && p.dst !in usedDst
    ensures exists c :: c in Greedy(pairs, usedSrc, usedDst) && Clash(c, p) && c.score >= p.score
  {
    var head := pairs[0];
    if head.src in usedSrc || head.dst in usedDst {
      GreedyIsStable(pairs[1..], usedSrc, usedDst, p);
    } else {
      var usedSrc', usedDst' := usedSrc + {head.src}, usedDst + {head.dst};
      assert head in Greedy(pairs, usedSrc, usedDst);
      if !Clash(head, p) {
        GreedyIsStable(pairs[1..], usedSrc', usedDst', p);
        var c :| c in Greedy(pairs[1..], usedSrc', usedDst') && Clash(c, p) && c.score >= p.score;
        assert c in Greedy(pairs, usedSrc, usedDst);
      }
    }
  }

  // ----- The choice is worth at least half of any 1:1 assignment -----

  ghost function Total(pairs: seq<ScoredPair>): real {
    if pairs == [] then 0.0 else pairs[0].score + Total(pairs[1..])
  }

  ghost function Key(p: ScoredPair, bySrc: bool): nat {
    if bySrc then p.src else p.dst
  }

  ghost function Without(pairs: seq<ScoredPair>, bySrc: bool, key: nat): seq<ScoredPair> {
    if pairs == [] then []
    else if Key(pairs[0], bySrc) == key then Without(pairs[1..], bySrc, key)
    else [pairs[0]] + Without(pairs[1..], bySrc, key)
  }

  lemma {:induction false} WithoutMembers(pairs: seq<ScoredPair>, bySrc: bool, key: nat)
    requires OneToOne(pairs)
    ensures var w := Without(pairs, bySrc, key);
            OneToOne(w) && forall p :: p in w <==> p in pairs && Key(p, bySrc) != key
  {
    if pairs != [] {
      var rest := pairs[1..];
      WithoutMembers(rest, bySrc, key);
      var w := Without(rest, bySrc, key);
      forall i | 0 <= i < |w| ensures !Clash(pairs[0], w[i]) {
        assert w[i] in rest;
      }
    }
  }

  lemma {:induction false} WithoutNothing(pairs: seq<ScoredPair>, bySrc: bool, key: nat)
    requires forall i :: 0 <= i < |pairs| ==> Key(pairs[i], bySrc) != key
    ensures Without(pairs, bySrc, key) == pairs
  {
    if pairs != [] {
      WithoutNothing(pairs[1..], bySrc, key);
    }
  }

  /** Dropping one field from an assignment loses at most one pair. */
  lemma {:induction false} WithoutLosesOne(pairs: seq<ScoredPair>, bySrc: bool, key: nat, bound: real)
    requires OneToOne(pairs) && bound >= 0.0
    requires forall i :: 0 <= i < |pairs| ==> pairs[i].score <= bound
    ensures Total(pairs) <= Total(Without(pairs, bySrc, key)) + bound
  {
    if pairs != [] {
      if Key(pairs[0], bySrc) == key {
        WithoutNothing(pairs[1..], bySrc, key);
      } else {
        WithoutLosesOne(pairs[1..], bySrc, key, bound);
        assert Without(pairs, bySrc, key)[1..] == Without(pairs[1..], bySrc, key);
      }
    }
  }

  ghost predicate Free(p: ScoredPair, usedSrc: set<nat>, usedDst: set<nat>) {
    p.src !in usedSrc && p.dst !in usedDst
  }

  lemma {:induction false} GreedyIsHalfOptimal(pairs: seq<ScoredPair>, usedSrc: set<nat>, usedDst: set<nat>,
                                               other: seq<ScoredPair>)
    requires Descending(pairs) && forall i :: 0 <= i < |pairs| ==> pairs[i].score >= 0.0
    requires OneToOne(other) && forall p :: p in other ==> p in pairs && Free(p, usedSrc, usedDst)
    ensures Total(other) <= 2.0 * Total(Greedy(pairs, usedSrc, usedDst))
  {
    if pairs == [] {
      assert other != [] ==> other[0] in other;
    } else {
      var head, rest := pairs[0], pairs[1..];
      if !Free(head, usedSrc, usedDst) {
        GreedyIsHalfOptimal(rest, usedSrc, usedDst, other);
      } else {
        var others := WithoutClashes(pairs, other);
        GreedyIsHalfOptimal(rest, usedSrc + {head.src}, usedDst + {head.dst}, others);
        TotalOfHead(head, Greedy(rest, usedSrc + {head.src}, usedDst + {head.dst}));
      }
    }
  }

  lemma TotalOfHead(p: ScoredPair, pairs: seq<ScoredPair>)
    ensures Total([p] + pairs) == p.score + Total(pairs)
  {
    assert ([p] + pairs)[1..] == pairs;
  }

  /** Dropping what clashes with the best pair loses at most twice its score. */
  lemma WithoutClashes(pairs: seq<ScoredPair>, other: seq<ScoredPair>) returns (neither: seq<ScoredPair>)
    requires pairs != [] && Descending(pairs) && pairs[0].score >= 0.0
    requires OneToOne(other) && forall p :: p in other ==> p in pairs
    ensures OneToOne(neither) && Total(other) <= Total(neither) + 2.0 * pairs[0].score
    ensures forall p :: p in neither ==> p in other && p in pairs[1..] && !Clash(p, pairs[0])
  {
    hide OneToOne;
    var head := pairs[0];
    var noSrc := Without(other, true, head.src);
    neither := Without(noSrc, false, head.dst);
    WithoutMembers(other, true, head.src);
    WithoutMembers(noSrc, false, head.dst);
    assert forall i :: 0 <= i < |other| ==> other[i] in other;
    assert forall i :: 0 <= i < |noSrc| ==> noSrc[i] in noSrc;
    WithoutLosesOne(other, true, head.src, head.score);
    WithoutLosesOne(noSrc, false, head.dst, head.score);
  }

  /** Every candidate shares a field with a chosen pair that scores at least as high. */
  ghost predicate Stable(am: AutoMapper, src: seq<SchemaField>, dst: seq<SchemaField>, lower: char -> char,
                         chosen: seq<ScoredPair>)
  {
    forall p :: IsCandidate(am, src, dst, lower, p) ==> exists c :: c in chosen && Clash(c, p) && c.score >= p.score
  }

  /** No 1:1 assignment of candidates is worth more than twice the choice. */
  ghost predicate HalfOptimal(am: AutoMapper, src: seq<SchemaField>, dst: seq<SchemaField>, lower: char -> char,
                              chosen: seq<ScoredPair>)
  {
    forall other: seq<ScoredPair> :: OneToOne(other) && CandidatesOnly(am, src, dst, lower, other) ==>
      Total(other) <= 2.0 * Total(chosen)
  }

  /** The guarantees of matchFields for any tie order: fields are used once, a rejected candidate
      lost a field to a chosen one scoring at least as high, and with weights that are not
      negative the total is at least half that of any 1:1 assignment of candidates. */
  lemma MatchFieldsGuarantees(am: AutoMapper, src: seq<SchemaField>, dst: seq<SchemaField>, lower: char -> char,
                              chosen: seq<ScoredPair>)
    requires Outcome(am, src, dst, lower, chosen)
    ensures OneToOne(chosen) && CandidatesOnly(am, src, dst, lower, chosen)
    ensures Stable(am, src, dst, lower, chosen)
    ensures am.nameWeight >= 0.0 && am.typeWeight >= 0.0 ==> HalfOptimal(am, src, dst, lower, chosen)
  {
    hide AllCandidates, IsCandidate, Total, Greedy, OneToOne, Stable, HalfOptimal;
    var sorted: seq<ScoredPair> :| SortedCandidates(am, src, dst, lower, sorted) && chosen == Greedy(sorted, {}, {});
    GreedyIsOneToOne(sorted, {}, {});
    CandidatesAreListed(am, src, dst, lower, sorted);
    ChoiceIsStable(am, src, dst, lower, sorted);
    if am.nameWeight >= 0.0 && am.typeWeight >= 0.0 {
      ChoiceIsHalfOptimal(am, src, dst, lower, sorted);
    }
  }

  lemma ChoiceIsStable(am: AutoMapper, src: seq<SchemaField>, dst: seq<SchemaField>, lower: char -> char,
                       sorted: seq<ScoredPair>)
    requires SortedCandidates(am, src, dst, lower, sorted)
    ensures Stable(am, src, dst, lower, Greedy(sorted, {}, {}))
  {
    hide AllCandidates, IsCandidate, Greedy, Descending;
    CandidatesAreListed(am, src, dst, lower, sorted);
    forall p | IsCandidate(am, src, dst, lower, p)
      ensures exists c :: c in Greedy(sorted, {}, {}) && Clash(c, p) && c.score >= p.score
    {
      GreedyIsStable(sorted, {}, {}, p);
    }
  }

  lemma ChoiceIsHalfOptimal(am: AutoMapper, src: seq<SchemaField>, dst: seq<SchemaField>, lower: char -> char,
                            sorted: seq<ScoredPair>)
    requires SortedCandidates(am, src, dst, lower, sorted) && am.nameWeight >= 0.0 && am.typeWeight >= 0.0
    ensures HalfOptimal(am, src, dst, lower, Greedy(sorted, {}, {}))
  {
    hide AllCandidates, IsCandidate, Greedy, Descending, Total, OneToOne;
    CandidatesAreListed(am, src, dst, lower, sorted);
    forall other: seq<ScoredPair> | OneToOne(other) && CandidatesOnly(am, src, dst, lower, other)
      ensures Total(other) <= 2.0 * Total(Greedy(sorted, {}, {}))
    {
      GreedyIsHalfOptimal(sorted, {}, {}, other);
    }
  }

  lemma CandidatesAreListed(am: AutoMapper, src: seq<SchemaField>, dst: seq<SchemaField>, lower: char -> char,
                            sorted: seq<ScoredPair>)
    requires AllCandidates(am, src, dst, lower, sorted)
    ensures forall p :: p in sorted <==> IsCandidate(am, src, dst, lower, p)
    ensures am.nameWeight >= 0.0 && am.typeWeight >= 0.0 ==> forall i :: 0 <= i < |sorted| ==> sorted[i].score >= 0.0
  {
    hide FieldScore;
    if am.nameWeight >= 0.0 && am.typeWeight >= 0.0 {
      forall i | 0 <= i < |sorted| ensures sorted[i].score >= 0.0 {
        var p := sorted[i];
        assert IsCandidate(am, src, dst, lower, p);
        ScoreIsNotNegative(am, src[p.src], dst[p.dst], lower);
      }
    }
  }

  /** Three pairs of one score, the first of which clashes with the others: the greedy choice takes
      the first and loses both. */
  lemma FirstOfThree(p: ScoredPair, q: ScoredPair, r: ScoredPair)
    requires p == ScoredPair(0, 0, p.score) && q == ScoredPair(0, 1, p.score) && r == ScoredPair(1, 0, p.score)
    ensures Greedy([p, q, r], {}, {}) == [p] && Descending([p, q, r]) && OneToOne([q, r])
    ensures Total([q, r]) == 2.0 * p.score && Total([p]) == p.score
  {
    assert [p, q, r][1..] == [q, r] && [q, r][1..] == [r];
    var s: set<nat>, d: set<nat> := {0}, {0};
    assert Greedy([r], s, d) == [];
    assert Greedy([q, r], s, d) == [];
    assert Greedy([p, q, r], {}, {}) == [p] + Greedy([q, r], {} + {0}, {} + {0});
    assert {} + {0} == s;
    assert Total([q, r]) == q.score + Total([r]);
    assert Total([r]) == r.score + Total([]);
    assert Total([p]) == p.score + Total([]);
  }

  const TYPE_MAPPER := AutoMapper(0.3, 1.0, 0.0)
  const TIGHT_SOURCE := [SchemaField("$.a", "string", "a"), SchemaField("$.b", "boolean", "b")]
  const TIGHT_DEST := [SchemaField("$.c", "integer", "c"), SchemaField("$.d", "number", "d")]

  lemma TypeScores(lower: char -> char, p: ScoredPair)
    ensures IsCandidate(TYPE_MAPPER, TIGHT_SOURCE, TIGHT_DEST, lower, p)
            <==> p in {ScoredPair(0, 0, 0.3), ScoredPair(0, 1, 0.3), ScoredPair(1, 0, 0.3)}
  {
    hide Similarity;
    if p.src < 2 && p.dst < 2 {
      var src, dst := TIGHT_SOURCE[p.src], TIGHT_DEST[p.dst];
      var byName := Similarity(src.name, dst.name, lower);
      assert 0.0 * byName == 0.0;
      assert FieldScore(TYPE_MAPPER, src, dst, lower) == TypeCompatibility(src.typ, dst.typ);
    }
  }

  /** One half is the best factor: for these fields, and a mapper that goes by types, a choice that
      the tie order allows is worth exactly half of another assignment of candidates. */
  lemma HalfIsTight(lower: char -> char)
    ensures var p, other := ScoredPair(0, 0, 0.3), [ScoredPair(0, 1, 0.3), ScoredPair(1, 0, 0.3)];
            && Outcome(TYPE_MAPPER, TIGHT_SOURCE, TIGHT_DEST, lower, [p])
            && OneToOne(other) && CandidatesOnly(TYPE_MAPPER, TIGHT_SOURCE, TIGHT_DEST, lower, other)
            && Total(other) == 2.0 * Total([p]) > 0.0
  {
    hide IsCandidate, Greedy, Total;
    var p, q, r := ScoredPair(0, 0, 0.3), ScoredPair(0, 1, 0.3), ScoredPair(1, 0, 0.3);
    FirstOfThree(p, q, r);
    forall c ensures IsCandidate(TYPE_MAPPER, TIGHT_SOURCE, TIGHT_DEST, lower, c) <==> c in [p, q, r] {
      TypeScores(lower, c);
    }
    assert SortedCandidates(TYPE_MAPPER, TIGHT_SOURCE, TIGHT_DEST, lower, [p, q, r]);
  }

  // ----- What the mappings say -----

  /** Two decimals, the nearest to the number, and of two nearest the one away from zero. */
  ghost predicate IsRounded(confidence: real, score: real) {
    && (confidence * 100.0).Floor as real == confidence * 100.0
    && (score >= 0.0 ==> confidence - 0.005 <= score < confidence + 0.005)
    && (score < 0.0 ==> confidence - 0.005 < score <= confidence + 0.005)
  }

  /** The transform makes a value of one type into the destination's; there is none unless two types
      are named that differ. Text is read as a float even for an integer. */
  ghost predicate Converts(transform: string, from: string, dest: string) {
    && (transform != "" ==> from != "" && dest != "" && from != dest)
    && (from != "" && from != dest ==>
          && (dest == "string" <==> transform == "to_string")
          && (dest == "boolean" <==> transform == "to_bool")
          && (dest == "number" || (dest == "integer" && from == "string") <==> transform == "to_float")
          && (dest == "integer" && from != "string" <==> transform == "to_int"))
    && transform in {"", "to_string", "to_bool", "to_float", "to_int"}
  }

  /** The mapping takes one field to another that scores high enough. */
  ghost predicate Describes(am: AutoMapper, sf: SchemaField, df: SchemaField, lower: char -> char, m: FieldMapping) {
    && m.sourceField == sf.path && m.destField == df.path && m.autoMatched
    && FieldScore(am, sf, df, lower) >= am.minConfidence && IsRounded(m.confidence, FieldScore(am, sf, df, lower))
    && Converts(m.transform, sf.typ, df.typ)
  }

  ghost predicate DistinctPaths(fields: seq<SchemaField>) {
    forall i, j | 0 <= i < j < |fields| :: fields[i].path != fields[j].path
  }

  /** Each mapping takes a source field to a destination field. */
  ghost predicate SourceToDest(am: AutoMapper, src: seq<SchemaField>, dst: seq<SchemaField>, lower: char -> char,
                               mappings: seq<FieldMapping>)
  {
    forall m :: m in mappings ==>
      exists i, j :: 0 <= i < |src| && 0 <= j < |dst| && Describes(am, src[i], dst[j], lower, m)
  }

  /** No path is used twice on either side. */
  ghost predicate PathsOnce(mappings: seq<FieldMapping>) {
    forall i, j | 0 <= i < j < |mappings| ::
      mappings[i].sourceField != mappings[j].sourceField && mappings[i].destField != mappings[j].destField
  }

  lemma RoundCentsRounds(x: real)
    ensures IsRounded(RoundCents(x), x)
  {
    var n := if x >= 0.0 then (x * 100.0 + 0.5).Floor else -((-x * 100.0 + 0.5).Floor);
    assert RoundCents(x) * 100.0 == n as real;
  }

  lemma TransformConverts(sf: SchemaField, df: SchemaField)
    ensures Converts(Transform(sf, df), sf.typ, df.typ)
  {
  }

  lemma MappingDescribes(am: AutoMapper, src: seq<SchemaField>, dst: seq<SchemaField>, lower: char -> char,
                         p: ScoredPair)
    requires IsCandidate(am, src, dst, lower, p)
    ensures Describes(am, src[p.src], dst[p.dst], lower, ToMapping(src, dst, p))
  {
    hide FieldScore, RoundCents, IsRounded, Converts, Transform;
    RoundCentsRounds(p.score);
    TransformConverts(src[p.src], dst[p.dst]);
  }

  /** Each mapping takes a source field to a destination field, and if paths are distinct no path is used
      twice on either side. */
  lemma MappingsTakeSourceToDest(am: AutoMapper, src: seq<SchemaField>, dst: seq<SchemaField>, lower: char -> char,
                                 chosen: seq<ScoredPair>, mappings: seq<FieldMapping>)
    requires Outcome(am, src, dst, lower, chosen) && Rendered(src, dst, chosen, mappings)
    ensures SourceToDest(am, src, dst, lower, mappings)
    ensures DistinctPaths(src) && DistinctPaths(dst) ==> PathsOnce(mappings)
  {
    hide Describes, Outcome, Stable, HalfOptimal, FieldScore;
    MatchFieldsGuarantees(am, src, dst, lower, chosen);
    forall m | m in mappings
      ensures exists i, j :: 0 <= i < |src| && 0 <= j < |dst| && Describes(am, src[i], dst[j], lower, m)
    {
      var k :| 0 <= k < |mappings| && mappings[k] == m;
      var p := chosen[k];
      assert IsCandidate(am, src, dst, lower, p);
      MappingDescribes(am, src, dst, lower, p);
      assert Describes(am, src[p.src], dst[p.dst], lower, m);
    }
    if DistinctPaths(src) && DistinctPaths(dst) {
      forall i, j | 0 <= i < j < |mappings|
        ensures mappings[i].sourceField != mappings[j].sourceField && mappings[i].destField != mappings[j].destField
      {
        assert !Clash(chosen[i], chosen[j]);
      }
    }
  }

  // ----- What the scores say -----

  /** The score is the weighted sum: the name weight counts the similarity of the names, the type weight
      that of the types. */
  lemma ScoreByWeight(am: AutoMapper, sf: SchemaField, df: SchemaField, lower: char -> char)
    ensures FieldScore(am.(nameWeight := 1.0, typeWeight := 0.0), sf, df, lower) == Similarity(sf.name, df.name, lower)
    ensures FieldScore(am.(nameWeight := 0.0, typeWeight := 1.0), sf, df, lower) == TypeCompatibility(sf.typ, df.typ)
    ensures NormalizeName(sf.name, lower) == NormalizeName(df.name, lower) ==>
              FieldScore(am, sf, df, lower) == am.nameWeight + am.typeWeight * TypeCompatibility(sf.typ, df.typ)
    ensures sf.typ == df.typ ==>
              FieldScore(am, sf, df, lower) == am.nameWeight * Similarity(sf.name, df.name, lower) + am.typeWeight
  {
    hide Similarity, TypeCompatibility;
    SimilarityBounds(sf.name, df.name, lower);
  }

  /** Only equal types are fully compatible. An integer is worth most for a number, and a number for an
      integer; any type is better turned into a string than made from one, and a flag and an integer are as
      bad as that. All other pairs count nothing. */
  lemma TypesByCompatibility(a: string, b: string)
    ensures TypeCompatibility(a, b) == 1.0 <==> a == b
    ensures TypeCompatibility(a, b) == 0.9 <==> a == "integer" && b == "number"
    ensures TypeCompatibility(a, b) == 0.7 <==> a == "number" && b == "integer"
    ensures TypeCompatibility(a, b) == 0.5 <==> a in {"integer", "number"} && b == "string"
    ensures TypeCompatibility(a, b) == 0.4 <==> a == "boolean" && b == "string"
    ensures TypeCompatibility(a, b) == 0.3 <==>
              || (a == "string" && b in {"integer", "number", "boolean"})
              || (a != b && {a, b} == {"integer", "boolean"})
    ensures TypeCompatibility(a, b) in {1.0, 0.9, 0.7, 0.5, 0.4, 0.3, 0.0}
    ensures a in {"integer", "number", "boolean"} ==> TypeCompatibility("string", a) < TypeCompatibility(a, "string")
  {
  }
}
