/** levenshteinDistance and nameSimilarity of the auto-mapper. */
module EditDistance {
  import opened Arithmetic

  type Text = seq<char>

  function Cost(x: char, y: char): int {
    if x == y then 0 else 1
  }

  function Front(a: Text): Text
    requires a != []
  {
    a[..|a| - 1]
  }

  function Last(a: Text): char
    requires a != []
  {
    a[|a| - 1]
  }

  /** The recursive edit distance: delete, insert or substitute a last character. */
  function Distance(a: Text, b: Text): nat
    decreases |a| + |b|
  {
    if a == [] then |b|
    else if b == [] then |a|
    else
      var del := Distance(Front(a), b) + 1;
      var ins := Distance(a, Front(b)) + 1;
      var sub := Distance(Front(a), Front(b)) + Cost(Last(a), Last(b));
      Min(del, Min(ins, sub))
  }

  // ----- The two-row table -----

  /** The dynamic program over two rows, with the shorter text across. */
  method LevenshteinDistance(a: Text, b: Text) returns (d: nat)
    ensures d == Distance(a, b)
  {
    hide Distance;
    EmptyDistance(a, b);
    var ra, rb := a, b;
    if |ra| == 0 {
      return |rb|;
    }
    if |rb| == 0 {
      return |ra|;
    }
    if |ra| > |rb| {
      DistanceIsSymmetric(ra, rb);
      ra, rb := rb, ra;
    }
    var la, lb := |ra|, |rb|;
    var prev := new nat[la + 1](i => 0);
    var curr := new nat[la + 1](i => 0);
    for i := 0 to la + 1
      invariant forall k :: 0 <= k < i ==> prev[k] == k
    {
      prev[i] := i;
    }
    forall k | 0 <= k <= la ensures Cell(ra, rb, k, 0) == k {
      EmptyDistance(ra[..k], rb[..0]);
    }
    for j := 1 to lb + 1
      invariant prev != curr && prev.Length == curr.Length == la + 1
      invariant fresh(prev) && fresh(curr)
      invariant forall k :: 0 <= k <= la ==> prev[k] == Cell(ra, rb, k, j - 1)
    {
      curr[0] := j;
      EmptyDistance(ra[..0], rb[..j]);
      for i := 1 to la + 1
        invariant forall k :: 0 <= k <= la ==> prev[k] == Cell(ra, rb, k, j - 1)
        invariant forall k :: 0 <= k < i ==> curr[k] == Cell(ra, rb, k, j)
      {
        var cost := 1;
        if ra[i - 1] == rb[j - 1] {
          cost := 0;
        }
        var ins := curr[i - 1] + 1;
        var del := prev[i] + 1;
        var sub := prev[i - 1] + cost;
        var least := ins;
        if del < least {
          least := del;
        }
        if sub < least {
          least := sub;
        }
        NextCell(ra, rb, i, j);
        curr[i] := least;
      }
      prev, curr := curr, prev;
    }
    assert ra[..la] == ra && rb[..lb] == rb;
    return prev[la];
  }

  lemma EmptyDistance(a: Text, b: Text)
    ensures a == [] ==> Distance(a, b) == |b|
    ensures b == [] ==> Distance(a, b) == |a|
  {
  }

  /** The table entry for the first i and the first j characters. */
  ghost function Cell(a: Text, b: Text, i: nat, j: nat): nat
    requires i <= |a| && j <= |b|
  {
    Distance(a[..i], b[..j])
  }

  lemma NextCell(a: Text, b: Text, i: nat, j: nat)
    requires 0 < i <= |a| && 0 < j <= |b|
    ensures Cell(a, b, i, j) == Min(Cell(a, b, i - 1, j) + 1,
                                    Min(Cell(a, b, i, j - 1) + 1, Cell(a, b, i - 1, j - 1) + Cost(a[i - 1], b[j - 1])))
  {
    assert Front(a[..i]) == a[..i - 1];
    assert Front(b[..j]) == b[..j - 1];
  }

  // ----- The distance is a metric -----

  lemma {:induction false} DistanceIsSymmetric(a: Text, b: Text)
    ensures Distance(a, b) == Distance(b, a)
    decreases |a| + |b|
  {
    if a != [] && b != [] {
      DistanceIsSymmetric(Front(a), b);
      DistanceIsSymmetric(a, Front(b));
      DistanceIsSymmetric(Front(a), Front(b));
    }
  }

  lemma {:induction false} DistanceBounds(a: Text, b: Text)
    ensures |a| - |b| <= Distance(a, b) && |b| - |a| <= Distance(a, b) <= Max(|a|, |b|)
    decreases |a| + |b|
  {
    if a != [] && b != [] {
      DistanceBounds(Front(a), b);
      DistanceBounds(a, Front(b));
      DistanceBounds(Front(a), Front(b));
    }
  }

  lemma {:induction false} DistanceZero(a: Text, b: Text)
    ensures Distance(a, b) == 0 <==> a == b
    decreases |a| + |b|
  {
    if a != [] && b != [] {
      DistanceZero(Front(a), Front(b));
      assert a == Front(a) + [Last(a)] && b == Front(b) + [Last(b)];
    }
  }

  /** The distance is one more than that of shorter texts, or carries over a kept last character. */
  lemma LastStep(a: Text, b: Text)
    ensures a == [] && b == [] ==> Distance(a, b) == 0
    ensures a == [] && b != [] ==> Distance(a, b) == Distance(a, Front(b)) + 1
    ensures a != [] && b == [] ==> Distance(a, b) == Distance(Front(a), b) + 1
    ensures a != [] && b != [] ==>
              || Distance(a, b) == Distance(a, Front(b)) + 1
              || Distance(a, b) == Distance(Front(a), b) + 1
              || Distance(a, b) == Distance(Front(a), Front(b)) + Cost(Last(a), Last(b))
  {
  }

  /** The distance is no more than that of shorter texts and the last edit. */
  lemma AtMostOneMore(a: Text, b: Text)
    requires a != [] && b != []
    ensures Distance(a, b) <= Distance(Front(a), b) + 1
    ensures Distance(a, b) <= Distance(a, Front(b)) + 1
    ensures Distance(a, b) <= Distance(Front(a), Front(b)) + Cost(Last(a), Last(b))
  {
  }

  lemma {:induction false} TriangleInequality(a: Text, b: Text, c: Text)
    ensures Distance(a, c) <= Distance(a, b) + Distance(b, c)
    decreases |a| + |b| + |c|
  {
    hide Distance;
    if a == [] || b == [] || c == [] {
      DistanceBounds(a, b);
      DistanceBounds(b, c);
      DistanceBounds(a, c);
    } else {
      LastStep(a, b);
      LastStep(b, c);
      AtMostOneMore(a, c);
      TriangleInequality(Front(a), b, c);
      TriangleInequality(a, b, Front(c));
      TriangleInequality(a, Front(b), c);
      TriangleInequality(a, Front(b), Front(c));
      TriangleInequality(Front(a), Front(b), c);
      TriangleInequality(Front(a), Front(b), Front(c));
    }
  }

  // ----- The distance is the least number of edits -----

  ghost predicate Deletes(a: Text, b: Text, i: int) {
    0 <= i < |a| && b == a[..i] + a[i + 1..]
  }

  ghost predicate Inserts(a: Text, b: Text, i: int, x: char) {
    0 <= i <= |a| && b == a[..i] + [x] + a[i..]
  }

  ghost predicate Replaces(a: Text, b: Text, i: int, x: char) {
    0 <= i < |a| && b == a[..i] + [x] + a[i + 1..]
  }

  /** b is a with one character deleted, inserted or replaced. */
  ghost predicate OneEdit(a: Text, b: Text) {
    || (exists i :: Deletes(a, b, i))
    || (exists i, x :: Inserts(a, b, i, x))
    || (exists i, x :: Replaces(a, b, i, x))
  }

  /** A chain of texts, each one edit from the text before. */
  ghost predicate Chain(texts: seq<Text>) {
    texts != [] && forall i :: 0 < i < |texts| ==> OneEdit(texts[i - 1], texts[i])
  }

  lemma {:induction false} SharedSuffix(a: Text, b: Text, s: Text)
    ensures Distance(a + s, b + s) <= Distance(a, b)
  {
    hide Distance;
    if s == [] {
      assert a + s == a && b + s == b;
    } else {
      SharedSuffix(a, b, Front(s));
      AtMostOneMore(a + s, b + s);
      assert Front(a + s) == a + Front(s) && Front(b + s) == b + Front(s);
    }
  }

  lemma OneEditIsClose(a: Text, b: Text)
    requires OneEdit(a, b)
    ensures Distance(a, b) <= 1
  {
    hide Distance, Deletes, Inserts, Replaces;
    if i :| Deletes(a, b, i) {
      DeleteIsClose(a, b, i);
    } else if i, x :| Inserts(a, b, i, x) {
      InsertIsClose(a, b, i, x);
    } else {
      var i, x :| Replaces(a, b, i, x);
      ReplaceIsClose(a, b, i, x);
    }
  }

  lemma DeleteIsClose(a: Text, b: Text, i: int)
    requires Deletes(a, b, i)
    ensures Distance(a, b) <= 1
  {
    hide Distance;
    ExtraCharacter(a[..i], a[i]);
    SharedSuffix(a[..i] + [a[i]], a[..i], a[i + 1..]);
    assert a == a[..i] + [a[i]] + a[i + 1..];
  }

  lemma InsertIsClose(a: Text, b: Text, i: int, x: char)
    requires Inserts(a, b, i, x)
    ensures Distance(a, b) <= 1
  {
    hide Distance;
    ExtraCharacter(a[..i], x);
    SharedSuffix(a[..i], a[..i] + [x], a[i..]);
    assert a == a[..i] + a[i..];
  }

  lemma ReplaceIsClose(a: Text, b: Text, i: int, x: char)
    requires Replaces(a, b, i, x)
    ensures Distance(a, b) <= 1
  {
    hide Distance;
    OtherLast(a[..i], a[i], x);
    SharedSuffix(a[..i] + [a[i]], a[..i] + [x], a[i + 1..]);
    assert a == a[..i] + [a[i]] + a[i + 1..];
  }

  lemma OtherLast(p: Text, x: char, y: char)
    ensures Distance(p + [x], p + [y]) <= 1
  {
    DistanceZero(p, p);
    assert Front(p + [x]) == p && Front(p + [y]) == p;
  }

  lemma ExtraCharacter(a: Text, x: char)
    ensures Distance(a + [x], a) <= 1 && Distance(a, a + [x]) <= 1
  {
    DistanceZero(a, a);
    assert Front(a + [x]) == a;
    DistanceIsSymmetric(a, a + [x]);
  }

  /** No chain of edits from a to b is shorter than the distance. */
  lemma {:induction false} NoShorterChain(texts: seq<Text>)
    requires Chain(texts)
    ensures Distance(texts[0], texts[|texts| - 1]) <= |texts| - 1
  {
    var n := |texts| - 1;
    if n == 0 {
      DistanceZero(texts[0], texts[0]);
    } else {
      NoShorterChain(texts[..n]);
      OneEditIsClose(texts[n - 1], texts[n]);
      TriangleInequality(texts[0], texts[n - 1], texts[n]);
    }
  }

  lemma ExtendChain(texts: seq<Text>, b: Text)
    requires Chain(texts) && OneEdit(texts[|texts| - 1], b)
    ensures Chain(texts + [b])
  {
  }

  lemma PrependChain(a: Text, texts: seq<Text>)
    requires Chain(texts) && OneEdit(a, texts[0])
    ensures Chain([a] + texts)
  {
  }

  lemma SingleChain(a: Text) returns (texts: seq<Text>)
    ensures Chain(texts) && texts == [a]
  {
    texts := [a];
  }

  /** Some chain of edits from a to b has exactly the distance. */
  lemma {:induction false} ShortestChain(a: Text, b: Text) returns (texts: seq<Text>)
    ensures Chain(texts) && texts[0] == a && texts[|texts| - 1] == b
    ensures |texts| - 1 == Distance(a, b)
    decreases |a| + |b|
  {
    hide OneEdit, Chain, Distance;
    LastStep(a, b);
    if a == [] && b == [] {
      texts := SingleChain(a);
    } else if b != [] && (a == [] || Distance(a, b) == Distance(a, Front(b)) + 1) {
      texts := ShortestChain(a, Front(b));
      InsertLast(b);
      ExtendChain(texts, b);
      texts := texts + [b];
    } else if b == [] || Distance(a, b) == Distance(Front(a), b) + 1 {
      texts := ShortestChain(Front(a), b);
      DeleteLast(a);
      PrependChain(a, texts);
      texts := [a] + texts;
    } else {
      var before := ShortestChain(Front(a), Front(b));
      texts := KeepLast(before, Last(a));
      assert a == Front(a) + [Last(a)] && b == Front(b) + [Last(b)];
      if Last(a) != Last(b) {
        ReplaceLast(Front(b), Last(a), Last(b));
        ExtendChain(texts, b);
        texts := texts + [b];
      }
    }
  }

  lemma InsertLast(b: Text)
    requires b != []
    ensures OneEdit(Front(b), b)
  {
    assert Inserts(Front(b), b, |b| - 1, Last(b));
  }

  lemma DeleteLast(a: Text)
    requires a != []
    ensures OneEdit(a, Front(a))
  {
    assert Deletes(a, Front(a), |a| - 1);
  }

  lemma ReplaceLast(p: Text, x: char, y: char)
    ensures OneEdit(p + [x], p + [y])
  {
    assert Replaces(p + [x], p + [y], |p|, y);
  }

  /** A chain with the same character kept at the end of every text. */
  lemma KeepLast(texts: seq<Text>, x: char) returns (longer: seq<Text>)
    requires Chain(texts)
    ensures Chain(longer) && |longer| == |texts|
    ensures longer[0] == texts[0] + [x] && longer[|longer| - 1] == texts[|texts| - 1] + [x]
  {
    longer := seq(|texts|, i requires 0 <= i < |texts| => texts[i] + [x]);
    forall i | 0 < i < |texts| ensures OneEdit(longer[i - 1], longer[i]) {
      OneEditKeepsLast(texts[i - 1], texts[i], x);
    }
  }

  lemma OneEditKeepsLast(a: Text, b: Text, z: char)
    requires OneEdit(a, b)
    ensures OneEdit(a + [z], b + [z])
  {
    var a', b' := a + [z], b + [z];
    if i :| Deletes(a, b, i) {
      assert a'[..i] == a[..i] && a'[i + 1..] == a[i + 1..] + [z];
      assert Deletes(a', b', i);
    } else if i, x :| Inserts(a, b, i, x) {
      assert a'[..i] == a[..i] && a'[i..] == a[i..] + [z];
      assert Inserts(a', b', i, x);
    } else {
      var i, x :| Replaces(a, b, i, x);
      assert a'[..i] == a[..i] && a'[i + 1..] == a[i + 1..] + [z];
      assert Replaces(a', b', i, x);
    }
  }

  // ----- Name similarity -----

  /** Drops the separators and lower-cases the rest with unicode.ToLower, given as lower. */
  function NormalizeName(name: Text, lower: char -> char): Text {
    if name == [] then []
    else if name[0] in {'_', '-', '.', ' '} then NormalizeName(name[1..], lower)
    else [lower(name[0])] + NormalizeName(name[1..], lower)
  }

  function Utf8Width(c: char): nat {
    var u := c as int;
    if u < 0x80 then 1 else if u < 0x800 then 2 else if u < 0x1_0000 then 3 else 4
  }

  /** len of a Go string: its length in bytes. */
  function ByteLength(s: Text): nat {
    if s == [] then 0 else Utf8Width(s[0]) + ByteLength(s[1..])
  }

  /** One minus the distance, counted in characters, over the longer length, counted in bytes. */
  method NameSimilarity(a: Text, b: Text, lower: char -> char) returns (r: real)
    ensures 0.0 <= r <= 1.0
    ensures r == 1.0 <==> NormalizeName(a, lower) == NormalizeName(b, lower)
    ensures r == Similarity(a, b, lower)
  {
    var na, nb := NormalizeName(a, lower), NormalizeName(b, lower);
    SimilarityBounds(a, b, lower);
    if na == nb {
      return 1.0;
    }
    if na == [] || nb == [] {
      return 0.0;
    }
    var dist := LevenshteinDistance(na, nb);
    var maxLen := ByteLength(na);
    if ByteLength(nb) > maxLen {
      maxLen := ByteLength(nb);
    }
    BytesCoverCharacters(na);
    r := 1.0 - dist as real / maxLen as real;
  }

  function Similarity(a: Text, b: Text, lower: char -> char): real {
    var na, nb := NormalizeName(a, lower), NormalizeName(b, lower);
    if na == nb then 1.0
    else if na == [] || nb == [] then 0.0
    else
      BytesCoverCharacters(na);
      1.0 - Distance(na, nb) as real / Max(ByteLength(na), ByteLength(nb)) as real
  }

  lemma {:induction false} BytesCoverCharacters(s: Text)
    ensures |s| <= ByteLength(s)
  {
    if s != [] {
      BytesCoverCharacters(s[1..]);
    }
  }

  /** The similarity is in [0, 1], is 1 just on names that normalise alike, and does not depend on the order. */
  lemma SimilarityBounds(a: Text, b: Text, lower: char -> char)
    ensures 0.0 <= Similarity(a, b, lower) <= 1.0
    ensures Similarity(a, b, lower) == 1.0 <==> NormalizeName(a, lower) == NormalizeName(b, lower)
    ensures Similarity(a, b, lower) == Similarity(b, a, lower)
  {
    var na, nb := NormalizeName(a, lower), NormalizeName(b, lower);
    if na != nb && na != [] && nb != [] {
      BytesCoverCharacters(na);
      BytesCoverCharacters(nb);
      DistanceBounds(na, nb);
      DistanceZero(na, nb);
      DistanceIsSymmetric(na, nb);
      FractionBounds(Distance(na, nb), Max(ByteLength(na), ByteLength(nb)));
    }
  }

  lemma FractionBounds(n: nat, d: nat)
    requires 0 < n <= d
    ensures 0.0 < n as real / d as real <= 1.0
  {
  }

  // ----- What counts in a name -----

  lemma {:induction false} NormalizedSum(a: Text, b: Text, lower: char -> char)
    ensures NormalizeName(a + b, lower) == NormalizeName(a, lower) + NormalizeName(b, lower)
  {
    if a == [] {
      assert a + b == b;
    } else {
      assert (a + b)[0] == a[0] && (a + b)[1..] == a[1..] + b;
      NormalizedSum(a[1..], b, lower);
    }
  }

  /** Underscores, hyphens, dots and spaces do not count wherever they stand in a name, and every other
      character counts by its lower case. */
  lemma CharacterCounts(a: Text, c: char, b: Text, lower: char -> char)
    ensures NormalizeName(a + [c] + b, lower)
            == if c == '_' || c == '-' || c == '.' || c == ' ' then NormalizeName(a + b, lower)
               else NormalizeName(a, lower) + [lower(c)] + NormalizeName(b, lower)
  {
    NormalizedSum(a + [c], b, lower);
    NormalizedSum(a, [c], lower);
    NormalizedSum(a, b, lower);
    OneCharacter(c, lower);
    assert NormalizeName(a, lower) + [] == NormalizeName(a, lower);
  }

  lemma OneCharacter(c: char, lower: char -> char)
    ensures NormalizeName([c], lower) == if c == '_' || c == '-' || c == '.' || c == ' ' then [] else [lower(c)]
  {
    assert [c][1..] == [];
  }

  /** The same names in different styles. */
  lemma StylesAreAlike(lower: char -> char)
    requires lower('I') == 'i' && lower('D') == 'd' && forall c :: 'a' <= c <= 'z' ==> lower(c) == c
    ensures Similarity("user_ID", "user-id", lower) == 1.0 && Similarity("user.id", "userid", lower) == 1.0
  {
    CharacterCounts("user", '_', "ID", lower);
    CharacterCounts("user", '-', "id", lower);
    CharacterCounts("user", '.', "id", lower);
    assert "user" + ['_'] + "ID" == "user_ID" && "user" + ['-'] + "id" == "user-id";
    assert "user" + ['.'] + "id" == "user.id" && "user" + "id" == "userid";
    NormalizedSum("user", "ID", lower);
    NormalizedSum("user", "id", lower);
    NormalizedSum("I", "D", lower);
    NormalizedSum("i", "d", lower);
    assert "I" + "D" == "ID" && "i" + "d" == "id";
    OneCharacter('I', lower);
    OneCharacter('D', lower);
    OneCharacter('i', lower);
    OneCharacter('d', lower);
  }

  /** Two names of one character each, the longer of two bytes: one edit over two bytes. */
  lemma BytesAreTheLength(lower: char -> char)
    requires lower('\U{e9}') == '\U{e9}' && lower('e') == 'e'
    ensures Similarity(['\U{e9}'], "e", lower) == 0.5
  {
    OneCharacter('\U{e9}', lower);
    OneCharacter('e', lower);
    OneSubstitution('\U{e9}', 'e');
    assert ['\U{e9}'][1..] == [] && "e"[1..] == [];
    assert ByteLength(['\U{e9}']) == 2 && ByteLength("e") == 1;
  }

  lemma OneSubstitution(x: char, y: char)
    requires x != y
    ensures Distance([x], [y]) == 1
  {
    assert Front([x]) == [] && Front([y]) == [];
  }

  /** A name of which nothing is left is not similar to any other. */
  lemma NothingLeft(a: Text, b: Text, lower: char -> char)
    requires (NormalizeName(a, lower) == []) != (NormalizeName(b, lower) == [])
    ensures Similarity(a, b, lower) == 0.0
  {
  }

  /** The first and the last characters of each width in UTF-8, as section 3 of RFC 3629 has them. */
  lemma WidthsOfCharacters()
    ensures Utf8Width('\U{0}') == 1 && Utf8Width('\U{7f}') == 1
    ensures Utf8Width('\U{80}') == 2 && Utf8Width('\U{7ff}') == 2
    ensures Utf8Width('\U{800}') == 3 && Utf8Width('\U{ffff}') == 3
    ensures Utf8Width('\U{10000}') == 4 && Utf8Width('\U{10ffff}') == 4
    ensures forall a, b: char :: a <= b ==> Utf8Width(a) <= Utf8Width(b)
  {
  }
}
