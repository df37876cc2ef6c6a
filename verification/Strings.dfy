/** The few functions of Go's strings and strconv packages that the modelled code calls. */
module Strings {
  import opened Arithmetic
  import opened Outcomes

  /** unicode.IsSpace: the characters with Unicode's White_Space property. */
  predicate IsSpace(c: char) {
    var u := c as int;
    9 <= u <= 13 || u == 32 || u == 0x85 || u == 0xA0 || u == 0x1680 || 0x2000 <= u <= 0x200A
    || u == 0x2028 || u == 0x2029 || u == 0x202F || u == 0x205F || u == 0x3000
  }

  predicate IsAsciiDigit(c: char) {
    '0' <= c <= '9'
  }

  /** The position of the first c in s, or |s|. */
  function IndexOf(s: string, c: char): (i: nat)
    ensures i <= |s| && c !in s[..i] && (i < |s| ==> s[i] == c)
  {
    if s == "" || s[0] == c then 0
    else
      var j := IndexOf(s[1..], c);
      assert s[..1 + j] == [s[0]] + s[1..][..j];
      1 + j
  }

  /** strings.Split on a one-character separator. */
  function Split(s: string, sep: char): (parts: seq<string>)
    ensures |parts| > 0
  {
    var i := IndexOf(s, sep);
    if i == |s| then [s] else [s[..i]] + Split(s[i + 1..], sep)
  }

  function Join(parts: seq<string>, sep: char): string {
    if |parts| == 0 then ""
    else if |parts| == 1 then parts[0]
    else parts[0] + [sep] + Join(parts[1..], sep)
  }

  /** The length of the leading run of characters that are not white space. */
  function WordEnd(s: string): (i: nat)
    ensures i <= |s|
    ensures forall k :: 0 <= k < i ==> !IsSpace(s[k])
    ensures i < |s| ==> IsSpace(s[i])
  {
    if s == "" || IsSpace(s[0]) then 0 else 1 + WordEnd(s[1..])
  }

  /** strings.Fields: the maximal runs of characters that are not white space. */
  function Fields(s: string): seq<string> {
    if s == "" then []
    else if IsSpace(s[0]) then Fields(s[1..])
    else [s[..WordEnd(s)]] + Fields(s[WordEnd(s)..])
  }

  predicate AllDigits(s: string) {
    forall k :: 0 <= k < |s| ==> IsAsciiDigit(s[k])
  }

  function DigitsValue(s: string): nat
    requires AllDigits(s)
  {
    if s == "" then 0 else 10 * DigitsValue(s[..|s| - 1]) + (s[|s| - 1] as int - '0' as int)
  }

  /** strconv.Atoi on a 64-bit platform; None is its error. */
  function Atoi(s: string): Option<int> {
    var signed := s != "" && (s[0] == '-' || s[0] == '+');
    var digits := if signed then s[1..] else s;
    if digits == "" || !AllDigits(digits) then None
    else
      var n: int := DigitsValue(digits);
      var v := if signed && s[0] == '-' then -n else n;
      if MIN_INT64 <= v <= MAX_INT64 then Some(v) else None
  }

  /** strconv.Itoa of a number that is not negative. */
  function Decimal(n: nat): (s: string)
    ensures s != "" && AllDigits(s)
  {
    var last := [(n % 10 + '0' as int) as char];
    if n < 10 then last else Decimal(n / 10) + last
  }

  // ----- Splitting undoes joining, reading undoes printing -----

  lemma {:induction false} IndexOfIs(s: string, c: char, i: nat)
    requires i <= |s| && c !in s[..i] && (i < |s| ==> s[i] == c)
    ensures IndexOf(s, c) == i
  {
    if i > 0 {
      assert s[0] == s[..i][0];
      assert s[..i][1..] == s[1..][..i - 1];
      IndexOfIs(s[1..], c, i - 1);
    }
  }

  lemma {:induction false} WordEndIs(s: string, i: nat)
    requires i <= |s|
    requires forall k :: 0 <= k < i ==> !IsSpace(s[k])
    requires i < |s| ==> IsSpace(s[i])
    ensures WordEnd(s) == i
  {
    if i > 0 {
      WordEndIs(s[1..], i - 1);
    }
  }

  lemma {:induction false} SplitJoin(parts: seq<string>, sep: char)
    requires |parts| > 0
    requires forall i :: 0 <= i < |parts| ==> sep !in parts[i]
    ensures Split(Join(parts, sep), sep) == parts
  {
    if |parts| == 1 {
      assert parts[0][..|parts[0]|] == parts[0];
      IndexOfIs(parts[0], sep, |parts[0]|);
    } else {
      var rest := Join(parts[1..], sep);
      SplitJoin(parts[1..], sep);
      assert Join(parts, sep)[|parts[0]| + 1..] == rest;
      assert Join(parts, sep)[..|parts[0]|] == parts[0];
      IndexOfIs(Join(parts, sep), sep, |parts[0]|);
    }
  }

  // ----- When joined parts can be told apart -----

  function Count(s: string, c: char): nat {
    if s == "" then 0 else (if s[0] == c then 1 else 0) + Count(s[1..], c)
  }

  lemma {:induction false} CountSum(a: string, b: string, c: char)
    ensures Count(a + b, c) == Count(a, c) + Count(b, c)
  {
    if a == "" {
      assert a + b == b;
    } else {
      assert (a + b)[1..] == a[1..] + b;
      CountSum(a[1..], b, c);
    }
  }

  lemma {:induction false} CountZero(s: string, c: char)
    ensures Count(s, c) == 0 <==> c !in s
  {
    if s != "" {
      CountZero(s[1..], c);
      assert s == [s[0]] + s[1..];
    }
  }

  ghost predicate NoneHolds(parts: seq<string>, sep: char) {
    forall i :: 0 <= i < |parts| ==> sep !in parts[i]
  }

  /** A joined text holds one separator between two parts, and those of the parts. */
  lemma {:induction false} CountJoin(parts: seq<string>, sep: char)
    requires |parts| > 0
    ensures Count(Join(parts, sep), sep) >= |parts| - 1
    ensures Count(Join(parts, sep), sep) == |parts| - 1 <==> NoneHolds(parts, sep)
  {
    CountZero(parts[0], sep);
    if |parts| > 1 {
      var rest := parts[1..];
      CountJoin(rest, sep);
      CountSum(parts[0] + [sep], Join(rest, sep), sep);
      CountSum(parts[0], [sep], sep);
      assert forall i :: 0 < i < |parts| ==> parts[i] == rest[i - 1];
      assert NoneHolds(parts, sep) <==> sep !in parts[0] && NoneHolds(rest, sep) by {
        if NoneHolds(parts, sep) {
          assert forall i :: 0 <= i < |rest| ==> rest[i] == parts[i + 1];
        }
      }
    }
  }

  /** Parts without a separator are the only ones of their number with their joined text. */
  lemma JoinOnce(p: seq<string>, q: seq<string>, sep: char)
    requires |p| == |q| > 0 && NoneHolds(p, sep) && Join(p, sep) == Join(q, sep)
    ensures p == q
  {
    CountJoin(p, sep);
    CountJoin(q, sep);
    SplitJoin(p, sep);
    SplitJoin(q, sep);
  }

  /** Two neighbours and a separator between them are as good as one part. */
  lemma {:induction false} JoinPair(before: seq<string>, x: string, y: string, after: seq<string>, sep: char)
    ensures Join(before + [x, y] + after, sep) == Join(before + [x + [sep] + y] + after, sep)
  {
    var two, one := before + [x, y] + after, before + [x + [sep] + y] + after;
    if before == [] {
      assert two[1..] == [y] + after && one[1..] == after;
      if after != [] {
        assert ([y] + after)[1..] == after;
        assert x + [sep] + (y + [sep] + Join(after, sep)) == x + [sep] + y + [sep] + Join(after, sep);
      }
    } else {
      assert two[1..] == before[1..] + [x, y] + after && one[1..] == before[1..] + [x + [sep] + y] + after;
      JoinPair(before[1..], x, y, after, sep);
    }
  }

  /** A separator inside a part can be moved to a neighbour, or the neighbour's end into the part:
      other parts of the same number have the same joined text. */
  lemma OtherParts(p: seq<string>, sep: char, i: nat) returns (q: seq<string>)
    requires |p| >= 2 && i < |p| && sep in p[i]
    ensures |q| == |p| && q != p && Join(q, sep) == Join(p, sep)
  {
    var k := IndexOf(p[i], sep);
    var a, b := p[i][..k], p[i][k + 1..];
    assert p[i] == a + [sep] + b;
    var j := if i + 1 < |p| then i else i - 1;
    var x, y := if j == i then a else p[j] + [sep] + a, if j == i then b + [sep] + p[j + 1] else b;
    q := p[..j] + [x, y] + p[j + 2..];
    assert p == p[..j] + [p[j], p[j + 1]] + p[j + 2..];
    JoinPair(p[..j], p[j], p[j + 1], p[j + 2..], sep);
    JoinPair(p[..j], x, y, p[j + 2..], sep);
    assert x + [sep] + y == p[j] + [sep] + p[j + 1];
    assert |q[j]| != |p[j]|;
  }

  /** Of two or more parts, no others of their number have the same joined text if and only if none
      of them holds the separator. */
  lemma JoinUnambiguous(p: seq<string>, sep: char)
    requires |p| >= 2
    ensures (forall q :: |q| == |p| && Join(q, sep) == Join(p, sep) ==> q == p) <==> NoneHolds(p, sep)
  {
    if NoneHolds(p, sep) {
      forall q | |q| == |p| && Join(q, sep) == Join(p, sep) ensures q == p {
        JoinOnce(p, q, sep);
      }
    } else {
      var i :| 0 <= i < |p| && sep in p[i];
      var q := OtherParts(p, sep, i);
    }
  }

  predicate IsWord(w: string) {
    w != "" && forall k :: 0 <= k < |w| ==> !IsSpace(w[k])
  }

  lemma {:induction false} FieldsJoin(words: seq<string>)
    requires forall i :: 0 <= i < |words| ==> IsWord(words[i])
    ensures Fields(Join(words, ' ')) == words
  {
    if |words| == 0 {
    } else if |words| == 1 {
      var s := words[0];
      WordEndIs(s, |s|);
      assert s[..|s|] == s;
    } else {
      var s := Join(words, ' ');
      var n := |words[0]|;
      var rest := Join(words[1..], ' ');
      FieldsJoin(words[1..]);
      assert s[..n] == words[0] && s[n] == ' ' && s[n..][1..] == rest;
      WordEndIs(s, n);
    }
  }

  lemma {:induction false} DecimalValue(n: nat)
    ensures DigitsValue(Decimal(n)) == n
  {
    var s := Decimal(n);
    if n >= 10 {
      DecimalValue(n / 10);
      assert s[..|s| - 1] == Decimal(n / 10);
    } else {
      assert s[..0] == "";
    }
  }

  lemma AtoiDecimal(n: nat)
    requires n <= MAX_INT64
    ensures Atoi(Decimal(n)) == Some(n)
  {
    DecimalValue(n);
  }

  /** A sign is read along, and a number beyond 64 bits is an error. */
  lemma SignsAreRead(n: nat)
    ensures var s, x: int := Decimal(n), n;
            && Atoi(s) == (if n <= 9223372036854775807 then Some(x) else None)
            && Atoi("+" + s) == (if n <= 9223372036854775807 then Some(x) else None)
            && Atoi("-" + s) == (if n <= 9223372036854775808 then Some(-x) else None)
  {
    hide Decimal, Atoi;
    DecimalValue(n);
    ReadDigits(Decimal(n));
  }

  lemma ReadDigits(s: string)
    requires s != "" && AllDigits(s)
    ensures var n: int := DigitsValue(s);
            && Atoi(s) == (if n <= MAX_INT64 then Some(n) else None)
            && Atoi("+" + s) == (if n <= MAX_INT64 then Some(n) else None)
            && Atoi("-" + s) == (if -n >= MIN_INT64 then Some(-n) else None)
  {
    var plus, minus := "+" + s, "-" + s;
    assert plus[1..] == s && minus[1..] == s && plus[0] == '+' && minus[0] == '-';
    assert IsAsciiDigit(s[0]);
  }

  /** Nothing is no number, and neither is a sign alone. */
  lemma NoDigits()
    ensures Atoi("") == None && Atoi("+") == None && Atoi("-") == None
  {
  }

  /** The twenty-five characters that Unicode counts as white space. */
  lemma SpaceCharacters(c: char)
    ensures IsSpace(c) <==>
              c as int in {0x09, 0x0A, 0x0B, 0x0C, 0x0D, 0x20, 0x85, 0xA0, 0x1680, 0x2000, 0x2001, 0x2002, 0x2003,
                           0x2004, 0x2005, 0x2006, 0x2007, 0x2008, 0x2009, 0x200A, 0x2028, 0x2029, 0x202F, 0x205F,
                           0x3000}
  {
  }
}
