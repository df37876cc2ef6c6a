/** What expressions are worth, told without the evaluator's own operations: sums of whole numbers,
    joined texts, fields along a path, and calls. */
module ExprMeaning {
  import opened Outcomes
  import opened Strings
  import opened ExprLexer
  import opened ExprParser
  import opened ExprRoundTrip
  import opened Sequences

  // ----- Whole numbers -----

  datatype IntTree =
    | Lit(n: nat)
    | Truth(b: bool)
    | Nothing
    | Minus(arg: IntTree)
    | Group(inner: IntTree)
    | Binary(op: Op, left: IntTree, right: IntTree)

  /** What an operator gives on two numbers; division by zero is an error. */
  function OpValue(op: Op, x: int, y: int): Option<int> {
    match op
    case Add => Some(x + y)
    case Sub => Some(x - y)
    case Mul => Some(x * y)
    case Div => if y == 0 then None else Some(x / y)
  }

  /** True counts as one, false and null as zero. */
  function IntValue(e: IntTree): Option<int> {
    match e
    case Lit(n) => Some(n)
    case Truth(b) => Some(if b then 1 else 0)
    case Nothing => Some(0)
    case Minus(a) => (match IntValue(a) case None => None case Some(x) => Some(-x))
    case Group(a) => IntValue(a)
    case Binary(op, l, r) =>
      match (IntValue(l), IntValue(r))
      case (Some(x), Some(y)) => OpValue(op, x, y)
      case _ => None
  }

  /** Every division by another number than zero comes out even. */
  predicate Even(e: IntTree) {
    match e
    case Minus(a) => Even(a)
    case Group(a) => Even(a)
    case Binary(op, l, r) => Even(l) && Even(r) && (op == Div ==> Divides(IntValue(l), IntValue(r)))
    case _ => true
  }

  predicate Divides(x: Option<int>, y: Option<int>) {
    x.Some? && y.Some? && y.value != 0 ==> x.value % y.value == 0
  }

  /** A literal that no operator is applied to stays what it is. */
  function Outcome(e: IntTree, num: int -> Float64): Option<Value> {
    match e
    case Truth(b) => Some(Bool(b))
    case Nothing => Some(Null)
    case Group(a) => Outcome(a, num)
    case _ => if IntValue(e).None? then None else Some(Num(num(IntValue(e).value)))
  }

  ghost predicate Adds(en: Engine, num: int -> Float64) {
    forall x, y {:trigger en.arith(Add, num(x), num(y))} :: en.arith(Add, num(x), num(y)) == num(x + y)
  }

  ghost predicate Subtracts(en: Engine, num: int -> Float64) {
    forall x, y {:trigger en.arith(Sub, num(x), num(y))} :: en.arith(Sub, num(x), num(y)) == num(x - y)
  }

  ghost predicate Multiplies(en: Engine, num: int -> Float64) {
    forall x, y {:trigger en.arith(Mul, num(x), num(y))} :: en.arith(Mul, num(x), num(y)) == num(x * y)
  }

  ghost predicate DividesEvenly(en: Engine, num: int -> Float64) {
    forall x, y {:trigger en.arith(Div, num(x), num(y))} ::
      y != 0 && x % y == 0 ==> en.arith(Div, num(x), num(y)) == num(x / y)
  }

  /** Floats that hold whole numbers without rounding. */
  ghost predicate ExactOn(en: Engine, num: int -> Float64) {
    && (forall n: nat {:trigger en.parseFloat(Decimal(n))} :: en.parseFloat(Decimal(n)) == Some(num(n)))
    && Adds(en, num) && Subtracts(en, num) && Multiplies(en, num) && DividesEvenly(en, num)
    && (forall x {:trigger en.neg(num(x))} :: en.neg(num(x)) == num(-x))
    && (forall x {:trigger en.isZero(num(x))} :: en.isZero(num(x)) <==> x == 0)
    && en.zero == num(0) && en.one == num(1)
  }

  ghost predicate HasDigits(cc: CharClass) {
    forall c :: '0' <= c <= '9' ==> cc.isDigit(c)
  }

  function TreeOf(e: IntTree): Tree {
    match e
    case Lit(n) => NumLit(Decimal(n))
    case Truth(b) => Word(if b then "true" else "false")
    case Nothing => Word("null")
    case Minus(a) => NegTree(TreeOf(a))
    case Group(a) => GroupTree(TreeOf(a))
    case Binary(op, l, r) => BinTree(op, TreeOf(l), TreeOf(r))
  }

  lemma {:induction false} OutcomeIsNumber(e: IntTree, en: Engine, num: int -> Float64)
    requires ExactOn(en, num)
    ensures Outcome(e, num).Some? <==> IntValue(e).Some?
    ensures Outcome(e, num).Some? ==>
              !Outcome(e, num).value.Str? && ToFloat(en, Outcome(e, num).value) == Some(num(IntValue(e).value))
  {
    hide ExactOn;
    if e.Group? {
      OutcomeIsNumber(e.inner, en, num);
    } else {
      Ends(en, num);
    }
  }

  lemma Ends(en: Engine, num: int -> Float64)
    requires ExactOn(en, num)
    ensures en.zero == num(0) && en.one == num(1)
  {
  }

  lemma Applied(en: Engine, num: int -> Float64, op: Op, left: Value, right: Value, x: int, y: int)
    requires ExactOn(en, num) && !left.Str? && !right.Str?
    requires ToFloat(en, left) == Some(num(x)) && ToFloat(en, right) == Some(num(y))
    requires op == Div && y != 0 ==> x % y == 0
    ensures Apply(en, op, left, right)
            == match OpValue(op, x, y) case None => None case Some(z) => Some(Num(num(z)))
  {
    hide ToFloat, ExactOn;
    Exactly(en, num, op, x, y);
  }

  lemma Exactly(en: Engine, num: int -> Float64, op: Op, x: int, y: int)
    requires ExactOn(en, num) && (op == Div && y != 0 ==> x % y == 0)
    ensures en.isZero(num(y)) <==> y == 0
    ensures OpValue(op, x, y).Some? ==> en.arith(op, num(x), num(y)) == num(OpValue(op, x, y).value)
  {
    hide Adds, Subtracts, Multiplies, DividesEvenly;
    match op
    case Add => AddsTwo(en, num, x, y);
    case Sub => SubtractsTwo(en, num, x, y);
    case Mul => MultipliesTwo(en, num, x, y);
    case Div => DividesTwo(en, num, x, y);
  }

  lemma AddsTwo(en: Engine, num: int -> Float64, x: int, y: int)
    requires Adds(en, num)
    ensures en.arith(Add, num(x), num(y)) == num(x + y)
  {
  }

  lemma SubtractsTwo(en: Engine, num: int -> Float64, x: int, y: int)
    requires Subtracts(en, num)
    ensures en.arith(Sub, num(x), num(y)) == num(x - y)
  {
  }

  lemma MultipliesTwo(en: Engine, num: int -> Float64, x: int, y: int)
    requires Multiplies(en, num)
    ensures en.arith(Mul, num(x), num(y)) == num(x * y)
  {
  }

  lemma DividesTwo(en: Engine, num: int -> Float64, x: int, y: int)
    requires DividesEvenly(en, num)
    ensures y != 0 && x % y == 0 ==> en.arith(Div, num(x), num(y)) == num(x / y)
  {
  }

  lemma {:induction false} DenotesOutcome(e: IntTree, data: map<string, Value>, en: Engine, num: int -> Float64)
    requires ExactOn(en, num) && Even(e)
    ensures Denote(TreeOf(e), data, en) == Outcome(e, num)
  {
    hide ExactOn, TreeOf, Denote, Outcome, IntValue;
    match e
    case Minus(a) =>
      DenotesOutcome(a, data, en, num);
      MinusDenotes(a, data, en, num);
    case Group(a) =>
      DenotesOutcome(a, data, en, num);
      GroupDenotes(a, data, en, num);
    case Binary(op, l, r) =>
      DenotesOutcome(l, data, en, num);
      DenotesOutcome(r, data, en, num);
      BinDenotes(op, l, r, data, en, num);
    case _ => LeafDenotes(e, data, en, num);
  }

  lemma LeafDenotes(e: IntTree, data: map<string, Value>, en: Engine, num: int -> Float64)
    requires ExactOn(en, num) && (e.Lit? || e.Truth? || e.Nothing?)
    ensures Denote(TreeOf(e), data, en) == Outcome(e, num)
  {
    hide ExactOn, Decimal;
    if e.Lit? {
      LitDenotes(e.n, data, en, num);
    }
  }

  lemma GroupDenotes(a: IntTree, data: map<string, Value>, en: Engine, num: int -> Float64)
    requires Denote(TreeOf(a), data, en) == Outcome(a, num)
    ensures Denote(TreeOf(Group(a)), data, en) == Outcome(Group(a), num)
  {
    hide Denote;
    GroupUnfolds(TreeOf(a), data, en);
  }

  lemma MinusDenotes(a: IntTree, data: map<string, Value>, en: Engine, num: int -> Float64)
    requires ExactOn(en, num) && Denote(TreeOf(a), data, en) == Outcome(a, num)
    ensures Denote(TreeOf(Minus(a)), data, en) == Outcome(Minus(a), num)
  {
    hide ExactOn, ToFloat, Negate, Denote, Outcome, IntValue;
    OutcomeIsNumber(a, en, num);
    NegUnfolds(TreeOf(a), data, en);
    MinusOutcome(a, num);
    if Outcome(a, num).Some? {
      Negated(en, num, Outcome(a, num).value, IntValue(a).value);
    }
  }

  lemma MinusOutcome(a: IntTree, num: int -> Float64)
    ensures Outcome(Minus(a), num) == if IntValue(a).None? then None else Some(Num(num(-IntValue(a).value)))
  {
  }

  lemma LitDenotes(n: nat, data: map<string, Value>, en: Engine, num: int -> Float64)
    requires ExactOn(en, num)
    ensures Denote(NumLit(Decimal(n)), data, en) == Some(Num(num(n)))
  {
  }

  lemma Negated(en: Engine, num: int -> Float64, v: Value, x: int)
    requires ExactOn(en, num) && ToFloat(en, v) == Some(num(x))
    ensures Negate(en, v) == Some(Num(num(-x)))
  {
    hide ToFloat;
  }

  lemma BinDenotes(op: Op, l: IntTree, r: IntTree, data: map<string, Value>, en: Engine, num: int -> Float64)
    requires ExactOn(en, num)
    requires Denote(TreeOf(l), data, en) == Outcome(l, num) && Denote(TreeOf(r), data, en) == Outcome(r, num)
    requires op == Div ==> Divides(IntValue(l), IntValue(r))
    ensures Denote(TreeOf(Binary(op, l, r)), data, en) == Outcome(Binary(op, l, r), num)
  {
    hide ExactOn, ToFloat, Apply, OpValue, Denote, Outcome, IntValue;
    OutcomeIsNumber(l, en, num);
    OutcomeIsNumber(r, en, num);
    BinUnfolds(op, TreeOf(l), TreeOf(r), data, en);
    BinOutcome(op, l, r, num);
    if IntValue(l).Some? && IntValue(r).Some? {
      Applied(en, num, op, Outcome(l, num).value, Outcome(r, num).value, IntValue(l).value, IntValue(r).value);
    }
  }

  lemma BinOutcome(op: Op, l: IntTree, r: IntTree, num: int -> Float64)
    ensures var z := if IntValue(l).None? || IntValue(r).None? then None
                     else OpValue(op, IntValue(l).value, IntValue(r).value);
            Outcome(Binary(op, l, r), num) == if z.None? then None else Some(Num(num(z.value)))
  {
    hide OpValue;
  }

  lemma {:induction false} IntTreeIsWritable(e: IntTree, cc: CharClass)
    requires IsUnicode(cc) && HasDigits(cc)
    ensures Writable(cc, TreeOf(e))
  {
    hide IsUnicode, Printable;
    match e
    case Lit(n) => DecimalIsPrintable(n, cc);
    case Minus(a) => IntTreeIsWritable(a, cc);
    case Group(a) => IntTreeIsWritable(a, cc);
    case Binary(_, l, r) => IntTreeIsWritable(l, cc); IntTreeIsWritable(r, cc);
    case _ =>
  }

  lemma DecimalIsPrintable(n: nat, cc: CharClass)
    requires HasDigits(cc)
    ensures Printable(cc, Token(TokNumber, Decimal(n)), None)
  {
    hide Decimal;
  }

  /** Evaluating the text of a tree of whole numbers gives the number that the tree is worth. */
  lemma IntegersAreComputed(e: IntTree, data: map<string, Value>, en: Engine, cc: CharClass, num: int -> Float64)
    requires IsUnicode(cc) && HasDigits(cc) && ExactOn(en, num) && Even(e)
    ensures Evaluation(Print(TreeOf(e)), data, en, cc) == Outcome(e, num)
  {
    hide IsUnicode, HasDigits, ExactOn, Even, Denote, Print, Evaluation, Writable, Outcome;
    IntTreeIsWritable(e, cc);
    EvaluatePrinted(TreeOf(e), data, en, cc);
    DenotesOutcome(e, data, en, num);
  }

  /** Ten minus four times two, and minus one: the product binds closer, and minus goes from left to right. */
  lemma TenLessEightLessOne(data: map<string, Value>, en: Engine, cc: CharClass, num: int -> Float64)
    requires IsUnicode(cc) && HasDigits(cc) && ExactOn(en, num)
    ensures Evaluation("10 - 4 * 2 - 1", data, en, cc) == Some(Num(num(1)))
  {
    hide IsUnicode, HasDigits, ExactOn, Print, Evaluation;
    var e := Binary(Sub, Binary(Sub, Lit(10), Binary(Mul, Lit(4), Lit(2))), Lit(1));
    IntegersAreComputed(e, data, en, cc, num);
    TextOfTen();
  }

  lemma TextOfTen()
    ensures Print(TreeOf(Binary(Sub, Binary(Sub, Lit(10), Binary(Mul, Lit(4), Lit(2))), Lit(1))))
            == "10 - 4 * 2 - 1"
  {
    hide Decimal, Render;
    assert Decimal(10) == "10" && Decimal(4) == "4" && Decimal(2) == "2" && Decimal(1) == "1" by { Digits(); }
    var ten, four, two, one := NumLit("10"), NumLit("4"), NumLit("2"), NumLit("1");
    var product := BinTree(Mul, four, two);
    var ts := [Token(TokNumber, "10"), Token(TokMinus, "-"), Token(TokNumber, "4"), Token(TokStar, "*"),
      Token(TokNumber, "2"), Token(TokMinus, "-"), Token(TokNumber, "1")];
    assert Tokens(product, 1) == [Token(TokNumber, "4"), Token(TokStar, "*"), Token(TokNumber, "2")];
    assert Tokens(BinTree(Sub, ten, product), 0) == ts[..5];
    assert Tokens(BinTree(Sub, BinTree(Sub, ten, product), one), 0) == ts;
    RenderTen(ts);
  }

  lemma Digits()
    ensures Decimal(10) == "10" && Decimal(4) == "4" && Decimal(2) == "2" && Decimal(1) == "1"
  {
    assert Decimal(0) == "0";
  }

  lemma RenderTen(ts: seq<Token>)
    requires ts == [Token(TokNumber, "10"), Token(TokMinus, "-"), Token(TokNumber, "4"), Token(TokStar, "*"),
                    Token(TokNumber, "2"), Token(TokMinus, "-"), Token(TokNumber, "1")]
    ensures Render(ts) == "10 - 4 * 2 - 1"
  {
    hide Text, Render;
    TextsOf(ts);
    RenderOne(ts[6..]);
    RenderFrom(ts, 5, "-", "1", "- 1");
    RenderFrom(ts, 4, "2", "- 1", "2 - 1");
    RenderFrom(ts, 3, "*", "2 - 1", "* 2 - 1");
    RenderFrom(ts, 2, "4", "* 2 - 1", "4 * 2 - 1");
    RenderFrom(ts, 1, "-", "4 * 2 - 1", "- 4 * 2 - 1");
    RenderFrom(ts, 0, "10", "- 4 * 2 - 1", "10 - 4 * 2 - 1");
    assert ts[0..] == ts;
  }

  lemma TextsOf(ts: seq<Token>)
    ensures forall i | 0 <= i < |ts| :: ts[i].typ !in {TokString, TokField} ==> Text(ts[i]) == ts[i].val
  {
  }

  lemma RenderOne(ts: seq<Token>)
    requires |ts| == 1
    ensures Render(ts) == Text(ts[0])
  {
  }

  lemma RenderFrom(ts: seq<Token>, i: nat, word: string, rest: string, text: string)
    requires i + 1 < |ts| && Render(ts[i + 1..]) == rest && ts[i].typ !in {TokString, TokField} && ts[i].val == word
    requires |text| == |word| + 1 + |rest| && text[..|word|] == word && text[|word|] == ' '
             && text[|word| + 1..] == rest
    ensures Render(ts[i..]) == text
  {
    assert ts[i..][1..] == ts[i + 1..];
    assert text == word + " " + rest;
  }

  // ----- Joined texts -----

  datatype Piece = Quoted(text: string) | Number(n: nat) | Flag(b: bool) | NoValue

  function PieceTree(piece: Piece): Tree {
    match piece
    case Quoted(s) => StrLit(s)
    case Number(n) => NumLit(Decimal(n))
    case Flag(b) => Word(if b then "true" else "false")
    case NoValue => Word("null")
  }

  /** How a piece is written into a text. */
  function Written(piece: Piece, en: Engine, num: int -> Float64): string {
    match piece
    case Quoted(s) => s
    case Number(n) => en.format(Num(num(n)))
    case Flag(b) => en.format(Bool(b))
    case NoValue => en.format(Null)
  }

  function AllWritten(pieces: seq<Piece>, en: Engine, num: int -> Float64): seq<string> {
    seq(|pieces|, i requires 0 <= i < |pieces| => Written(pieces[i], en, num))
  }

  /** The pieces with plus signs between them. */
  function SumTree(pieces: seq<Piece>): Tree
    requires pieces != []
  {
    var n := |pieces| - 1;
    if n == 0 then PieceTree(pieces[0]) else BinTree(Add, SumTree(pieces[..n]), PieceTree(pieces[n]))
  }

  ghost predicate PiecesWritable(pieces: seq<Piece>, cc: CharClass) {
    forall i | 0 <= i < |pieces| ::
      pieces[i].Quoted? ==> Printable(cc, Token(TokString, pieces[i].text), None)
  }

  lemma PieceDenotes(piece: Piece, data: map<string, Value>, en: Engine, num: int -> Float64)
    requires ExactOn(en, num)
    ensures var v := Denote(PieceTree(piece), data, en);
            && v.Some?
            && (piece.Quoted? ==> v.value == Str(piece.text))
            && Written(piece, en, num) == if v.value.Str? then v.value.s else en.format(v.value)
  {
    hide ExactOn, Decimal;
    if piece.Number? {
      LitDenotes(piece.n, data, en, num);
    }
  }

  lemma {:induction false} SumDenotes(pieces: seq<Piece>, data: map<string, Value>, en: Engine, num: int -> Float64)
    requires ExactOn(en, num) && pieces != [] && pieces[0].Quoted?
    ensures Denote(SumTree(pieces), data, en) == Some(Str(Concat(AllWritten(pieces, en, num))))
  {
    hide ExactOn, Decimal, PieceTree, Written, Denote, Concat;
    var n := |pieces| - 1;
    var all := AllWritten(pieces, en, num);
    PieceDenotes(pieces[n], data, en, num);
    if n == 0 {
      assert all == [] + [all[0]];
      ConcatOne([], all[0]);
      ConcatNone<char>();
      assert [] + all[0] == all[0];
      WrittenText(pieces[0], en, num);
    } else {
      SumDenotes(pieces[..n], data, en, num);
      assert all == AllWritten(pieces[..n], en, num) + [all[n]];
      ConcatOne(AllWritten(pieces[..n], en, num), all[n]);
      BinUnfolds(Add, SumTree(pieces[..n]), PieceTree(pieces[n]), data, en);
    }
  }

  lemma ConcatNone<T>()
    ensures Concat<T>([]) == []
  {
  }

  lemma WrittenText(piece: Piece, en: Engine, num: int -> Float64)
    ensures piece.Quoted? ==> Written(piece, en, num) == piece.text
  {
  }

  lemma {:induction false} SumIsWritable(pieces: seq<Piece>, cc: CharClass)
    requires IsUnicode(cc) && HasDigits(cc) && pieces != [] && PiecesWritable(pieces, cc)
    ensures Writable(cc, SumTree(pieces))
  {
    hide IsUnicode, Printable, Decimal, HasDigits;
    var n := |pieces| - 1;
    if pieces[n].Number? {
      DecimalIsPrintable(pieces[n].n, cc);
    }
    if n > 0 {
      SumIsWritable(pieces[..n], cc);
    }
  }

  /** Evaluating the text of a sum that begins with a text gives the pieces in order, joined. */
  lemma TextsAreJoined(pieces: seq<Piece>, data: map<string, Value>, en: Engine, cc: CharClass, num: int -> Float64)
    requires IsUnicode(cc) && HasDigits(cc) && ExactOn(en, num)
    requires pieces != [] && pieces[0].Quoted? && PiecesWritable(pieces, cc)
    ensures Evaluation(Print(SumTree(pieces)), data, en, cc) == Some(Str(Concat(AllWritten(pieces, en, num))))
  {
    hide IsUnicode, HasDigits, ExactOn, PiecesWritable, Denote, Print, Evaluation, Writable, Concat, AllWritten;
    hide SumTree;
    SumIsWritable(pieces, cc);
    EvaluatePrinted(SumTree(pieces), data, en, cc);
    SumDenotes(pieces, data, en, num);
  }

  // ----- Fields as operands -----

  /** The values of two fields and an operator between them. With plus, a text on either side makes a
      text; otherwise both must be numbers or stand for numbers, which lists and objects do not. */
  lemma OperandsAreConverted(op: Op, v: Value, w: Value, en: Engine, cc: CharClass)
    requires IsUnicode(cc)
    ensures var r := Evaluation(Print(BinTree(op, FieldRef("a"), FieldRef("b"))), map["a" := v, "b" := w], en, cc);
            && (op == Add && v.Str? && w.Str? ==> r == Some(Str(v.s + w.s)))
            && (op == Add && v.Str? && !w.Str? ==> r == Some(Str(v.s + en.format(w))))
            && (op == Add && !v.Str? && w.Str? ==> r == Some(Str(en.format(v) + w.s)))
            && (v.Num? && w.Num? ==>
                  r == if op == Div && en.isZero(w.f) then None else Some(Num(en.arith(op, v.f, w.f))))
            && (op != Add && v.Str? && w.Num? && !en.isZero(w.f) ==>
                  r == if en.parseFloat(v.s).None? then None
                       else Some(Num(en.arith(op, en.parseFloat(v.s).value, w.f))))
            && ((v.Arr? || v.Obj?) && !(op == Add && w.Str?) ==> r == None)
            && ((w.Arr? || w.Obj?) && !(op == Add && v.Str?) ==> r == None)
  {
    hide IsUnicode, Print, Evaluation, Resolve;
    var e, data := BinTree(op, FieldRef("a"), FieldRef("b")), map["a" := v, "b" := w];
    NamesAreFields(cc);
    EvaluatePrinted(e, data, en, cc);
    OneNameLeads(data, "a");
    OneNameLeads(data, "b");
    BinUnfolds(op, FieldRef("a"), FieldRef("b"), data, en);
  }

  lemma NamesAreFields(cc: CharClass)
    requires IsUnicode(cc)
    ensures forall c :: 'a' <= c <= 'z' ==> Printable(cc, Token(TokField, [c]), None)
  {
    forall c | 'a' <= c <= 'z' ensures Printable(cc, Token(TokField, [c]), None) {
      assert IsFieldChar(cc, c);
    }
  }

  lemma OneNameLeads(data: map<string, Value>, name: string)
    requires '.' !in name && name in data
    ensures Resolve(data, name) == data[name]
  {
    assert forall i :: 0 <= i < |[name]| ==> '.' !in [name][i];
    SplitJoin([name], '.');
    assert Split(name, '.') == [name];
    assert Walk(Obj(data), [name]) == Walk(data[name], [name][1..]) == Walk(data[name], []);
  }

  // ----- Paths -----

  /** Following the names through nested objects leads to the value. */
  ghost predicate LeadsTo(data: map<string, Value>, names: seq<string>, v: Value)
    requires names != []
    decreases |names|
  {
    && names[0] in data
    && if |names| == 1 then data[names[0]] == v
       else data[names[0]].Obj? && LeadsTo(data[names[0]].fields, names[1..], v)
  }

  lemma {:induction false} WalkLeads(data: map<string, Value>, names: seq<string>)
    requires names != []
    ensures forall v :: LeadsTo(data, names, v) ==> Walk(Obj(data), names) == v
    ensures (forall v :: !LeadsTo(data, names, v)) ==> Walk(Obj(data), names) == Null
    decreases |names|
  {
    if names[0] in data {
      var w := data[names[0]];
      assert Walk(Obj(data), names) == Walk(w, names[1..]);
      if |names| == 1 {
        assert Walk(w, names[1..]) == w;
        assert LeadsTo(data, names, w);
      } else if w.Obj? {
        WalkLeads(w.fields, names[1..]);
        if forall v :: !LeadsTo(data, names, v) {
          forall v ensures !LeadsTo(w.fields, names[1..], v) {
            assert !LeadsTo(data, names, v);
          }
        }
      }
    }
  }

  /** A path of names is worth the value it leads to, and null if it leads nowhere. */
  lemma PathsAreFollowed(names: seq<string>, data: map<string, Value>, en: Engine, cc: CharClass)
    requires IsUnicode(cc) && names != [] && NoneHolds(names, '.')
    requires Printable(cc, Token(TokField, Join(names, '.')), None)
    ensures var r := Evaluation(Print(FieldRef(Join(names, '.'))), data, en, cc);
            && (forall v :: LeadsTo(data, names, v) ==> r == Some(v))
            && ((forall v :: !LeadsTo(data, names, v)) ==> r == Some(Null))
  {
    hide IsUnicode, Print, Evaluation, Printable, Join, Walk;
    EvaluatePrinted(FieldRef(Join(names, '.')), data, en, cc);
    SplitJoin(names, '.');
    WalkLeads(data, names);
  }

  // ----- Calls -----

  function Quotes(texts: seq<string>): seq<Tree> {
    seq(|texts|, i requires 0 <= i < |texts| => StrLit(texts[i]))
  }

  function Strs(texts: seq<string>): seq<Value> {
    seq(|texts|, i requires 0 <= i < |texts| => Str(texts[i]))
  }

  lemma {:induction false} QuotesDenote(texts: seq<string>, data: map<string, Value>, en: Engine)
    ensures DenoteAll(Quotes(texts), data, en) == Some(Strs(texts))
  {
    if texts == [] {
      assert Strs(texts) == [];
    } else {
      QuotesDenote(texts[1..], data, en);
      assert Quotes(texts)[1..] == Quotes(texts[1..]);
      assert Strs(texts) == [Str(texts[0])] + Strs(texts[1..]);
    }
  }

  /** A call hands its arguments over in the order in which they are written; a name without a function
      is an error. */
  lemma CallGetsArguments(name: string, texts: seq<string>, data: map<string, Value>, en: Engine, cc: CharClass)
    requires IsUnicode(cc) && name !in RESERVED && Printable(cc, Token(TokIdent, name), None)
    requires forall i | 0 <= i < |texts| :: Printable(cc, Token(TokString, texts[i]), None)
    ensures Evaluation(Print(CallTree(name, Quotes(texts))), data, en, cc)
            == if name in en.funcs then en.funcs[name](Strs(texts)) else None
  {
    hide IsUnicode, Print, Evaluation, Printable, DenoteAll, Denote;
    EvaluatePrinted(CallTree(name, Quotes(texts)), data, en, cc);
    QuotesDenote(texts, data, en);
    CallUnfolds(name, Quotes(texts), data, en);
    assert Denote(CallTree(name, Quotes(texts)), data, en) == Call(en, name, Strs(texts));
  }

  // ----- Words -----

  /** The four words that stand for values. */
  lemma WordsStandForValues(data: map<string, Value>, en: Engine, cc: CharClass)
    requires IsUnicode(cc)
    ensures Evaluation("true", data, en, cc) == Some(Bool(true))
    ensures Evaluation("false", data, en, cc) == Some(Bool(false))
    ensures Evaluation("null", data, en, cc) == Some(Null) && Evaluation("nil", data, en, cc) == Some(Null)
  {
    hide IsUnicode, Print, Evaluation;
    WordPrints("true");
    WordPrints("false");
    WordPrints("null");
    WordPrints("nil");
    EvaluatePrinted(Word("true"), data, en, cc);
    EvaluatePrinted(Word("false"), data, en, cc);
    EvaluatePrinted(Word("null"), data, en, cc);
    EvaluatePrinted(Word("nil"), data, en, cc);
  }

  lemma WordPrints(name: string)
    ensures Print(Word(name)) == name
  {
    assert Tokens(Word(name), 0) == [Token(TokIdent, name)];
  }
}
