/**
 * The question generator of `MathQuestion.java`: an immutable question (text and
 * correct answer) and `generateRandom`, with the three `Random.nextInt` draws as
 * parameters. The displayed text is read back by a small parser so that its meaning
 * can be compared with the stored answer.
 */
module MathQuestions {
  import opened Wrappers
  import opened Decimal

  /** An immutable question; the destructors are the two getters. */
  datatype MathQuestion = MathQuestion(questionText: string, correctAnswer: int)

  const Prompt: string := " = ?"

  predicate EndsWithPrompt(text: string) {
    |text| >= |Prompt| && text[|text| - |Prompt|..] == Prompt
  }

  /** Java's `/` on `int`: the quotient truncated toward zero. */
  function JavaDiv(n: int, d: int): int
    requires d != 0
  {
    var q := (if n < 0 then -n else n) / (if d < 0 then -d else d);
    if (n < 0) != (d < 0) then -q else q
  }

  /**
   * The switch of `generateRandom` on the operands `a`, `b` and the operation code `op`:
   * the expression text and the value it is meant to have.
   */
  function Switch(a: int, b: int, op: int): (string, int)
  {
    match op
    case 0 => (IntToString(a) + " + " + IntToString(b), a + b)
    case 1 => (IntToString(a) + " - " + IntToString(b), a - b)
    case 2 => (IntToString(a) + " * " + IntToString(b), a * b)
    case 3 => (var prod := a * b; (IntToString(prod) + " / " + IntToString(b), a))
    case _ => ("0 + 0", 0)
  }

  /** The question `generateRandom` returns for the operands and operation code. */
  function Question(a: int, b: int, op: int): MathQuestion
  {
    var (question, result) := Switch(a, b, op);
    MathQuestion(question + Prompt, result)
  }

  /** Every question text, whatever the branch taken, ends with ` = ?`. */
  lemma QuestionEndsWithPrompt(a: int, b: int, op: int)
    ensures EndsWithPrompt(Question(a, b, op).questionText)
  {
    var question := Switch(a, b, op).0;
    assert Question(a, b, op).questionText == question + Prompt;
    assert (question + Prompt)[|question|..] == Prompt;
  }

  /**
   * `MathQuestion.generateRandom()`, where `ra`, `rb` and `rop` are the values returned by
   * `rand.nextInt(10)`, `rand.nextInt(10)` and `rand.nextInt(4)`.
   */
  function GenerateRandom(ra: int, rb: int, rop: int): (q: MathQuestion)
    requires 0 <= ra < 10 && 0 <= rb < 10 && 0 <= rop < 4
    ensures -9 <= q.correctAnswer <= 100
  {
    QuestionFacts(ra + 1, rb + 1, rop);
    Question(ra + 1, rb + 1, rop)
  }

  /** A binary expression as it is displayed: left operand, operator symbol, right operand. */
  datatype Expr = Expr(left: int, symbol: char, right: int)

  /** The value of an expression under Java `int` arithmetic; `None` for an unknown symbol or a division by zero. */
  function Evaluate(e: Expr): Option<int> {
    match e.symbol
    case '+' => Some(e.left + e.right)
    case '-' => Some(e.left - e.right)
    case '*' => Some(e.left * e.right)
    case '/' => if e.right == 0 then None else Some(JavaDiv(e.left, e.right))
    case _ => None
  }

  /**
   * The tokenizer of the question reader: `s` cut at every `sep`, keeping empty pieces.
   * `MathQuestion.java` never splits its text; this is part of the reader only.
   */
  function Split(s: string, sep: char): (pieces: seq<string>)
    ensures |pieces| >= 1
    decreases |s|
  {
    if s == [] then [[]]
    else
      var rest := Split(s[1..], sep);
      if s[0] == sep then [[]] + rest else [[s[0]] + rest[0]] + rest[1..]
  }

  lemma {:induction false} SplitNoSeparator(w: string, sep: char)
    requires sep !in w
    ensures Split(w, sep) == [w]
    decreases |w|
  {
    if w != [] {
      assert w[0] in w;
      SplitNoSeparator(w[1..], sep);
      assert [w[0]] + w[1..] == w;
    }
  }

  lemma {:induction false} SplitAtSeparator(w: string, sep: char, t: string)
    requires sep !in w
    ensures Split(w + [sep] + t, sep) == [w] + Split(t, sep)
    decreases |w|
  {
    var s := w + [sep] + t;
    if w == [] {
      assert s[1..] == t;
    } else {
      assert s[1..] == w[1..] + [sep] + t;
      SplitAtSeparator(w[1..], sep, t);
      assert [w[0]] + w[1..] == w;
    }
  }

  /** Reads a text of the form `<x> <sym> <y> = ?` back into the expression it shows. */
  function ParseQuestion(text: string): Option<Expr> {
    var tokens := Split(text, ' ');
    if |tokens| == 5 && |tokens[1]| == 1 && tokens[3] == "=" && tokens[4] == "?" then
      match (ParseInt(tokens[0]), ParseInt(tokens[2]))
      case (Some(x), Some(y)) => Some(Expr(x, tokens[1][0], y))
      case _ => None
    else None
  }

  /** The five space-separated tokens of a text of the form `<x> <sym> <y> = ?`. */
  lemma RenderedTokens(sx: string, symbol: char, sy: string)
    requires ' ' !in sx && ' ' !in sy && symbol != ' '
    ensures Split(sx + [' ', symbol, ' '] + sy + Prompt, ' ') == [sx, [symbol], sy, "=", "?"]
  {
    var t3 := "=" + [' '] + "?";
    var t2 := sy + [' '] + t3;
    var t1 := [symbol] + [' '] + t2;
    assert sx + [' ', symbol, ' '] + sy + Prompt == sx + [' '] + t1;
    SplitNoSeparator("?", ' ');
    SplitAtSeparator("=", ' ', "?");
    SplitAtSeparator(sy, ' ', t3);
    SplitAtSeparator([symbol], ' ', t2);
    SplitAtSeparator(sx, ' ', t1);
  }

  /** A text built the way `generateRandom` builds it shows exactly the expression it was built from. */
  lemma ParseRendered(x: int, symbol: char, y: int)
    requires symbol != ' '
    ensures ParseQuestion(IntToString(x) + [' ', symbol, ' '] + IntToString(y) + Prompt) == Some(Expr(x, symbol, y))
  {
    IntToStringRoundTrip(x);
    IntToStringRoundTrip(y);
    RenderedTokens(IntToString(x), symbol, IntToString(y));
  }

  lemma ProductBounds(a: int, b: int)
    requires 1 <= a <= 10 && 1 <= b <= 10
    ensures b <= a * b <= 10 * b && 1 <= a * b <= 100
  {
    assert a * b - b == (a - 1) * b;
    assert 10 * b - a * b == (10 - a) * b;
  }

  lemma NonZeroMultiple(k: int, d: int)
    requires d >= 1
    ensures k == 0 || k * d >= d || k * d <= -d
  {
    if k >= 1 {
      assert k * d - d == (k - 1) * d;
    } else if k <= -1 {
      assert k * d + d == (k + 1) * d;
    }
  }

  lemma ExactQuotient(a: int, b: int)
    requires 1 <= a <= 10 && 1 <= b <= 10
    ensures (a * b) % b == 0 && (a * b) / b == a && JavaDiv(a * b, b) == a
  {
    ProductBounds(a, b);
    var q, r := (a * b) / b, (a * b) % b;
    assert a * b == q * b + r && 0 <= r < b;
    assert (a - q) * b == r;
    NonZeroMultiple(a - q, b);
    assert q == a;
  }

  /** Case 0: the text shows `a + b` and the answer is its sum. */
  lemma AdditionQuestion(a: int, b: int)
    requires 1 <= a <= 10 && 1 <= b <= 10
    ensures ParseQuestion(Question(a, b, 0).questionText) == Some(Expr(a, '+', b))
    ensures Question(a, b, 0).correctAnswer == a + b
    ensures Evaluate(Expr(a, '+', b)) == Some(Question(a, b, 0).correctAnswer)
  {
    assert " + " == [' ', '+', ' '];
    ParseRendered(a, '+', b);
  }

  /** Case 1: the text shows `a - b`; nothing reorders the operands, so the answer is negative exactly when `a < b`. */
  lemma SubtractionQuestion(a: int, b: int)
    requires 1 <= a <= 10 && 1 <= b <= 10
    ensures ParseQuestion(Question(a, b, 1).questionText) == Some(Expr(a, '-', b))
    ensures Question(a, b, 1).correctAnswer == a - b
    ensures -9 <= Question(a, b, 1).correctAnswer <= 9
    ensures Question(a, b, 1).correctAnswer < 0 <==> a < b
    ensures Evaluate(Expr(a, '-', b)) == Some(Question(a, b, 1).correctAnswer)
  {
    assert " - " == [' ', '-', ' '];
    ParseRendered(a, '-', b);
  }

  /** Case 2: the text shows `a * b` and the answer, their product, lies in [1, 100]. */
  lemma MultiplicationQuestion(a: int, b: int)
    requires 1 <= a <= 10 && 1 <= b <= 10
    ensures ParseQuestion(Question(a, b, 2).questionText) == Some(Expr(a, '*', b))
    ensures Question(a, b, 2).correctAnswer == a * b
    ensures 1 <= Question(a, b, 2).correctAnswer <= 100
    ensures Evaluate(Expr(a, '*', b)) == Some(Question(a, b, 2).correctAnswer)
  {
    assert " * " == [' ', '*', ' '];
    ParseRendered(a, '*', b);
    ProductBounds(a, b);
  }

  /** Case 3: the text shows `a*b / b`; the division is exact and its quotient is the answer `a`. */
  lemma DivisionQuestion(a: int, b: int)
    requires 1 <= a <= 10 && 1 <= b <= 10
    ensures ParseQuestion(Question(a, b, 3).questionText) == Some(Expr(a * b, '/', b))
    ensures (a * b) % b == 0 && (a * b) / b == Question(a, b, 3).correctAnswer
    ensures Question(a, b, 3).correctAnswer == a
    ensures Evaluate(Expr(a * b, '/', b)) == Some(Question(a, b, 3).correctAnswer)
  {
    assert " / " == [' ', '/', ' '];
    ParseRendered(a * b, '/', b);
    ExactQuotient(a, b);
  }

  lemma QuestionFacts(a: int, b: int, op: int)
    requires 1 <= a <= 10 && 1 <= b <= 10 && 0 <= op < 4
    ensures -9 <= Question(a, b, op).correctAnswer <= 100
  {
    if op == 2 {
      ProductBounds(a, b);
    }
  }

  /**
   * Whatever the draws, the displayed expression, evaluated with Java's integer operators,
   * is the stored correct answer.
   */
  lemma GeneratedTextDenotesAnswer(ra: int, rb: int, rop: int)
    requires 0 <= ra < 10 && 0 <= rb < 10 && 0 <= rop < 4
    ensures ParseQuestion(GenerateRandom(ra, rb, rop).questionText).Some?
    ensures Evaluate(ParseQuestion(GenerateRandom(ra, rb, rop).questionText).value)
         == Some(GenerateRandom(ra, rb, rop).correctAnswer)
  {
    var a, b := ra + 1, rb + 1;
    match rop
    case 0 => AdditionQuestion(a, b);
    case 1 => SubtractionQuestion(a, b);
    case 2 => MultiplicationQuestion(a, b);
    case 3 => DivisionQuestion(a, b);
  }

  /** The fallback of the `default` branch shows `0 + 0`, whatever the operands. */
  lemma DefaultQuestion(a: int, b: int, op: int)
    requires !(0 <= op < 4)
    ensures ParseQuestion(Question(a, b, op).questionText) == Some(Expr(0, '+', 0))
    ensures Question(a, b, op).correctAnswer == 0
  {
    assert IntToString(0) == "0";
    assert "0 + 0" + Prompt == IntToString(0) + [' ', '+', ' '] + IntToString(0) + Prompt;
    ParseRendered(0, '+', 0);
  }

  /**
   * The draws never reach the `default` branch: every generated question shows one of the
   * four operators and a left operand of at least 1, so it is never the fallback `0 + 0 = ?`.
   */
  lemma DefaultBranchUnreachable(ra: int, rb: int, rop: int)
    requires 0 <= ra < 10 && 0 <= rb < 10 && 0 <= rop < 4
    ensures ParseQuestion(GenerateRandom(ra, rb, rop).questionText).Some?
    ensures ParseQuestion(GenerateRandom(ra, rb, rop).questionText).value.symbol in "+-*/"
    ensures ParseQuestion(GenerateRandom(ra, rb, rop).questionText).value.left >= 1
    ensures GenerateRandom(ra, rb, rop) != Question(ra + 1, rb + 1, 4)
  {
    var a, b := ra + 1, rb + 1;
    match rop {
      case 0 => AdditionQuestion(a, b);
      case 1 => SubtractionQuestion(a, b);
      case 2 => MultiplicationQuestion(a, b);
      case 3 => DivisionQuestion(a, b); ProductBounds(a, b);
    }
    DefaultQuestion(a, b, 4);
  }
}
