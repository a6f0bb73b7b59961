/** `solve`: a one-pass evaluator of infix expressions over +, -, * and parentheses. */
module Expression {
  import opened Wrappers

  // ---------------------------------------------------------------------------------------------
  // Expressions, their value and their text
  // ---------------------------------------------------------------------------------------------

  /** `Group` is a pair of parentheses that the writer has added. */
  datatype Expr =
    | Num(digits: string)
    | Add(l: Expr, r: Expr)
    | Sub(l: Expr, r: Expr)
    | Mul(l: Expr, r: Expr)
    | Group(e: Expr)

  predicate IsDigit(c: char) { '0' <= c <= '9' }

  ghost predicate WellFormed(e: Expr) {
    match e
    case Num(digits) => digits != [] && forall i :: 0 <= i < |digits| ==> IsDigit(digits[i])
    case Add(l, r) => WellFormed(l) && WellFormed(r)
    case Sub(l, r) => WellFormed(l) && WellFormed(r)
    case Mul(l, r) => WellFormed(l) && WellFormed(r)
    case Group(e) => WellFormed(e)
  }

  function DigitValue(c: char): int
    requires IsDigit(c)
  {
    c as int - '0' as int
  }

  /** The number read from `digits` after `num` has been read. */
  function Decimal(num: int, digits: string): int
    requires forall i :: 0 <= i < |digits| ==> IsDigit(digits[i])
    decreases |digits|
  {
    if digits == [] then num else Decimal(10 * num + DigitValue(digits[0]), digits[1..])
  }

  function Value(e: Expr): int
    requires WellFormed(e)
  {
    match e
    case Num(digits) => Decimal(0, digits)
    case Add(l, r) => Value(l) + Value(r)
    case Sub(l, r) => Value(l) - Value(r)
    case Mul(l, r) => Value(l) * Value(r)
    case Group(e) => Value(e)
  }

  // ---------------------------------------------------------------------------------------------
  // Digits and numbers
  // ---------------------------------------------------------------------------------------------

  const Digits := "0123456789"

  /** The text of the digits `ds`, the most significant one first. */
  function DigitText(ds: seq<nat>): (s: string)
    requires forall i :: 0 <= i < |ds| ==> ds[i] < 10
    ensures |s| == |ds| && forall i :: 0 <= i < |ds| ==> s[i] == Digits[ds[i]]
  {
    seq(|ds|, i requires 0 <= i < |ds| => Digits[ds[i]])
  }

  /** The number that the digits stand for, by their places. */
  function Positional(ds: seq<nat>): nat {
    if ds == [] then 0 else Power10(|ds| - 1) * ds[0] + Positional(ds[1..])
  }

  function Power10(k: nat): nat { if k == 0 then 1 else 10 * Power10(k - 1) }

  lemma DigitReads(d: nat)
    requires d < 10
    ensures IsDigit(Digits[d]) && DigitValue(Digits[d]) == d
  {
  }

  lemma {:induction false} DecimalFrom(num: int, ds: seq<nat>)
    requires forall i :: 0 <= i < |ds| ==> ds[i] < 10
    ensures forall i :: 0 <= i < |ds| ==> IsDigit(DigitText(ds)[i])
    ensures Decimal(num, DigitText(ds)) == Power10(|ds|) * num + Positional(ds)
    decreases |ds|
  {
    hide DigitValue;
    if ds != [] {
      var d, rest := ds[0], ds[1..];
      var text := DigitText(ds);
      forall i | 0 <= i < |ds| ensures IsDigit(text[i]) {
        DigitReads(ds[i]);
      }
      DigitReads(d);
      assert text[1..] == DigitText(rest);
      DecimalFrom(10 * num + d, rest);
      OneMorePlace(Power10(|rest|), num, d);
    }
  }

  lemma OneMorePlace(p: int, num: int, d: int)
    ensures p * (10 * num + d) == 10 * p * num + p * d
  {
  }

  /** A digit string is read as its decimal number, whatever zeros it starts with. */
  lemma DigitsAreDecimal(ds: seq<nat>)
    requires ds != [] && forall i :: 0 <= i < |ds| ==> ds[i] < 10
    ensures WellFormed(Num(DigitText(ds))) && Value(Num(DigitText(ds))) == Positional(ds)
  {
    DecimalFrom(0, ds);
  }

  /** Where an expression stands: as a whole, as a term of a sum, or as a factor on the right of a product. */
  datatype Level = Whole | Term | Factor

  predicate NeedsParens(e: Expr, level: Level) {
    match e
    case Num(_) => false
    case Group(_) => false
    case Mul(_, _) => level.Factor?
    case _ => !level.Whole?
  }

  /** The text of `e`, with the parentheses that precedence and left associativity demand and no others
      than those the writer has added. */
  function Show(e: Expr, level: Level): string
    decreases e, if NeedsParens(e, level) then 1 else 0
  {
    if NeedsParens(e, level) then "(" + Show(e, Whole) + ")"
    else match e
      case Num(digits) => digits
      case Add(l, r) => Show(l, Whole) + "+" + Show(r, Term)
      case Sub(l, r) => Show(l, Whole) + "-" + Show(r, Term)
      case Mul(l, r) => Show(l, Term) + "*" + Show(r, Factor)
      case Group(e) => "(" + Show(e, Whole) + ")"
  }

  // ---------------------------------------------------------------------------------------------
  // What the loop does
  // ---------------------------------------------------------------------------------------------

  predicate IsOperator(c: char) { c == '+' || c == '-' || c == '*' }

  /** The position after the parenthesis that closes the `depth`-th open one; nothing if the text ends first. */
  function CloseAfter(s: string, i: nat, depth: nat): (r: Option<nat>)
    requires i <= |s|
    ensures r.Some? ==> i + depth <= r.value <= |s|
    decreases |s| - i
  {
    if depth == 0 then Some(i)
    else if i == |s| then None
    else CloseAfter(s, i + 1, if s[i] == '(' then depth + 1 else if s[i] == ')' then depth - 1 else depth)
  }

  /** Books `num` under the operator read before it. */
  function Settle(stack: seq<int>, sign: char, num: int): seq<int> {
    if sign == '+' then stack + [num]
    else if sign == '-' then stack + [-num]
    else if sign == '*' && stack != [] then stack[..|stack| - 1] + [stack[|stack| - 1] * num]
    else stack
  }

  function Sum(stack: seq<int>): int {
    if stack == [] then 0 else Sum(stack[..|stack| - 1]) + stack[|stack| - 1]
  }

  /** The result of the loop from position `i` on; nothing if it runs past the end looking for a parenthesis. */
  function Run(s: string, i: nat, stack: seq<int>, sign: char, num: int): Option<int>
    requires i <= |s|
    decreases |s|, |s| - i, 1
  {
    if i == |s| then Some(Sum(stack))
    else if s[i] == '(' then
      match CloseAfter(s, i + 1, 1)
      case None => None
      case Some(j) =>
        match Run(s[i + 1..j - 1], 0, [], '+', 0)
        case None => None
        case Some(v) => Finish(s, j - 1, stack, sign, v)
    else Finish(s, i, stack, sign, if IsDigit(s[i]) then 10 * num + DigitValue(s[i]) else num)
  }

  /** The end of one round: an operator or the last character settles the number. */
  function Finish(s: string, i: nat, stack: seq<int>, sign: char, num: int): Option<int>
    requires i < |s|
    decreases |s|, |s| - i, 0
  {
    if i == |s| - 1 || IsOperator(s[i]) then Run(s, i + 1, Settle(stack, sign, num), s[i], 0)
    else Run(s, i + 1, stack, sign, num)
  }

  function Solve(s: string): Option<int> { Run(s, 0, [], '+', 0) }

  // ---------------------------------------------------------------------------------------------
  // The loop on the text of an expression
  // ---------------------------------------------------------------------------------------------

  /** `w` stands in `s` at position `i`. */
  ghost predicate At(s: string, i: nat, w: string) { i + |w| <= |s| && s[i..i + |w|] == w }

  ghost predicate Ends(s: string, k: nat) { k == |s| || (k < |s| && IsOperator(s[k])) }

  /** What remains to do once the number that ends before `k` has been settled. */
  ghost function After(s: string, k: nat, stack: seq<int>): Option<int>
    requires Ends(s, k)
  {
    if k == |s| then Some(Sum(stack)) else Run(s, k + 1, stack, s[k], 0)
  }

  lemma AtParts(s: string, i: nat, a: string, b: string)
    requires At(s, i, a + b)
    ensures At(s, i, a) && At(s, i + |a|, b)
  {
    assert s[i..i + |a|] == (a + b)[..|a|] == a;
    assert s[i + |a|..i + |a| + |b|] == (a + b)[|a|..] == b;
  }

  lemma AtThree(s: string, i: nat, a: string, b: string, c: string)
    requires At(s, i, a + b + c)
    ensures At(s, i, a) && At(s, i + |a|, b) && At(s, i + |a| + |b|, c)
  {
    AtParts(s, i, a + b, c);
    AtParts(s, i, a, b);
  }

  lemma AtDigits(s: string, i: nat, digits: string)
    requires At(s, i, digits) && forall j :: 0 <= j < |digits| ==> IsDigit(digits[j])
    ensures i + |digits| <= |s| && s[i..i + |digits|] == digits
    ensures forall j :: i <= j < i + |digits| ==> IsDigit(s[j])
  {
    assert forall j :: i <= j < i + |digits| ==> s[j] == s[i..i + |digits|][j - i];
  }

  lemma OperatorSettles(s: string, k: nat, stack: seq<int>, sign: char, num: int)
    requires k < |s| && IsOperator(s[k])
    ensures Run(s, k, stack, sign, num) == After(s, k, Settle(stack, sign, num))
  {
  }

  /** At the end of a number, the last character settles it and any other leaves it to the operator after it. */
  lemma LastOrNext(s: string, i: nat, stack: seq<int>, sign: char, num: int)
    requires i < |s| && !IsOperator(s[i])
    ensures Finish(s, i, stack, sign, num)
            == if i + 1 == |s| then Some(Sum(Settle(stack, sign, num))) else Run(s, i + 1, stack, sign, num)
  {
  }

  lemma {:induction false} DigitsRun(s: string, i: nat, k: nat, stack: seq<int>, sign: char, num: int)
    requires i < k <= |s| && (forall j :: i <= j < k ==> IsDigit(s[j])) && Ends(s, k)
    ensures (forall j :: 0 <= j < k - i ==> IsDigit(s[i..k][j]))
    ensures Run(s, i, stack, sign, num) == After(s, k, Settle(stack, sign, Decimal(num, s[i..k])))
    decreases k - i
  {
    var num' := 10 * num + DigitValue(s[i]);
    assert s[i..k][0] == s[i] && s[i..k][1..] == s[i + 1..k];
    assert forall j :: 0 <= j < k - i ==> s[i..k][j] == s[i + j];
    assert Run(s, i, stack, sign, num) == Finish(s, i, stack, sign, num');
    if i + 1 == k {
      assert Decimal(num', s[i + 1..k]) == num';
      LastOrNext(s, i, stack, sign, num');
      if k < |s| {
        OperatorSettles(s, k, stack, sign, num');
      }
    } else {
      DigitsRun(s, i + 1, k, stack, sign, num');
    }
  }

  lemma ParensRun(s: string, i: nat, w: string, stack: seq<int>, sign: char, v: int)
    requires At(s, i, "(" + w + ")") && Solve(w) == Some(v) && Ends(s, i + |w| + 2)
    requires CloseAfter(s, i + 1, 1) == Some(i + |w| + 2)
    ensures Run(s, i, stack, sign, 0) == After(s, i + |w| + 2, Settle(stack, sign, v))
  {
    var k := i + |w| + 2;
    AtThree(s, i, "(", w, ")");
    assert s[i] == s[i..i + 1][0] && s[k - 1] == s[k - 1..k][0];
    assert s[i + 1..k - 1] == w;
    assert Run(s, i, stack, sign, 0) == Finish(s, k - 1, stack, sign, v);
    LastOrNext(s, k - 1, stack, sign, v);
    if k < |s| {
      OperatorSettles(s, k, stack, sign, v);
    }
  }

  lemma {:induction false} DigitsSkip(s: string, i: nat, k: nat, depth: nat)
    requires i <= k <= |s| && (forall j :: i <= j < k ==> IsDigit(s[j])) && depth >= 1
    ensures CloseAfter(s, i, depth) == CloseAfter(s, k, depth)
    decreases k - i
  {
    if i < k {
      DigitsSkip(s, i + 1, k, depth);
    }
  }

  /** Looking for a closing parenthesis passes over parentheses around `w` if it passes over `w`. */
  lemma ParensSkip(s: string, i: nat, w: string, depth: nat)
    requires At(s, i, "(" + w + ")") && depth >= 1
    requires CloseAfter(s, i + 1, depth + 1) == CloseAfter(s, i + 1 + |w|, depth + 1)
    ensures CloseAfter(s, i, depth) == CloseAfter(s, i + |w| + 2, depth)
  {
    AtThree(s, i, "(", w, ")");
    var k := i + 1 + |w|;
    assert s[i] == s[i..i + 1][0] && s[k] == s[k..k + 1][0];
  }

  /** Looking for a closing parenthesis passes over the text of a whole expression. */
  lemma {:induction false} TextSkips(e: Expr, level: Level, s: string, i: nat, depth: nat)
    requires WellFormed(e) && At(s, i, Show(e, level)) && depth >= 1
    ensures CloseAfter(s, i, depth) == CloseAfter(s, i + |Show(e, level)|, depth)
    decreases e, if NeedsParens(e, level) then 2 else 1
  {
    hide CloseAfter, At;
    if NeedsParens(e, level) {
      AtThree(s, i, "(", Show(e, Whole), ")");
      TextSkips(e, Whole, s, i + 1, depth + 1);
      ParensSkip(s, i, Show(e, Whole), depth);
    } else {
      match e
      case Num(digits) =>
        AtDigits(s, i, digits);
        DigitsSkip(s, i, i + |digits|, depth);
      case Add(_, _) => PairSkips(e, Whole, "+", Term, s, i, depth);
      case Sub(_, _) => PairSkips(e, Whole, "-", Term, s, i, depth);
      case Mul(_, _) => PairSkips(e, Term, "*", Factor, s, i, depth);
      case Group(g) =>
        AtThree(s, i, "(", Show(g, Whole), ")");
        TextSkips(g, Whole, s, i + 1, depth + 1);
        ParensSkip(s, i, Show(g, Whole), depth);
    }
  }

  lemma {:induction false} PairSkips(e: Expr, ll: Level, op: string, rl: Level, s: string, i: nat, depth: nat)
    requires (e.Add? || e.Sub? || e.Mul?) && WellFormed(e) && |op| == 1 && IsOperator(op[0]) && depth >= 1
    requires At(s, i, Show(e.l, ll) + op + Show(e.r, rl))
    ensures CloseAfter(s, i, depth) == CloseAfter(s, i + |Show(e.l, ll) + op + Show(e.r, rl)|, depth)
    decreases e, 0
  {
    hide CloseAfter, Show, At;
    var a, b := Show(e.l, ll), Show(e.r, rl);
    AtThree(s, i, a, op, b);
    TextSkips(e.l, ll, s, i, depth);
    TextSkips(e.r, rl, s, i + |a| + 1, depth);
    OperatorSkips(s, i + |a|, op, depth);
  }

  lemma OperatorSkips(s: string, k: nat, op: string, depth: nat)
    requires At(s, k, op) && |op| == 1 && IsOperator(op[0]) && depth >= 1
    ensures CloseAfter(s, k, depth) == CloseAfter(s, k + 1, depth)
  {
    assert s[k] == s[k..k + 1][0];
  }

  /** The parenthesis opened at `i` closes right after `w`. */
  lemma ClosesAfterText(e: Expr, s: string, i: nat)
    requires WellFormed(e) && At(s, i, "(" + Show(e, Whole) + ")")
    ensures CloseAfter(s, i + 1, 1) == Some(i + |Show(e, Whole)| + 2)
  {
    var w := Show(e, Whole);
    AtThree(s, i, "(", w, ")");
    TextSkips(e, Whole, s, i + 1, 1);
    var k := i + 1 + |w|;
    assert s[k] == s[k..k + 1][0];
  }

  // ---------------------------------------------------------------------------------------------
  // Correctness
  // ---------------------------------------------------------------------------------------------

  lemma SettleTwice(stack: seq<int>, sign: char, a: int, b: int)
    requires IsOperator(sign) && (sign == '*' ==> stack != [])
    ensures Settle(Settle(stack, sign, a), '*', b) == Settle(stack, sign, a * b)
  {
    if sign == '*' {
      var top := stack[|stack| - 1];
      assert top * a * b == top * (a * b);
    } else if sign == '-' {
      assert -a * b == -(a * b);
    }
  }

  lemma SettleSum(stack: seq<int>, sign: char, a: int)
    requires sign == '+' || sign == '-'
    ensures Sum(Settle(stack, sign, a)) == Sum(stack) + if sign == '+' then a else -a
  {
    var b := if sign == '+' then a else -a;
    assert (stack + [b])[..|stack|] == stack;
  }

  /** The text of a term or a factor books its value under the operator before it. */
  lemma {:induction false} TermRuns(e: Expr, level: Level, s: string, i: nat, stack: seq<int>, sign: char)
    requires WellFormed(e) && !level.Whole? && At(s, i, Show(e, level)) && Ends(s, i + |Show(e, level)|)
    requires IsOperator(sign) && (sign == '*' ==> stack != [])
    ensures Run(s, i, stack, sign, 0) == After(s, i + |Show(e, level)|, Settle(stack, sign, Value(e)))
    decreases e, if NeedsParens(e, level) then 4 else 1
  {
    hide Run, Finish, CloseAfter, Settle;
    if NeedsParens(e, level) {
      SolveText(e);
      ClosesAfterText(e, s, i);
      ParensRun(s, i, Show(e, Whole), stack, sign, Value(e));
    } else {
      match e
      case Num(digits) =>
        var k := i + |digits|;
        assert forall j :: i <= j < k ==> s[j] == s[i..k][j - i];
        DigitsRun(s, i, k, stack, sign, 0);
      case Group(g) =>
        SolveText(g);
        ClosesAfterText(g, s, i);
        ParensRun(s, i, Show(g, Whole), stack, sign, Value(g));
      case Mul(l, r) => ProductRuns(e, s, i, stack, sign);
    }
  }

  lemma {:induction false} ProductRuns(e: Expr, s: string, i: nat, stack: seq<int>, sign: char)
    requires e.Mul? && WellFormed(e) && At(s, i, Show(e, Term)) && Ends(s, i + |Show(e, Term)|)
    requires IsOperator(sign) && (sign == '*' ==> stack != [])
    ensures Run(s, i, stack, sign, 0) == After(s, i + |Show(e, Term)|, Settle(stack, sign, Value(e)))
    decreases e, 0
  {
    hide Run, Finish, CloseAfter;
    var a, b := Show(e.l, Term), Show(e.r, Factor);
    assert Show(e, Term) == a + "*" + b;
    AtThree(s, i, a, "*", b);
    var k := i + |a|;
    assert s[k] == s[k..k + 1][0];
    TermRuns(e.l, Term, s, i, stack, sign);
    TermRuns(e.r, Factor, s, k + 1, Settle(stack, sign, Value(e.l)), '*');
    SettleTwice(stack, sign, Value(e.l), Value(e.r));
  }

  /** The text of a sum adds its value to the stack. */
  lemma {:induction false} SumRuns(e: Expr, s: string, i: nat, stack: seq<int>) returns (after: seq<int>)
    requires WellFormed(e) && At(s, i, Show(e, Whole)) && Ends(s, i + |Show(e, Whole)|)
    ensures Run(s, i, stack, '+', 0) == After(s, i + |Show(e, Whole)|, after)
    ensures Sum(after) == Sum(stack) + Value(e)
    decreases e, 2
  {
    hide Run, Finish, CloseAfter, Sum;
    if e.Add? || e.Sub? {
      var op := if e.Add? then "+" else "-";
      var a, b := Show(e.l, Whole), Show(e.r, Term);
      assert Show(e, Whole) == a + op + b;
      AtThree(s, i, a, op, b);
      var k := i + |a|;
      assert s[k] == s[k..k + 1][0];
      var st := SumRuns(e.l, s, i, stack);
      TermRuns(e.r, Term, s, k + 1, st, op[0]);
      SettleSum(st, op[0], Value(e.r));
      after := Settle(st, op[0], Value(e.r));
    } else {
      TermRuns(e, Term, s, i, stack, '+');
      SettleSum(stack, '+', Value(e));
      after := Settle(stack, '+', Value(e));
    }
  }

  /** `solve` on the text of an expression is the value of the expression, with the usual precedence and left
      associativity. */
  lemma {:induction false} SolveText(e: Expr)
    requires WellFormed(e)
    ensures Solve(Show(e, Whole)) == Some(Value(e))
    decreases e, 3
  {
    var w := Show(e, Whole);
    assert At(w, 0, w);
    var after := SumRuns(e, w, 0, []);
  }

  // ---------------------------------------------------------------------------------------------
  // Where `solve` is defined
  // ---------------------------------------------------------------------------------------------

  /** Every open parenthesis from `from` on is closed. */
  ghost predicate Closed(s: string, from: nat) {
    forall i: nat :: from <= i < |s| && s[i] == '(' ==> CloseAfter(s, i + 1, 1).Some?
  }

  /** To close `a + b` parentheses is to close `a` and then `b`. */
  lemma {:induction false} CloseInTurn(s: string, i: nat, a: nat, b: nat)
    requires i <= |s| && CloseAfter(s, i, a + b).Some?
    ensures CloseAfter(s, i, a).Some?
    ensures CloseAfter(s, CloseAfter(s, i, a).value, b) == CloseAfter(s, i, a + b)
    decreases |s| - i
  {
    if a > 0 {
      CloseInTurn(s, i + 1, if s[i] == '(' then a + 1 else if s[i] == ')' then a - 1 else a, b);
    }
  }

  /** A parenthesis opened before another one closes is closed before it. */
  lemma {:induction false} Nested(s: string, i: nat, depth: nat, p: nat)
    requires i <= |s| && CloseAfter(s, i, depth).Some?
    requires i <= p < CloseAfter(s, i, depth).value && s[p] == '('
    ensures CloseAfter(s, p + 1, 1).Some? && CloseAfter(s, p + 1, 1).value < CloseAfter(s, i, depth).value
    decreases p - i
  {
    if i == p {
      CloseInTurn(s, p + 1, 1, depth);
    } else {
      Nested(s, i + 1, if s[i] == '(' then depth + 1 else if s[i] == ')' then depth - 1 else depth, p);
    }
  }

  lemma {:induction false} CloseWithin(s: string, lo: nat, hi: nat, i: nat, depth: nat)
    requires lo <= i <= hi <= |s| && CloseAfter(s, i, depth).Some? && CloseAfter(s, i, depth).value <= hi
    ensures CloseAfter(s[lo..hi], i - lo, depth).Some?
    decreases hi - i
  {
    if depth > 0 {
      assert s[lo..hi][i - lo] == s[i];
      CloseWithin(s, lo, hi, i + 1, if s[i] == '(' then depth + 1 else if s[i] == ')' then depth - 1 else depth);
    }
  }

  lemma InsideIsClosed(s: string, i: nat)
    requires i < |s| && CloseAfter(s, i + 1, 1).Some?
    ensures Closed(s[i + 1..CloseAfter(s, i + 1, 1).value - 1], 0)
  {
    var hi := CloseAfter(s, i + 1, 1).value - 1;
    var w := s[i + 1..hi];
    forall p: nat | p < |w| && w[p] == '(' ensures CloseAfter(w, p + 1, 1).Some? {
      Nested(s, i + 1, 1, i + 1 + p);
      CloseWithin(s, i + 1, hi, i + 2 + p, 1);
    }
  }

  lemma {:induction false} RunDefined(s: string, i: nat, stack: seq<int>, sign: char, num: int)
    requires i <= |s|
    ensures Run(s, i, stack, sign, num).Some? <==> Closed(s, i)
    decreases |s|, |s| - i, 1
  {
    if i < |s| {
      if s[i] == '(' {
        if CloseAfter(s, i + 1, 1).Some? {
          var j := CloseAfter(s, i + 1, 1).value;
          InsideIsClosed(s, i);
          RunDefined(s[i + 1..j - 1], 0, [], '+', 0);
          FinishDefined(s, j - 1, stack, sign, Run(s[i + 1..j - 1], 0, [], '+', 0).value);
          forall p: nat | i < p < j && s[p] == '(' ensures CloseAfter(s, p + 1, 1).Some? {
            Nested(s, i + 1, 1, p);
          }
        }
      } else {
        FinishDefined(s, i, stack, sign, if IsDigit(s[i]) then 10 * num + DigitValue(s[i]) else num);
      }
    }
  }

  lemma {:induction false} FinishDefined(s: string, i: nat, stack: seq<int>, sign: char, num: int)
    requires i < |s|
    ensures Finish(s, i, stack, sign, num).Some? <==> Closed(s, i + 1)
    decreases |s|, |s| - i, 0
  {
    if i == |s| - 1 || IsOperator(s[i]) {
      RunDefined(s, i + 1, Settle(stack, sign, num), s[i], 0);
    } else {
      RunDefined(s, i + 1, stack, sign, num);
    }
  }

  /** `solve` stays within its text exactly when every open parenthesis is closed. */
  lemma SolveDefined(s: string)
    ensures Solve(s).Some? <==> Closed(s, 0)
  {
    RunDefined(s, 0, [], '+', 0);
  }

  // ---------------------------------------------------------------------------------------------
  // The method
  // ---------------------------------------------------------------------------------------------

  method SumUp(stack: seq<int>) returns (res: int)
    ensures res == Sum(stack)
  {
    res := 0;
    var rest := stack;
    while rest != []
      invariant res + Sum(rest) == Sum(stack)
      decreases |rest|
    {
      res := res + rest[|rest| - 1];
      rest := rest[..|rest| - 1];
    }
  }

  /** Run on a text whose open parentheses are all closed; the recursion is into shorter texts. */
  method SolveString(s: string) returns (res: int)
    requires Closed(s, 0)
    ensures Solve(s) == Some(res)
    decreases |s|
  {
    SolveDefined(s);
    var sum: seq<int> := [];
    var sign := '+';
    var num := 0;
    var i := 0;
    while i < |s|
      invariant i <= |s| && Solve(s) == Run(s, i, sum, sign, num)
      invariant i < |s| ==> IsOperator(sign) && (sign == '*' ==> sum != [])
      decreases |s| - i
    {
      ghost var before := num;
      if IsDigit(s[i]) {
        num := 10 * num + DigitValue(s[i]);
      }
      if s[i] == '(' {
        var left := i;
        i := i + 1;
        var count := 1;
        while count > 0
          invariant left < i <= |s| && count >= 0 && CloseAfter(s, i, count) == CloseAfter(s, left + 1, 1)
          invariant CloseAfter(s, left + 1, 1).Some?
          decreases |s| - i
        {
          if s[i] == '(' {
            count := count + 1;
          } else if s[i] == ')' {
            count := count - 1;
          }
          i := i + 1;
        }
        InsideIsClosed(s, left);
        num := SolveString(s[left + 1..i - 1]);
        i := i - 1;
      }
      assert Solve(s) == Finish(s, i, sum, sign, num);
      if i == |s| - 1 || IsOperator(s[i]) {
        if sign == '+' {
          sum := sum + [num];
        } else if sign == '-' {
          sum := sum + [-num];
        } else if sign == '*' {
          sum := sum[..|sum| - 1] + [sum[|sum| - 1] * num];
        }
        sign := s[i];
        num := 0;
      }
      i := i + 1;
    }
    res := SumUp(sum);
  }
}
