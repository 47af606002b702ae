/** A printer for expression trees that adds parentheses only where precedence or a bare constant asks for
    them, and the proof that the calculator reads back exactly the tree that was printed. */
module Printer {
  import opened Bytes
  import opened Calculator
  import opened Trees
  import opened Layering

  /** 1 sums, 2 products, 3 powers, 4 signed operands, 5 operands that take a postfix percent. */
  function Level(tree: Tree): nat {
    match tree
    case Binary(operator, _, _) => Precedence(operator)
    case Negated(_) => 4
    case _ => 5
  }

  function LeftLevel(operator: Operator): nat {
    if operator.Power? then 4 else Precedence(operator)
  }

  function RightLevel(operator: Operator): nat {
    RightMinimum(operator)
  }

  function Symbol(operator: Operator): char {
    match operator
    case Add => '+'
    case Subtract => '-'
    case Multiply => '*'
    case Divide => '/'
    case Modulo => '%'
    case Ratio => ':'
    case Power => '^'
  }

  function Bits(n: nat): string {
    (if n < 2 then "" else Bits(n / 2)) + (if n % 2 == 0 then "0" else "1")
  }

  /** The text printed at `level` ends with the name of a constant. Such a name swallows the white space
      after it, so that a following `%` would be read as a percent. */
  predicate EndsBare(tree: Tree, level: nat) {
    Level(tree) >= level &&
    match tree
    case Constant(_) => true
    case Negated(operand) => EndsBare(operand, 4)
    case Binary(operator, _, right) => EndsBare(right, RightLevel(operator))
    case _ => false
  }

  function Show(tree: Tree, level: nat): string
    decreases tree, 1
  {
    if Level(tree) >= level then Bare(tree) else "(" + Bare(tree) + ")"
  }

  function ShowLeft(operator: Operator, left: Tree): string
    decreases left, 2
  {
    if operator.Modulo? && EndsBare(left, 2) then "(" + Bare(left) + ")" else Show(left, LeftLevel(operator))
  }

  function Bare(tree: Tree): string
    decreases tree, 0
  {
    match tree
    case Decimal(text) => text
    case Integer(value) => "0b" + Bits(value)
    case Constant(name) => name
    case Negated(operand) => "-" + Show(operand, 4)
    case Percentage(operand) => Show(operand, 5) + "%"
    case Binary(operator, left, right) =>
      ShowLeft(operator, left) + [' ', Symbol(operator), ' '] + Show(right, RightLevel(operator))
    case Call(name, arguments) => name + "(" + ShowList(arguments) + ")"
  }

  function ShowList(trees: seq<Tree>): string
    decreases trees
  {
    if trees == [] then "" else Show(trees[0], 1) + ShowMore(trees[1..])
  }

  function ShowMore(trees: seq<Tree>): string
    decreases trees
  {
    if trees == [] then "" else ", " + Show(trees[0], 1) + ShowMore(trees[1..])
  }

  /** Decimal literals the number reader accepts whole; known constants; known functions whose names are
      letters, with the right number of arguments. */
  predicate Printable<N>(env: Env<N>, tree: Tree)
    decreases tree
  {
    match tree
    case Decimal(text) =>
      && |text| > 0 && (IsDigit(text[0]) || text[0] == '.') && Radix(text).None?
      && SkipDecimal(text, true) == "" && WithoutUnderscores(text) == text && env.parseDecimal(text).Some?
    case Integer(value) => value <= MAX_EXACT
    case Constant(name) => IsConstant(name)
    case Negated(operand) => Printable(env, operand)
    case Percentage(operand) => Printable(env, operand)
    case Binary(_, left, right) => Printable(env, left) && Printable(env, right)
    case Call(name, arguments) =>
      && !HasDigit(name)
      && ((IsUnary(name) && |arguments| == 1) || (IsList(name) && 0 < |arguments| <= 0xFFFF_FFFF))
      && forall argument :: argument in arguments ==> Printable(env, argument)
  }

  /** What the parser builds for a ratio: the division it is. */
  function RatioAsDivide(tree: Tree): Tree
    decreases tree
  {
    match tree
    case Negated(operand) => Negated(RatioAsDivide(operand))
    case Percentage(operand) => Percentage(RatioAsDivide(operand))
    case Binary(operator, left, right) => Binary(WithoutRatio(operator), RatioAsDivide(left), RatioAsDivide(right))
    case Call(name, arguments) => Call(name, RatiosAsDivides(arguments))
    case _ => tree
  }

  function RatiosAsDivides(trees: seq<Tree>): (built: seq<Tree>)
    ensures |built| == |trees|
    decreases trees
  {
    if trees == [] then [] else [RatioAsDivide(trees[0])] + RatiosAsDivides(trees[1..])
  }

  function WithoutRatio(operator: Operator): Operator {
    if operator.Ratio? then Divide else operator
  }

  /** A ratio has the value of its division, and meets the same zero divisors. */
  lemma {:induction false} SameValue<N>(env: Env<N>, tree: Tree)
    ensures Eval(env, RatioAsDivide(tree)) == Eval(env, tree)
    decreases tree
  {
    match tree {
      case Negated(operand) => SameValue(env, operand);
      case Percentage(operand) => SameValue(env, operand);
      case Binary(_, left, right) =>
        SameValue(env, left);
        SameValue(env, right);
      case Call(_, arguments) => SameValues(env, arguments);
      case _ =>
    }
  }

  lemma {:induction false} SameValues<N>(env: Env<N>, trees: seq<Tree>)
    ensures EvalAll(env, RatiosAsDivides(trees)) == EvalAll(env, trees)
    decreases trees
  {
    if trees != [] {
      SameValue(env, trees[0]);
      SameValues(env, trees[1..]);
      assert RatiosAsDivides(trees)[1..] == RatiosAsDivides(trees[1..]);
    }
  }

  predicate HasDigit(name: string) {
    name in {"log10", "log2"}
  }

  /** What may follow an operand. */
  predicate Ended(rest: string) {
    rest == "" || rest[0] in {' ', ')', ',', '%'}
  }

  // ---------- tokens ----------

  lemma {:induction false} ExponentEnds(text: string, rest: string)
    requires text != "" && (text[0] == 'e' || text[0] == 'E')
    requires SkipDecimal(text, true) == "" && Ended(rest)
    ensures SkipDecimal(text + rest, true) == rest
    decreases |text|, 0
  {
    assert (text + rest)[1..] == text[1..] + rest;
    if Starts(text[1..], '+') || Starts(text[1..], '-') {
      assert (text + rest)[2..] == text[2..] + rest;
      DecimalEnds(text[2..], rest, false);
    } else {
      DecimalEnds(text[1..], rest, false);
    }
  }

  lemma {:induction false} DecimalEnds(text: string, rest: string, exponentAllowed: bool)
    requires SkipDecimal(text, exponentAllowed) == "" && Ended(rest)
    ensures SkipDecimal(text + rest, exponentAllowed) == rest
    decreases |text|, 1
  {
    if text == "" {
      assert text + rest == rest;
    } else {
      assert (text + rest)[1..] == text[1..] + rest;
      if IsDigit(text[0]) || text[0] == '.' || text[0] == '_' {
        DecimalEnds(text[1..], rest, exponentAllowed);
      } else {
        ExponentEnds(text, rest);
      }
    }
  }

  lemma DecimalReads<N>(env: Env<N>, total: nat, text: string, rest: string)
    requires Printable(env, Decimal(text)) && Ended(rest) && |text + rest| <= total
    ensures Number(TreeEnv(env), total, text + rest) == Ok((Decimal(text), rest))
  {
    DecimalEnds(text, rest, true);
    assert (text + rest)[..|text|] == text;
  }

  lemma {:induction false} BitsRead(n: nat, rest: string)
    requires Ended(rest)
    ensures SkipRadixDigits(Bits(n) + rest, 2) == SkipRadixDigits(rest, 2) == rest
    ensures WithoutUnderscores(Bits(n)) == Bits(n) && Bits(n) != ""
    ensures RadixValue(Bits(n), 2, 0) == n
  {
    BitsAreDigits(n);
    SkipBits(Bits(n), rest);
    SkipBits("", rest);
    assert "" + rest == rest;
    BitsValue(n);
  }

  predicate AllBits(s: string) {
    forall i :: 0 <= i < |s| ==> s[i] == '0' || s[i] == '1'
  }

  lemma BitsAreDigits(n: nat)
    ensures AllBits(Bits(n)) && Bits(n) != ""
    ensures WithoutUnderscores(Bits(n)) == Bits(n)
  {
    if n >= 2 {
      BitsAreDigits(n / 2);
    }
    NoUnderscores(Bits(n));
  }

  lemma NoUnderscores(s: string)
    requires AllBits(s)
    ensures WithoutUnderscores(s) == s
  {
    if s != "" {
      NoUnderscores(s[1..]);
    }
  }

  lemma {:induction false} SkipBits(s: string, rest: string)
    requires AllBits(s) || s == ""
    requires Ended(rest)
    ensures SkipRadixDigits(s + rest, 2) == rest
  {
    if s == "" {
      assert s + rest == rest;
    } else {
      assert (s + rest)[1..] == s[1..] + rest;
      SkipBits(s[1..], rest);
    }
  }

  lemma {:induction false} RadixAppend(s: string, c: char, radix: nat, accumulated: nat)
    ensures RadixValue(s + [c], radix, accumulated) == RadixValue(s, radix, accumulated) * radix + DigitValue(c)
    decreases |s|
  {
    if s == "" {
      assert s + [c] == [c] && [c][1..] == "";
    } else {
      assert (s + [c])[1..] == s[1..] + [c];
      RadixAppend(s[1..], c, radix, accumulated * radix + DigitValue(s[0]));
    }
  }

  lemma {:induction false} BitsValue(n: nat)
    ensures RadixValue(Bits(n), 2, 0) == n
  {
    var front := if n < 2 then "" else Bits(n / 2);
    var last := if n % 2 == 0 then '0' else '1';
    assert Bits(n) == front + [last];
    RadixAppend(front, last, 2, 0);
    if n >= 2 {
      BitsValue(n / 2);
    }
  }

  lemma IntegerReads<N>(env: Env<N>, total: nat, n: nat, rest: string)
    requires n <= MAX_EXACT && Ended(rest) && |"0b" + Bits(n) + rest| <= total
    ensures Number(TreeEnv(env), total, "0b" + Bits(n) + rest) == Ok((Integer(n), rest))
  {
    BitsAreDigits(n);
    BitsRead(n, rest);
    BinaryLiteralReads(env, total, Bits(n), n, rest);
  }

  lemma BinaryLiteralReads<N>(env: Env<N>, total: nat, digits: string, n: nat, rest: string)
    requires n <= MAX_EXACT && digits != "" && |"0b" + digits + rest| <= total
    requires SkipRadixDigits(digits + rest, 2) == rest && WithoutUnderscores(digits) == digits
    requires RadixValue(digits, 2, 0) == n
    ensures Number(TreeEnv(env), total, "0b" + digits + rest) == Ok((Integer(n), rest))
  {
    var s := "0b" + digits + rest;
    assert s[2..] == digits + rest;
    RadixReads(env, total, digits, n, s, rest);
    NumberIsRadix(TreeEnv(env), total, s);
  }

  lemma NumberIsRadix<N>(env: Env<N>, total: nat, s: string)
    requires 2 <= |s| <= total && s[0] == '0' && s[1] == 'b'
    ensures Number(env, total, s) == RadixNumber(env, total, s, 2)
  {
  }

  lemma RadixReads<N>(env: Env<N>, total: nat, digits: string, n: nat, s: string, rest: string)
    requires |s| >= 2 && s[2..] == digits + rest && |s| <= total && digits != "" && n <= MAX_EXACT
    requires SkipRadixDigits(s[2..], 2) == rest && WithoutUnderscores(digits) == digits && RadixValue(digits, 2, 0) == n
    ensures RadixNumber(TreeEnv(env), total, s, 2) == Ok((Integer(n), rest))
  {
    assert s[2..|s| - |rest|] == s[2..][..|digits|] == digits;
  }

  predicate LowerLetters(name: string) {
    name != "" && forall i :: 0 <= i < |name| ==> IsLower(name[i])
  }

  lemma EndsNoName<N>(env: Env<N>, rest: string)
    requires AsciiClasses(env) && (Ended(rest) || Starts(rest, '('))
    ensures SkipLetters(env, rest) == rest
  {
    if rest != "" {
      assert !env.isAlphabetic(rest[0]) by {
        assert rest[0] < 128 as char;
      }
    }
  }

  lemma {:induction false} LettersRead<N>(env: Env<N>, name: string, rest: string)
    requires AsciiClasses(env) && (LowerLetters(name) || name == "")
    requires Ended(rest) || Starts(rest, '(')
    ensures SkipLetters(env, name + rest) == rest && ToLower(name) == name
  {
    if name == "" {
      assert name + rest == rest;
      EndsNoName(env, rest);
    } else {
      assert (name + rest)[1..] == name[1..] + rest;
      LettersRead(env, name[1..], rest);
    }
  }

  lemma KnownNames(name: string)
    requires IsConstant(name) || ((IsUnary(name) || IsList(name)) && !HasDigit(name))
    ensures LowerLetters(name)
  {
  }

  lemma TreeClasses<N>(env: Env<N>)
    requires AsciiClasses(env)
    ensures AsciiClasses(TreeEnv(env))
  {
  }

  lemma DigitNameLetters<N>(env: Env<N>, s: string)
    requires AsciiClasses(env) && |s| >= 4 && s[0] == 'l' && s[1] == 'o' && s[2] == 'g' && IsDigit(s[3])
    ensures SkipLetters(env, s) == s[3..]
    ensures s[..3] == "log" && ToLower("log") == "log"
  {
    assert SkipLetters(env, s[3..]) == s[3..];
    assert s[1..][1..] == s[2..] && s[2..][1..] == s[3..];
    assert SkipLetters(env, s[2..]) == SkipLetters(env, s[3..]);
    assert SkipLetters(env, s[1..]) == SkipLetters(env, s[2..]);
    assert "log"[1..] == "og" && "og"[1..] == "g" && "g"[1..] == "";
    assert ToLower("g") == "g" && ToLower("og") == "og";
  }

  lemma DigitNameFails<N>(env: Env<N>, total: nat, s: string)
    requires AsciiClasses(env) && 4 <= |s| <= total && s[0] == 'l' && s[1] == 'o' && s[2] == 'g' && IsDigit(s[3])
    ensures Atom(BindingPower, env, total, s) == Err(UnknownName("log"))
  {
    DigitNameLetters(env, s);
    assert SkipSpace(env, s[3..]) == s[3..];
    assert s[..|s| - |s[3..]|] == s[..3];
    assert Name(BindingPower, env, total, s) == Err(UnknownName("log"));
  }

  /** A call whose name has a digit is never reached: the name reader takes letters only, so `log2(` and
      `log10(` are the unknown constant `log`, whatever follows. */
  lemma DigitNamesUnreachable<N>(env: Env<N>, total: nat, name: string, rest: string)
    requires AsciiClasses(env) && HasDigit(name) && |name + rest| <= total
    ensures Prefix(BindingPower, env, total, name + rest) == Err(UnknownName("log"))
  {
    var s := name + rest;
    assert s[0] == 'l' && s[1] == 'o' && s[2] == 'g' && IsDigit(s[3]);
    DigitNameFails(env, total, s);
    assert SkipSpace(env, s) == s;
  }

  // ---------- operands and expressions ----------

  function After<N>(env: Env<N>, tree: Tree, level: nat, rest: string): string {
    if EndsBare(tree, level) then SkipSpace(env, rest) else rest
  }

  lemma SpaceBefore<N>(env: Env<N>, total: nat, s: string, minimum: nat)
    requires AsciiClasses(env) && |s| < total
    ensures Expression(env, total, " " + s, minimum) == Expression(env, total, s, minimum)
  {
    assert (" " + s)[1..] == s;
  }

  lemma SkipsToSame<N>(env: Env<N>, total: nat, tree: Tree, rest: string, minimum: nat)
    requires |rest| <= total
    ensures Continue(TreeEnv(env), total, tree, SkipSpace(env, rest), minimum)
          == Continue(TreeEnv(env), total, tree, rest, minimum)
  {
    SameSpace(env, rest);
    SkipSpaceTwice(TreeEnv(env), rest);
  }

  /** The contexts in which an operand printed at `level` is followed by `rest`. */
  predicate Follows<N>(env: Env<N>, tree: Tree, level: nat, rest: string) {
    && Ended(rest)
    && (EndsBare(tree, level) ==> !Starts(SkipSpace(env, rest), '('))
    && (tree.Negated? && level <= 4 ==> !Starts(After(env, tree, level, rest), '%'))
  }

  predicate Parenthesised(tree: Tree, level: nat) {
    Level(tree) < level
  }

  /** Printed text starts with a sign, a parenthesis, a digit, a dot or a letter. */
  predicate PlainStart<N>(env: Env<N>, s: string) {
    s != "" && !env.isWhitespace(s[0]) && s[0] != ')'
  }

  lemma ShowStarts<N>(env: Env<N>, tree: Tree, level: nat)
    requires AsciiClasses(env) && Printable(env, tree)
    ensures PlainStart(env, Show(tree, level)) && PlainStart(env, Bare(tree))
    decreases tree
  {
    match tree {
      case Constant(name) => KnownNames(name);
      case Percentage(operand) => ShowStarts(env, operand, 5);
      case Binary(operator, left, _) => ShowStarts(env, left, LeftLevel(operator));
      case Call(name, _) => KnownNames(name);
      case _ =>
    }
  }

  /** A prefix parse of text that starts an operand is the operand with the percents behind it. */
  lemma AtomThenPercents<N>(env: Env<N>, total: nat, s: string, tree: Tree, rest: string)
    requires |s| <= total && PlainStart(env, s)
    requires Atom(BindingPower, TreeEnv(env), total, s) == Ok((tree, rest))
    ensures Prefix(BindingPower, TreeEnv(env), total, s) == Ok(Percents(TreeEnv(env), tree, rest))
  {
    assert SkipSpace(TreeEnv(env), s) == s;
  }

  lemma {:induction false} WrapReads<N>(env: Env<N>, total: nat, tree: Tree, rest: string)
    requires AsciiClasses(env) && Printable(env, tree)
    requires |"(" + Bare(tree) + ")" + rest| <= total
    ensures Atom(BindingPower, TreeEnv(env), total, "(" + Bare(tree) + ")" + rest) == Ok((RatioAsDivide(tree), rest))
    decreases tree, 1, 1
  {
    var inner := Show(tree, 1) + (")" + rest);
    assert "(" + Bare(tree) + ")" + rest == "(" + inner;
    ArgumentReads(env, total, tree, ")" + rest);
    ClosesParenthesis(env, total, RatioAsDivide(tree), inner, rest);
  }

  lemma ClosesParenthesis<N>(env: Env<N>, total: nat, tree: Tree, inner: string, rest: string)
    requires |inner| < total && Whole(BindingPower, TreeEnv(env), total, inner) == Ok((tree, ")" + rest))
    requires SkipSpace(TreeEnv(env), ")" + rest) == ")" + rest
    ensures Atom(BindingPower, TreeEnv(env), total, "(" + inner) == Ok((tree, rest))
  {
    assert ("(" + inner)[1..] == inner && (")" + rest)[1..] == rest;
  }

  /** A closing parenthesis or a comma ends the loop. */
  lemma ClosingStops<N>(env: Env<N>, total: nat, tree: Tree, s: string)
    requires AsciiClasses(env) && |s| <= total && s != "" && (s[0] == ')' || s[0] == ',')
    ensures SkipSpace(env, s) == s && Below(TreeEnv(env), s, 2)
    ensures Continue(TreeEnv(env), total, tree, s, 0) == Ok((tree, s))
  {
    SameSpace(env, s);
  }

  lemma {:induction false} OperandReads<N>(env: Env<N>, total: nat, tree: Tree, level: nat, rest: string)
    requires AsciiClasses(env) && Printable(env, tree)
    requires Parenthesised(tree, level) || Level(tree) >= 4
    requires Follows(env, tree, level, rest) && |Show(tree, level) + rest| <= total
    ensures Prefix(BindingPower, TreeEnv(env), total, Show(tree, level) + rest)
         == Ok(Percents(TreeEnv(env), RatioAsDivide(tree), After(env, tree, level, rest)))
    decreases tree, if Parenthesised(tree, level) then 1 else 0, 2
  {
    ShowStarts(env, tree, level);
    var s := Show(tree, level) + rest;
    if Parenthesised(tree, level) {
      assert s == "(" + Bare(tree) + ")" + rest;
      WrapReads(env, total, tree, rest);
      AtomThenPercents(env, total, s, RatioAsDivide(tree), rest);
    } else {
      match tree {
        case Decimal(text) =>
          DecimalReads(env, total, text, rest);
          AtomThenPercents(env, total, s, tree, rest);
        case Integer(value) =>
          IntegerReads(env, total, value, rest);
          AtomThenPercents(env, total, s, tree, rest);
        case Constant(name) =>
          ConstantReads(env, total, name, rest);
          AtomThenPercents(env, total, s, tree, SkipSpace(env, rest));
        case Negated(operand) =>
          NegatedReads(env, total, operand, level, rest);
        case Percentage(operand) =>
          PercentageReads(env, total, operand, rest);
        case Call(name, arguments) =>
          CallReads(env, total, name, arguments, rest);
          AtomThenPercents(env, total, s, RatioAsDivide(tree), rest);
      }
    }
  }

  lemma MinusReads<N>(env: Env<N>, total: nat, s: string, value: N, rest: string)
    requires 0 < |s| <= total && s[0] == '-' && Prefix(BindingPower, env, total, s[1..]) == Ok((value, rest))
    ensures Atom(BindingPower, env, total, s) == Ok((env.negate(value), rest))
  {
  }

  lemma NegatedEnds<N>(env: Env<N>, operand: Tree, level: nat, rest: string)
    requires Follows(env, Negated(operand), level, rest) && level <= 4
    ensures Percents(TreeEnv(env), Negated(RatioAsDivide(operand)), After(env, operand, 4, rest))
         == (Negated(RatioAsDivide(operand)), After(env, Negated(operand), level, rest))
  {
  }

  lemma {:induction false} NegatedReads<N>(env: Env<N>, total: nat, operand: Tree, level: nat, rest: string)
    requires AsciiClasses(env) && Printable(env, operand) && level <= 4
    requires Follows(env, Negated(operand), level, rest) && |"-" + Show(operand, 4) + rest| <= total
    ensures Prefix(BindingPower, TreeEnv(env), total, "-" + Show(operand, 4) + rest)
         == Ok((Negated(RatioAsDivide(operand)), After(env, Negated(operand), level, rest)))
    decreases Negated(operand), 0, 1
  {
    var s := "-" + Show(operand, 4) + rest;
    assert s[1..] == Show(operand, 4) + rest;
    OperandReads(env, total, operand, 4, rest);
    MinusReads(TreeEnv(env), total, s, RatioAsDivide(operand), After(env, operand, 4, rest));
    AtomThenPercents(env, total, s, Negated(RatioAsDivide(operand)), After(env, operand, 4, rest));
    NegatedEnds(env, operand, level, rest);
  }

  lemma {:induction false} PercentageReads<N>(env: Env<N>, total: nat, operand: Tree, rest: string)
    requires AsciiClasses(env) && Printable(env, operand) && Ended(rest)
    requires |Show(operand, 5) + "%" + rest| <= total
    ensures Prefix(BindingPower, TreeEnv(env), total, Show(operand, 5) + "%" + rest)
         == Ok(Percents(TreeEnv(env), Percentage(RatioAsDivide(operand)), rest))
    decreases Percentage(operand), 0, 1
  {
    var tail := "%" + rest;
    assert Show(operand, 5) + "%" + rest == Show(operand, 5) + tail;
    assert tail[1..] == rest && SkipSpace(env, tail) == tail;
    OperandReads(env, total, operand, 5, tail);
  }

  lemma LetterStartsName<N>(env: Env<N>, total: nat, s: string)
    requires AsciiClasses(env) && 0 < |s| <= total && IsLetter(s[0])
    ensures env.isAlphabetic(s[0]) && Atom(BindingPower, env, total, s) == Name(BindingPower, env, total, s)
  {
  }

  lemma ConstantLetters(name: string, rest: string)
    requires IsConstant(name)
    ensures |name + rest| > 0 && IsLetter((name + rest)[0])
  {
    KnownNames(name);
    assert (name + rest)[0] == name[0];
  }

  /** A name of lower-case letters that no parenthesis follows is read as a constant. */
  lemma ConstantNameReads<N>(env: Env<N>, total: nat, name: string, rest: string)
    requires AsciiClasses(env) && IsConstant(name) && Ended(rest) && !Starts(SkipSpace(env, rest), '(')
    requires |name + rest| <= total
    ensures |name + rest| > 0 && env.isAlphabetic((name + rest)[0])
    ensures Name(BindingPower, env, total, name + rest) == Ok((env.constant(name), SkipSpace(env, rest)))
  {
    KnownNames(name);
    ConstantLetters(name, rest);
    LettersRead(env, name, rest);
    assert (name + rest)[..|name|] == name;
  }

  lemma ConstantReads<N>(env: Env<N>, total: nat, name: string, rest: string)
    requires AsciiClasses(env) && IsConstant(name) && Ended(rest) && !Starts(SkipSpace(env, rest), '(')
    requires |name + rest| <= total
    ensures Atom(BindingPower, TreeEnv(env), total, name + rest) == Ok((Constant(name), SkipSpace(env, rest)))
  {
    TreeClasses(env);
    SameSpace(env, rest);
    ConstantLetters(name, rest);
    LetterStartsName(TreeEnv(env), total, name + rest);
    ConstantNameReads(TreeEnv(env), total, name, rest);
  }

  lemma {:induction false} CallReads<N>(env: Env<N>, total: nat, name: string, arguments: seq<Tree>, rest: string)
    requires AsciiClasses(env) && Printable(env, Call(name, arguments)) && Ended(rest)
    requires |Bare(Call(name, arguments)) + rest| <= total
    ensures Atom(BindingPower, TreeEnv(env), total, Bare(Call(name, arguments)) + rest)
         == Ok((Call(name, RatiosAsDivides(arguments)), rest))
    decreases Call(name, arguments), 0, 1
  {
    var inside := ShowList(arguments) + (")" + rest);
    CallText(name, arguments, rest);
    CallOpens(env, total, name, inside, arguments);
    ListReads(env, total, [], arguments, inside, rest);
    CallCloses(env, name, arguments, RatiosAsDivides(arguments), rest);
    assert [] + RatiosAsDivides(arguments) == RatiosAsDivides(arguments);
  }

  lemma CallText(name: string, arguments: seq<Tree>, rest: string)
    ensures Bare(Call(name, arguments)) + rest == name + "(" + (ShowList(arguments) + (")" + rest))
  {
  }

  lemma CallOpens<N>(env: Env<N>, total: nat, name: string, inside: string, arguments: seq<Tree>)
    requires AsciiClasses(env) && Printable(env, Call(name, arguments)) && |name + "(" + inside| <= total
    requires ShowList(arguments) <= inside
    ensures Atom(BindingPower, TreeEnv(env), total, name + "(" + inside)
         == CloseCall(TreeEnv(env), name, Arguments(BindingPower, TreeEnv(env), total, [], inside))
  {
    TreeClasses(env);
    KnownNames(name);
    assert name + "(" + inside == name + ("(" + inside);
    LettersRead(TreeEnv(env), name, "(" + inside);
    ShowStarts(env, arguments[0], 1);
    assert inside[0] == Show(arguments[0], 1)[0];
    CallIsClosed(env, total, name, name + "(" + inside, inside);
  }

  /** A name and an opening parenthesis lead to the arguments behind them. */
  lemma {:induction false} CallIsClosed<N>(env: Env<N>, total: nat, name: string, s: string, inside: string)
    requires AsciiClasses(env) && LowerLetters(name) && ToLower(name) == name && |s| <= total
    requires s == name + ("(" + inside) && SkipLetters(TreeEnv(env), s) == "(" + inside
    requires PlainStart(env, inside) && PlainStart(TreeEnv(env), inside)
    ensures Atom(BindingPower, TreeEnv(env), total, s)
         == CloseCall(TreeEnv(env), name, Arguments(BindingPower, TreeEnv(env), total, [], inside))
  {
    TreeClasses(env);
    assert s[0] == name[0];
    LetterIsName(TreeEnv(env), total, s);
    NameIsCall(TreeEnv(env), total, name, s, inside);
  }

  lemma LetterIsName<N>(env: Env<N>, total: nat, s: string)
    requires AsciiClasses(env) && 0 < |s| <= total && IsLower(s[0])
    ensures env.isAlphabetic(s[0]) && Atom(BindingPower, env, total, s) == Name(BindingPower, env, total, s)
  {
  }

  lemma NameIsCall<N>(env: Env<N>, total: nat, name: string, s: string, inside: string)
    requires AsciiClasses(env) && 0 < |s| <= total && env.isAlphabetic(s[0]) && ToLower(name) == name
    requires s == name + ("(" + inside) && SkipLetters(env, s) == "(" + inside && PlainStart(env, inside)
    ensures Name(BindingPower, env, total, s) == CloseCall(env, name, Arguments(BindingPower, env, total, [], inside))
  {
    var tail := "(" + inside;
    assert s[..|name|] == name && tail[1..] == inside;
    assert SkipSpace(env, tail) == tail && SkipSpace(env, inside) == inside;
    assert Listed(BindingPower, env, total, inside) == Arguments(BindingPower, env, total, [], inside);
  }

  lemma CallCloses<N>(env: Env<N>, name: string, arguments: seq<Tree>, built: seq<Tree>, rest: string)
    requires Printable(env, Call(name, arguments)) && |built| == |arguments|
    ensures CloseCall(TreeEnv(env), name, Ok((built, ")" + rest))) == Ok((Call(name, built), rest))
  {
    assert (")" + rest)[1..] == rest;
    if |built| == 1 {
      assert [built[0]] == built;
    }
  }

  lemma {:induction false} FirstText(trees: seq<Tree>, closing: string)
    requires trees != []
    ensures ShowList(trees) + closing == Show(trees[0], 1) + (ShowMore(trees[1..]) + closing)
  {
  }

  lemma {:induction false} MoreText(trees: seq<Tree>, closing: string)
    requires trees != []
    ensures ShowMore(trees) + closing == ", " + (ShowList(trees) + closing)
  {
    assert ", " + Show(trees[0], 1) + ShowMore(trees[1..]) == ", " + ShowList(trees);
  }

  lemma {:induction false} FirstBuilt(earlier: seq<Tree>, later: seq<Tree>)
    requires later != []
    ensures (earlier + [RatioAsDivide(later[0])]) + RatiosAsDivides(later[1..]) == earlier + RatiosAsDivides(later)
  {
  }

  lemma {:induction false} OnlyBuilt(earlier: seq<Tree>, later: seq<Tree>)
    requires |later| == 1
    ensures earlier + [RatioAsDivide(later[0])] == earlier + RatiosAsDivides(later)
  {
    assert RatiosAsDivides(later[1..]) == [];
  }

  lemma {:induction false} ListReads<N>(env: Env<N>, total: nat, earlier: seq<Tree>, later: seq<Tree>, s: string,
                                        rest: string)
    requires AsciiClasses(env) && later != [] && (forall t :: t in later ==> Printable(env, t))
    requires s == ShowList(later) + (")" + rest) && |s| <= total
    ensures Arguments(BindingPower, TreeEnv(env), total, earlier, s)
          == Ok((earlier + RatiosAsDivides(later), ")" + rest))
    decreases later, 0, 0
  {
    var closing := ")" + rest;
    FirstText(later, closing);
    if |later| == 1 {
      assert ShowMore(later[1..]) + closing == closing;
      LastReads(env, total, earlier, later[0], s, closing);
      OnlyBuilt(earlier, later);
    } else {
      var next := ShowList(later[1..]) + closing;
      MoreText(later[1..], closing);
      OneReads(env, total, earlier, later[0], s, next);
      var first := RatioAsDivide(later[0]);
      ListReads(env, total, earlier + [first], later[1..], next, rest);
      FirstBuilt(earlier, later);
    }
  }

  /** The last argument ends the list. */
  lemma {:induction false} LastReads<N>(env: Env<N>, total: nat, earlier: seq<Tree>, tree: Tree, s: string,
                                        closing: string)
    requires AsciiClasses(env) && Printable(env, tree) && Starts(closing, ')')
    requires s == Show(tree, 1) + closing && |s| <= total
    ensures Arguments(BindingPower, TreeEnv(env), total, earlier, s) == Ok((earlier + [RatioAsDivide(tree)], closing))
    decreases tree, 0, 5
  {
    ArgumentReads(env, total, tree, closing);
    LastArgument(env, total, earlier, RatioAsDivide(tree), s, closing);
  }

  /** Any other argument is read, and the rest of the list is read after it. */
  lemma {:induction false} OneReads<N>(env: Env<N>, total: nat, earlier: seq<Tree>, tree: Tree, s: string, next: string)
    requires AsciiClasses(env) && Printable(env, tree)
    requires s == Show(tree, 1) + (", " + next) && |s| <= total
    ensures |next| <= total
    ensures Arguments(BindingPower, TreeEnv(env), total, earlier, s)
         == Arguments(BindingPower, TreeEnv(env), total, earlier + [RatioAsDivide(tree)], next)
    decreases tree, 0, 5
  {
    ArgumentReads(env, total, tree, ", " + next);
    OneArgument(env, total, earlier, RatioAsDivide(tree), s, next);
  }

  lemma {:induction false} ArgumentReads<N>(env: Env<N>, total: nat, tree: Tree, after: string)
    requires AsciiClasses(env) && Printable(env, tree)
    requires after != "" && (after[0] == ')' || after[0] == ',') && |Show(tree, 1) + after| <= total
    ensures Whole(BindingPower, TreeEnv(env), total, Show(tree, 1) + after) == Ok((RatioAsDivide(tree), after))
    ensures SkipSpace(TreeEnv(env), after) == after
    decreases tree, 0, 4
  {
    ClosingStops(env, total, RatioAsDivide(tree), after);
    ExpressionReads(env, total, tree, 1, after, 0);
    SameSpace(env, after);
  }

  lemma LastArgument<N>(env: Env<N>, total: nat, earlier: seq<Tree>, tree: Tree, s: string, after: string)
    requires |s| <= total && Whole(BindingPower, TreeEnv(env), total, s) == Ok((tree, after))
    requires SkipSpace(TreeEnv(env), after) == after && !Starts(after, ',')
    ensures Arguments(BindingPower, TreeEnv(env), total, earlier, s) == Ok((earlier + [tree], after))
  {
  }

  lemma OneArgument<N>(env: Env<N>, total: nat, earlier: seq<Tree>, tree: Tree, s: string, next: string)
    requires AsciiClasses(env) && |s| <= total && |next| + 2 <= total
    requires Whole(BindingPower, TreeEnv(env), total, s) == Ok((tree, ", " + next))
    requires SkipSpace(TreeEnv(env), ", " + next) == ", " + next
    ensures Arguments(BindingPower, TreeEnv(env), total, earlier, s)
         == Arguments(BindingPower, TreeEnv(env), total, earlier + [tree], next)
  {
    assert (", " + next)[1..] == " " + next;
    ArgumentsSkipSpace(env, total, earlier + [tree], next);
  }

  lemma ArgumentsSkipSpace<N>(env: Env<N>, total: nat, earlier: seq<Tree>, s: string)
    requires AsciiClasses(env) && |s| < total
    ensures Arguments(BindingPower, TreeEnv(env), total, earlier, " " + s)
          == Arguments(BindingPower, TreeEnv(env), total, earlier, s)
  {
    TreeClasses(env);
    SpaceBefore(TreeEnv(env), total, s, 0);
  }

  /** What may follow an expression printed at `level`: nothing that would change how it ends. */
  predicate Closes<N>(env: Env<N>, tree: Tree, level: nat, rest: string) {
    && Ended(rest) && !Starts(rest, '%')
    && (EndsBare(tree, level) ==> !Starts(SkipSpace(env, rest), '(') && !Starts(SkipSpace(env, rest), '%'))
    && (level <= 3 ==> Below(TreeEnv(env), rest, if level == 1 then 2 else 3))
  }

  /** Parsing printed text reads the tree and goes on with the loop behind it. */
  lemma {:induction false} ExpressionReads<N>(env: Env<N>, total: nat, tree: Tree, level: nat, rest: string,
                                              minimum: nat)
    requires AsciiClasses(env) && Printable(env, tree) && 1 <= level <= 4 && minimum <= 3 && minimum <= level
    requires Closes(env, tree, level, rest) && |Show(tree, level) + rest| <= total
    ensures Expression(TreeEnv(env), total, Show(tree, level) + rest, minimum)
         == Continue(TreeEnv(env), total, RatioAsDivide(tree), rest, minimum)
    decreases tree, if Parenthesised(tree, level) then 1 else 0, 3
  {
    if Parenthesised(tree, level) || Level(tree) >= 4 {
      OperandReads(env, total, tree, level, rest);
      SkipsToSame(env, total, RatioAsDivide(tree), rest, minimum);
    } else {
      BinaryReads(env, total, tree.operator, tree.left, tree.right, level, rest, minimum);
    }
  }

  lemma {:induction false} LeftReads<N>(env: Env<N>, total: nat, operator: Operator, left: Tree, rest: string,
                                        minimum: nat)
    requires AsciiClasses(env) && Printable(env, left) && minimum <= Precedence(operator)
    requires Starts(rest, ' ') && SkipSpace(env, rest) == rest[1..] && Starts(rest[1..], Symbol(operator))
    requires Next(TreeEnv(env), rest) == Some(operator)
    requires |ShowLeft(operator, left) + rest| <= total
    ensures Expression(TreeEnv(env), total, ShowLeft(operator, left) + rest, minimum)
         == Continue(TreeEnv(env), total, RatioAsDivide(left), rest, minimum)
    decreases left, 1, 4
  {
    if operator.Modulo? && EndsBare(left, 2) {
      var s := "(" + Bare(left) + ")" + rest;
      WrapReads(env, total, left, rest);
      TreeClasses(env);
      AtomThenPercents(env, total, s, RatioAsDivide(left), rest);
      assert ShowLeft(operator, left) + rest == s;
    } else {
      ExpressionReads(env, total, left, LeftLevel(operator), rest, minimum);
    }
  }

  lemma BinaryText(operator: Operator, left: Tree, right: Tree, rest: string)
    ensures Bare(Binary(operator, left, right)) + rest
         == ShowLeft(operator, left) + ([' ', Symbol(operator), ' '] + (Show(right, RightLevel(operator)) + rest))
  {
  }

  lemma {:induction false} BinaryReads<N>(env: Env<N>, total: nat, operator: Operator, left: Tree, right: Tree,
                                          level: nat, rest: string, minimum: nat)
    requires AsciiClasses(env) && Printable(env, Binary(operator, left, right))
    requires 1 <= level <= Precedence(operator) && minimum <= 3 && minimum <= level
    requires Closes(env, Binary(operator, left, right), level, rest)
    requires |Bare(Binary(operator, left, right)) + rest| <= total
    ensures Expression(TreeEnv(env), total, Bare(Binary(operator, left, right)) + rest, minimum)
         == Continue(TreeEnv(env), total, RatioAsDivide(Binary(operator, left, right)), rest, minimum)
    decreases Binary(operator, left, right), 0, 1
  {
    var tail := Show(right, RightLevel(operator)) + rest;
    var middle := [' ', Symbol(operator), ' '] + tail;
    BinaryText(operator, left, right, rest);
    OperatorReads(env, operator, tail);
    LeftReads(env, total, operator, left, middle, minimum);
    RightReads(env, total, operator, left, right, level, rest, minimum);
  }

  /** After the left operand, the operator and its right operand are taken. */
  lemma {:induction false} RightReads<N>(env: Env<N>, total: nat, operator: Operator, left: Tree, right: Tree,
                                         level: nat, rest: string, minimum: nat)
    requires AsciiClasses(env) && Printable(env, Binary(operator, left, right))
    requires 1 <= level <= Precedence(operator) && minimum <= 3 && minimum <= level
    requires Closes(env, Binary(operator, left, right), level, rest)
    requires |Bare(Binary(operator, left, right)) + rest| <= total
    ensures var middle := [' ', Symbol(operator), ' '] + (Show(right, RightLevel(operator)) + rest);
            && |middle| <= total
            && Continue(TreeEnv(env), total, RatioAsDivide(left), middle, minimum)
            == Continue(TreeEnv(env), total, RatioAsDivide(Binary(operator, left, right)), rest, minimum)
    decreases Binary(operator, left, right), 0, 0
  {
    var tail := Show(right, RightLevel(operator)) + rest;
    var middle := [' ', Symbol(operator), ' '] + tail;
    BinaryText(operator, left, right, rest);
    OperatorReads(env, operator, tail);
    TreeClasses(env);
    SpaceBefore(TreeEnv(env), total, tail, RightMinimum(operator));
    ExpressionReads(env, total, right, RightLevel(operator), rest, RightMinimum(operator));
    TakesOperator(env, total, operator, RatioAsDivide(left), RatioAsDivide(right), middle, rest, minimum);
  }

  /** The loop takes an operator whose right operand has been read up to `rest`. */
  lemma TakesOperator<N>(env: Env<N>, total: nat, operator: Operator, left: Tree, right: Tree, s: string, rest: string,
                         minimum: nat)
    requires |s| <= total && |rest| <= total && minimum <= Precedence(operator)
    requires Next(TreeEnv(env), s) == Some(operator)
    requires Below(TreeEnv(env), rest, RightMinimum(operator))
    requires Expression(TreeEnv(env), total, ConsumeOperator(SkipSpace(TreeEnv(env), s), operator),
               RightMinimum(operator))
          == Continue(TreeEnv(env), total, right, rest, RightMinimum(operator))
    ensures Continue(TreeEnv(env), total, left, s, minimum)
         == Continue(TreeEnv(env), total, Binary(WithoutRatio(operator), left, right), rest, minimum)
  {
    SameSpace(env, rest);
    SkipsToSame(env, total, Binary(WithoutRatio(operator), left, right), rest, minimum);
  }

  lemma OperatorReads<N>(env: Env<N>, operator: Operator, tail: string)
    requires AsciiClasses(env)
    ensures var s := [' ', Symbol(operator), ' '] + tail;
            && Starts(s, ' ') && SkipSpace(env, s) == s[1..] && Starts(s[1..], Symbol(operator))
            && OperatorAt(TreeEnv(env), s[1..]) == Some(operator)
            && ConsumeOperator(s[1..], operator) == " " + tail
            && Next(TreeEnv(env), s) == Some(operator)
  {
    var s := [' ', Symbol(operator), ' '] + tail;
    assert s[1..] == [Symbol(operator), ' '] + tail;
    assert s[1..][1..] == " " + tail;
    SameSpace(env, s);
    assert SkipSpace(env, s[1..]) == s[1..];
  }

  /** A printed tree is read back whole: the parser builds the tree that was printed, with each ratio as the
      division it is. */
  lemma PrintThenBuild<N>(env: Env<N>, tree: Tree)
    requires AsciiClasses(env) && Printable(env, tree)
    ensures ParseAll(BindingPower, TreeEnv(env), Show(tree, 1)) == Ok(RatioAsDivide(tree))
  {
    var s := Show(tree, 1);
    assert s + "" == s;
    SameSpace(env, "");
    ExpressionReads(env, |s|, tree, 1, "", 0);
  }

  /** And parsed with numbers, the printed tree gives the tree's value, or DivisionByZero exactly when
      evaluating from left to right meets a zero divisor. */
  lemma PrintParseEvaluate<N>(env: Env<N>, tree: Tree)
    requires AsciiClasses(env) && Printable(env, tree)
    ensures ParseAll(BindingPower, env, Show(tree, 1)) == Eval(env, tree)
    ensures Eval(env, tree).Err? ==> Eval(env, tree) == Err(DivisionByZero)
  {
    PrintThenBuild(env, tree);
    ParsingEvaluates(env, Show(tree, 1));
    SameValue(env, tree);
  }

  lemma OneSpace<N>(env: Env<N>, after: string)
    requires AsciiClasses(env) && after != "" && !env.isWhitespace(after[0])
    ensures SkipSpace(env, " " + after) == after
  {
    assert (" " + after)[1..] == after;
  }

  lemma PercentOnce<N>(env: Env<N>, tree: Tree, rest: string)
    requires !Starts(rest, '%')
    ensures Percents(TreeEnv(env), tree, "%" + rest) == (Percentage(tree), rest)
  {
    assert ("%" + rest)[1..] == rest;
  }
}
