/** `log2` and `log10` are in the table of functions, but names are read up to the first character that is not
    a letter (crates/calculator/src/expression.rs:279-290): no input calls them. */
module DigitNames {
  import opened Bytes
  import opened Calculator
  import opened Trees
  import opened Printer

  /** No call in the tree has a name with a digit. */
  predicate Callable(tree: Tree)
    decreases tree
  {
    match tree
    case Negated(operand) => Callable(operand)
    case Percentage(operand) => Callable(operand)
    case Binary(_, left, right) => Callable(left) && Callable(right)
    case Call(name, arguments) => !HasDigit(name) && forall argument :: argument in arguments ==> Callable(argument)
    case _ => true
  }

  predicate Built(parsed: Parse<Tree>) {
    parsed.Ok? ==> Callable(parsed.value.0)
  }

  predicate BuiltAll(parsed: Result<(seq<Tree>, string), CalculatorError>) {
    parsed.Ok? ==> forall tree :: tree in parsed.value.0 ==> Callable(tree)
  }

  // ---------- names ----------

  lemma {:induction false} LettersOnly<N>(env: Env<N>, s: string, i: nat)
    requires i < |s| - |SkipLetters(env, s)|
    ensures env.isAlphabetic(s[i])
    decreases |s|
  {
    if i > 0 {
      LettersOnly(env, s[1..], i - 1);
    }
  }

  lemma {:induction false} LowerKeepsDigits(s: string, i: nat)
    requires i < |s| && IsDigit(ToLower(s)[i])
    ensures IsDigit(s[i])
  {
    if i > 0 {
      LowerKeepsDigits(s[1..], i - 1);
    }
  }

  lemma NameHasNoDigit<N>(env: Env<N>, s: string)
    requires AsciiClasses(env)
    ensures !HasDigit(ToLower(s[..|s| - |SkipLetters(env, s)|]))
  {
    var name := s[..|s| - |SkipLetters(env, s)|];
    if HasDigit(ToLower(name)) {
      LowerKeepsDigits(name, 3);
      LettersOnly(env, s, 3);
      assert false;
    }
  }

  // ---------- the parser ----------

  lemma {:induction false} PercentsBuild<N>(env: Env<N>, tree: Tree, s: string)
    requires Callable(tree)
    ensures Callable(Percents(TreeEnv(env), tree, s).0)
    decreases |s|
  {
    if Starts(s, '%') {
      PercentsBuild(env, Percentage(tree), s[1..]);
    }
  }

  lemma {:induction false} ContinueBuilds<N>(env: Env<N>, total: nat, left: Tree, s: string, minimum: nat)
    requires AsciiClasses(env) && |s| <= total && Callable(left)
    ensures Built(Continue(TreeEnv(env), total, left, s, minimum))
    decreases |s|, 0
  {
    var trees := TreeEnv(env);
    var here := SkipSpace(trees, s);
    if OperatorAt(trees, here).Some? && Precedence(OperatorAt(trees, here).value) >= minimum {
      var operator := OperatorAt(trees, here).value;
      ExpressionBuilds(env, total, ConsumeOperator(here, operator), RightMinimum(operator));
      match Expression(trees, total, ConsumeOperator(here, operator), RightMinimum(operator)) {
        case Err(_) =>
        case Ok((right, rest)) =>
          ContinueBuilds(env, total, Combine(trees, operator, left, right).value, rest, minimum);
      }
    }
  }

  lemma {:induction false} ExpressionBuilds<N>(env: Env<N>, total: nat, s: string, minimum: nat)
    requires AsciiClasses(env) && |s| <= total
    ensures Built(Expression(TreeEnv(env), total, s, minimum))
    decreases |s|, 5
  {
    PrefixBuilds(env, total, s);
    match Prefix(BindingPower, TreeEnv(env), total, s) {
      case Err(_) =>
      case Ok((left, rest)) => ContinueBuilds(env, total, left, rest, minimum);
    }
  }

  lemma {:induction false} PrefixBuilds<N>(env: Env<N>, total: nat, s: string)
    requires AsciiClasses(env) && |s| <= total
    ensures Built(Prefix(BindingPower, TreeEnv(env), total, s))
    decreases |s|, 3
  {
    var here := SkipSpace(TreeEnv(env), s);
    AtomBuilds(env, total, here);
    match Atom(BindingPower, TreeEnv(env), total, here) {
      case Err(_) =>
      case Ok((tree, rest)) => PercentsBuild(env, tree, rest);
    }
  }

  lemma {:induction false} AtomBuilds<N>(env: Env<N>, total: nat, s: string)
    requires AsciiClasses(env) && |s| <= total
    ensures Built(Atom(BindingPower, TreeEnv(env), total, s))
    decreases |s|, 2
  {
    if s != "" {
      if s[0] == '+' || s[0] == '-' {
        PrefixBuilds(env, total, s[1..]);
      } else if s[0] == '(' {
        ExpressionBuilds(env, total, s[1..], 0);
      } else if !IsDigit(s[0]) && s[0] != '.' && env.isAlphabetic(s[0]) {
        NameBuilds(env, total, s);
      }
    }
  }

  lemma {:induction false} NameBuilds<N>(env: Env<N>, total: nat, s: string)
    requires AsciiClasses(env) && 0 < |s| <= total && env.isAlphabetic(s[0])
    ensures Built(Name(BindingPower, TreeEnv(env), total, s))
    decreases |s|, 1
  {
    var trees := TreeEnv(env);
    TreeClasses(env);
    NameHasNoDigit(trees, s);
    var here := SkipSpace(trees, SkipLetters(trees, s));
    if Starts(here, '(') {
      var inside := SkipSpace(trees, here[1..]);
      if !Starts(inside, ')') {
        ArgumentsBuild(env, total, [], inside);
      }
      CallBuilds(env, ToLower(s[..|s| - |SkipLetters(trees, s)|]), Listed(BindingPower, trees, total, inside));
    }
  }

  lemma CallBuilds<N>(env: Env<N>, name: string, arguments: Result<(seq<Tree>, string), CalculatorError>)
    requires !HasDigit(name) && BuiltAll(arguments)
    ensures Built(CloseCall(TreeEnv(env), name, arguments))
  {
  }

  lemma {:induction false} ArgumentsBuild<N>(env: Env<N>, total: nat, earlier: seq<Tree>, s: string)
    requires AsciiClasses(env) && |s| <= total && forall tree :: tree in earlier ==> Callable(tree)
    ensures BuiltAll(Arguments(BindingPower, TreeEnv(env), total, earlier, s))
    decreases |s|, 7
  {
    ExpressionBuilds(env, total, s, 0);
    match Whole(BindingPower, TreeEnv(env), total, s) {
      case Err(_) =>
      case Ok((tree, rest)) =>
        var here := SkipSpace(TreeEnv(env), rest);
        if Starts(here, ',') {
          ArgumentsBuild(env, total, earlier + [tree], here[1..]);
        }
    }
  }

  /** No tree built from any input calls `log2` or `log10`. */
  lemma NeverCalled<N>(env: Env<N>, input: string)
    requires AsciiClasses(env)
    ensures var built := ParseAll(BindingPower, TreeEnv(env), input);
            built.Ok? ==> Callable(built.value)
  {
    ExpressionBuilds(env, |input|, input, 0);
  }
}
