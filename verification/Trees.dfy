/** Expression trees: what the calculator's fused evaluation computes is the value of the tree that the
    same parser builds (crates/calculator/src/expression.rs:149-217, 279-349). */
module Trees {
  import opened Bytes
  import opened Calculator

  datatype Tree =
    | Decimal(text: string)
    | Integer(value: nat)
    | Constant(name: string)
    | Negated(operand: Tree)
    | Percentage(operand: Tree)
    | Binary(operator: Operator, left: Tree, right: Tree)
    | Call(function_: string, arguments: seq<Tree>)

  /** A tree is never a zero divisor: the check waits for evaluation. */
  predicate NeverZero(tree: Tree) {
    false
  }

  /** The environment in which the parser builds its tree instead of a value. */
  function TreeEnv<N>(env: Env<N>): Env<Tree> {
    Env(env.isAlphabetic,
        env.isWhitespace,
        text => if env.parseDecimal(text).Some? then Some(Decimal(text)) else None,
        value => Integer(value),
        name => Constant(name),
        operand => Negated(operand),
        operand => Percentage(operand),
        (operator, left, right) => Binary(operator, left, right),
        tree => NeverZero(tree),
        (name, argument) => Call(name, [argument]),
        (name, arguments) => Call(name, arguments))
  }

  /** Evaluation from left to right; it stops at the first zero divisor. */
  function Eval<N>(env: Env<N>, tree: Tree): Result<N, CalculatorError>
    decreases tree
  {
    match tree
    case Decimal(text) =>
      (match env.parseDecimal(text)
       case Some(value) => Ok(value)
       case None => Err(Unexpected(0)))
    case Integer(value) => Ok(env.fromInteger(value))
    case Constant(name) => Ok(env.constant(name))
    case Negated(operand) =>
      (match Eval(env, operand)
       case Ok(value) => Ok(env.negate(value))
       case Err(error) => Err(error))
    case Percentage(operand) =>
      (match Eval(env, operand)
       case Ok(value) => Ok(env.percent(value))
       case Err(error) => Err(error))
    case Binary(operator, left, right) =>
      (match Eval(env, left)
       case Err(error) => Err(error)
       case Ok(x) =>
         match Eval(env, right)
         case Err(error) => Err(error)
         case Ok(y) => Combine(env, operator, x, y))
    case Call(name, arguments) =>
      match EvalAll(env, arguments)
      case Err(error) => Err(error)
      case Ok(values) =>
        if IsUnary(name) && |values| == 1 then Ok(env.unary(name, values[0])) else Ok(env.list(name, values))
  }

  function EvalAll<N>(env: Env<N>, trees: seq<Tree>): (r: Result<seq<N>, CalculatorError>)
    ensures r.Ok? ==> |r.value| == |trees|
    decreases trees
  {
    if trees == [] then Ok([])
    else
      match Eval(env, trees[0])
      case Err(error) => Err(error)
      case Ok(value) =>
        match EvalAll(env, trees[1..])
        case Err(error) => Err(error)
        case Ok(values) => Ok([value] + values)
  }

  lemma EvalOne<N>(env: Env<N>, tree: Tree)
    ensures EvalAll(env, [tree]) ==
            match Eval(env, tree)
            case Err(error) => Err(error)
            case Ok(value) => Ok([] + [value])
  {
    assert [tree][1..] == [] && EvalAll(env, []) == Ok([]);
    if Eval(env, tree).Ok? {
      assert [Eval(env, tree).value] + [] == [] + [Eval(env, tree).value];
    }
  }

  lemma {:induction false} EvalAppend<N>(env: Env<N>, earlier: seq<Tree>, tree: Tree)
    ensures EvalAll(env, earlier + [tree]) ==
            match EvalAll(env, earlier)
            case Err(error) => Err(error)
            case Ok(values) =>
              match Eval(env, tree)
              case Err(error) => Err(error)
              case Ok(value) => Ok(values + [value])
    decreases |earlier|
  {
    if earlier == [] {
      assert earlier + [tree] == [tree];
      EvalOne(env, tree);
    } else {
      assert (earlier + [tree])[1..] == earlier[1..] + [tree];
      EvalAppend(env, earlier[1..], tree);
      var first, others, last := Eval(env, earlier[0]), EvalAll(env, earlier[1..]), Eval(env, tree);
      if first.Ok? && others.Ok? && last.Ok? {
        assert [first.value] + (others.value + [last.value]) == ([first.value] + others.value) + [last.value];
      }
    }
  }

  // ---------- the operations completed while reading ----------

  /** Every operation the tree parser completes in an expression, as the tree it builds, up to the end of the
      expression or the place where parsing fails. */
  ghost function DoneExpression<N>(env: Env<N>, total: nat, s: string, minimum: nat): set<Tree>
    requires |s| <= total
    decreases |s|, 5
  {
    DonePrefix(env, total, s) +
    match Prefix(BindingPower, TreeEnv(env), total, s)
    case Err(_) => {}
    case Ok((left, rest)) => DoneContinue(env, total, left, rest, minimum)
  }

  ghost function DoneContinue<N>(env: Env<N>, total: nat, left: Tree, s: string, minimum: nat): set<Tree>
    requires |s| <= total
    decreases |s|, 0
  {
    var here := SkipSpace(env, s);
    match OperatorAt(env, here)
    case None => {}
    case Some(operator) =>
      if Precedence(operator) < minimum then {}
      else
        DoneExpression(env, total, ConsumeOperator(here, operator), RightMinimum(operator)) +
        match Expression(TreeEnv(env), total, ConsumeOperator(here, operator), RightMinimum(operator))
        case Err(_) => {}
        case Ok((right, rest)) =>
          var operation := Binary(if operator.Ratio? then Divide else operator, left, right);
          {operation} + DoneContinue(env, total, operation, rest, minimum)
  }

  ghost function DonePrefix<N>(env: Env<N>, total: nat, s: string): set<Tree>
    requires |s| <= total
    decreases |s|, 3
  {
    DoneAtom(env, total, SkipSpace(env, s))
  }

  ghost function DoneAtom<N>(env: Env<N>, total: nat, s: string): set<Tree>
    requires |s| <= total
    decreases |s|, 2
  {
    if s == "" then {}
    else if s[0] == '+' || s[0] == '-' then DonePrefix(env, total, s[1..])
    else if s[0] == '(' then DoneExpression(env, total, s[1..], 0)
    else if !IsDigit(s[0]) && s[0] != '.' && env.isAlphabetic(s[0]) then DoneName(env, total, s)
    else {}
  }

  ghost function DoneName<N>(env: Env<N>, total: nat, s: string): set<Tree>
    requires 0 < |s| <= total && env.isAlphabetic(s[0])
    decreases |s|, 1
  {
    var here := SkipSpace(env, SkipLetters(env, s));
    if !Starts(here, '(') then {}
    else
      var inside := SkipSpace(env, here[1..]);
      if Starts(inside, ')') then {} else DoneArguments(env, total, inside)
  }

  ghost function DoneArguments<N>(env: Env<N>, total: nat, s: string): set<Tree>
    requires |s| <= total
    decreases |s|, 7
  {
    DoneExpression(env, total, s, 0) +
    match Whole(BindingPower, TreeEnv(env), total, s)
    case Err(_) => {}
    case Ok((_, rest)) =>
      var here := SkipSpace(env, rest);
      if Starts(here, ',') then DoneArguments(env, total, here[1..]) else {}
  }

  // ---------- fusion ----------

  ghost predicate Stuck<N>(env: Env<N>, tree: Tree) {
    Eval(env, tree) == Err(DivisionByZero)
  }

  /** One of the operations divides by zero. */
  ghost predicate AnyStuck<N>(env: Env<N>, done: set<Tree>) {
    exists operation :: operation in done && Stuck(env, operation)
  }

  lemma AnyUnion<N>(env: Env<N>, a: set<Tree>, b: set<Tree>)
    ensures AnyStuck(env, a + b) <==> AnyStuck(env, a) || AnyStuck(env, b)
  {
    if operation :| operation in a && Stuck(env, operation) {
      assert operation in a + b;
    }
    if operation :| operation in b && Stuck(env, operation) {
      assert operation in a + b;
    }
  }

  lemma AnyOne<N>(env: Env<N>, operation: Tree)
    ensures AnyStuck(env, {operation}) <==> Stuck(env, operation)
  {
    assert operation in {operation};
  }

  /** `parsed` is what evaluating the built tree gives. Where no tree is built, the parse fails in the
      same way, unless an operation completed before divides by zero. */
  ghost predicate Fused<N>(env: Env<N>, done: set<Tree>, built: Parse<Tree>, parsed: Parse<N>) {
    match built
    case Err(error) => parsed == if AnyStuck(env, done) then Err(DivisionByZero) else Err(error)
    case Ok((tree, rest)) =>
      if AnyStuck(env, done) then Stuck(env, tree) && parsed == Err(DivisionByZero)
      else Eval(env, tree).Ok? && parsed == Ok((Eval(env, tree).value, rest))
  }

  /** A zero divisor in what was parsed first stays the result of the whole. */
  lemma {:induction false} StuckContinues<N>(env: Env<N>, total: nat, left: Tree, s: string, minimum: nat)
    requires |s| <= total && Stuck(env, left)
    ensures var built := Continue(TreeEnv(env), total, left, s, minimum);
            built.Ok? ==> Stuck(env, built.value.0)
    decreases |s|
  {
    var trees := TreeEnv(env);
    var here := SkipSpace(trees, s);
    if OperatorAt(trees, here).Some? && Precedence(OperatorAt(trees, here).value) >= minimum {
      var operator := OperatorAt(trees, here).value;
      match Expression(trees, total, ConsumeOperator(here, operator), RightMinimum(operator)) {
        case Err(_) =>
        case Ok((right, rest)) =>
          var combined := Combine(trees, operator, left, right).value;
          StuckContinues(env, total, combined, rest, minimum);
      }
    }
  }

  lemma {:induction false} StuckPercents<N>(env: Env<N>, tree: Tree, s: string)
    requires Stuck(env, tree)
    ensures Stuck(env, Percents(TreeEnv(env), tree, s).0)
    decreases |s|
  {
    if Starts(s, '%') {
      StuckPercents(env, Percentage(tree), s[1..]);
    }
  }

  lemma {:induction false} FusePercents<N>(env: Env<N>, tree: Tree, value: N, s: string)
    requires Eval(env, tree) == Ok(value)
    ensures var built := Percents(TreeEnv(env), tree, s);
            var parsed := Percents(env, value, s);
            Eval(env, built.0) == Ok(parsed.0) && built.1 == parsed.1
    decreases |s|
  {
    if Starts(s, '%') {
      FusePercents(env, Percentage(tree), env.percent(value), s[1..]);
    }
  }

  lemma {:induction false} StuckArguments<N>(env: Env<N>, total: nat, earlier: seq<Tree>, s: string)
    requires |s| <= total && EvalAll(env, earlier) == Err(DivisionByZero)
    ensures var built := Arguments(BindingPower, TreeEnv(env), total, earlier, s);
            built.Ok? ==> EvalAll(env, built.value.0) == Err(DivisionByZero)
    decreases |s|
  {
    var trees := TreeEnv(env);
    match Whole(BindingPower, trees, total, s) {
      case Err(_) =>
      case Ok((tree, rest)) =>
        EvalAppend(env, earlier, tree);
        var here := SkipSpace(trees, rest);
        if Starts(here, ',') {
          StuckArguments(env, total, earlier + [tree], here[1..]);
        }
    }
  }

  lemma SameSpace<N>(env: Env<N>, s: string)
    ensures SkipSpace(TreeEnv(env), s) == SkipSpace(env, s)
    ensures SkipLetters(TreeEnv(env), s) == SkipLetters(env, s)
    ensures OperatorAt(TreeEnv(env), s) == OperatorAt(env, s)
  {
  }

  /** The operator that the loop takes next, if it takes one. */
  ghost predicate Takes<N>(env: Env<N>, s: string, minimum: nat, operator: Operator, next: string) {
    var here := SkipSpace(env, s);
    && OperatorAt(env, here) == Some(operator) && Precedence(operator) >= minimum
    && next == ConsumeOperator(here, operator)
  }

  lemma DoneOperator<N>(env: Env<N>, total: nat, left: Tree, s: string, minimum: nat, operator: Operator, next: string)
    requires |s| <= total && Takes(env, s, minimum, operator, next)
    ensures var right := Expression(TreeEnv(env), total, next, RightMinimum(operator));
            var doneRight := DoneExpression(env, total, next, RightMinimum(operator));
            AnyStuck(env, DoneContinue(env, total, left, s, minimum)) <==>
              || AnyStuck(env, doneRight)
              || (right.Ok? &&
                  var operation := Binary(if operator.Ratio? then Divide else operator, left, right.value.0);
                  Stuck(env, operation)
                  || AnyStuck(env, DoneContinue(env, total, operation, right.value.1, minimum)))
  {
    var doneRight := DoneExpression(env, total, next, RightMinimum(operator));
    match Expression(TreeEnv(env), total, next, RightMinimum(operator)) {
      case Err(_) => assert doneRight + {} == doneRight;
      case Ok((right, rest)) =>
        var operation := Binary(if operator.Ratio? then Divide else operator, left, right);
        var later := DoneContinue(env, total, operation, rest, minimum);
        AnyUnion(env, doneRight, {operation} + later);
        AnyUnion(env, {operation}, later);
        AnyOne(env, operation);
    }
  }

  /** Evaluating the operation that was built is carrying it out. */
  lemma OperationEvaluates<N>(env: Env<N>, operator: Operator, left: Tree, value: N, right: Tree)
    requires Eval(env, left) == Ok(value)
    ensures Eval(env, Binary(if operator.Ratio? then Divide else operator, left, right)) ==
            match Eval(env, right)
            case Err(error) => Err(error)
            case Ok(other) => Combine(env, operator, value, other)
  {
  }

  lemma {:induction false} FuseContinue<N>(env: Env<N>, total: nat, left: Tree, value: N, s: string, minimum: nat)
    requires |s| <= total && Eval(env, left) == Ok(value)
    ensures Fused(env, DoneContinue(env, total, left, s, minimum), Continue(TreeEnv(env), total, left, s, minimum),
                  Continue(env, total, value, s, minimum))
    decreases |s|, 3
  {
    SameSpace(env, s);
    var here := SkipSpace(env, s);
    SameSpace(env, here);
    if OperatorAt(env, here).Some? && Precedence(OperatorAt(env, here).value) >= minimum {
      var operator := OperatorAt(env, here).value;
      FuseOperator(env, total, left, value, s, minimum, operator, ConsumeOperator(here, operator));
    }
  }

  lemma {:induction false} FuseOperator<N>(env: Env<N>, total: nat, left: Tree, value: N, s: string, minimum: nat,
                                           operator: Operator, next: string)
    requires |s| <= total && Eval(env, left) == Ok(value) && Takes(env, s, minimum, operator, next)
    ensures Fused(env, DoneContinue(env, total, left, s, minimum), Continue(TreeEnv(env), total, left, s, minimum),
                  Continue(env, total, value, s, minimum))
    decreases |s|, 2
  {
    SameSpace(env, s);
    SameSpace(env, SkipSpace(env, s));
    DoneOperator(env, total, left, s, minimum, operator, next);
    FuseExpression(env, total, next, RightMinimum(operator));
    match Expression(TreeEnv(env), total, next, RightMinimum(operator)) {
      case Err(_) =>
      case Ok((right, rest)) => FuseTaken(env, total, left, value, s, minimum, operator, next, right, rest);
    }
  }

  lemma {:induction false} FuseTaken<N>(env: Env<N>, total: nat, left: Tree, value: N, s: string, minimum: nat,
                                        operator: Operator, next: string, right: Tree, rest: string)
    requires |s| <= total && Eval(env, left) == Ok(value) && Takes(env, s, minimum, operator, next)
    requires Expression(TreeEnv(env), total, next, RightMinimum(operator)) == Ok((right, rest))
    requires Fused(env, DoneExpression(env, total, next, RightMinimum(operator)),
                   Expression(TreeEnv(env), total, next, RightMinimum(operator)),
                   Expression(env, total, next, RightMinimum(operator)))
    ensures Fused(env, DoneContinue(env, total, left, s, minimum), Continue(TreeEnv(env), total, left, s, minimum),
                  Continue(env, total, value, s, minimum))
    decreases |s|, 1
  {
    var operation := Binary(if operator.Ratio? then Divide else operator, left, right);
    SameSpace(env, s);
    SameSpace(env, SkipSpace(env, s));
    DoneOperator(env, total, left, s, minimum, operator, next);
    ContinueTakes(TreeEnv(env), total, left, s, minimum, operator, next);
    ContinueTakes(env, total, value, s, minimum, operator, next);
    OperationEvaluates(env, operator, left, value, right);
    FuseOperation(env, total, operation, rest, minimum, s);
  }

  /** The loop once it has read the right operand of `operator`. */
  function Taken<N>(env: Env<N>, total: nat, operator: Operator, left: N, operand: Parse<N>, minimum: nat): Parse<N>
    requires operand.Ok? ==> |operand.value.1| <= total
  {
    match operand
    case Err(error) => Err(error)
    case Ok((right, rest)) =>
      match Combine(env, operator, left, right)
      case Err(error) => Err(error)
      case Ok(value) => Continue(env, total, value, rest, minimum)
  }

  /** One round of the loop. */
  lemma {:induction false} ContinueTakes<N>(env: Env<N>, total: nat, left: N, s: string, minimum: nat,
                                            operator: Operator, next: string)
    requires |s| <= total && Takes(env, s, minimum, operator, next)
    ensures Continue(env, total, left, s, minimum) ==
            Taken(env, total, operator, left, Expression(env, total, next, RightMinimum(operator)), minimum)
  {
  }

  lemma {:induction false} FuseOperation<N>(env: Env<N>, total: nat, operation: Tree, rest: string, minimum: nat,
                                            s: string)
    requires |rest| < |s| <= total
    ensures Eval(env, operation).Ok? ==>
              Fused(env, DoneContinue(env, total, operation, rest, minimum),
                    Continue(TreeEnv(env), total, operation, rest, minimum),
                    Continue(env, total, Eval(env, operation).value, rest, minimum))
    ensures var built := Continue(TreeEnv(env), total, operation, rest, minimum);
            Stuck(env, operation) && built.Ok? ==> Stuck(env, built.value.0)
    decreases |s|, 0
  {
    if Eval(env, operation).Ok? {
      FuseContinue(env, total, operation, Eval(env, operation).value, rest, minimum);
    } else if Stuck(env, operation) {
      StuckContinues(env, total, operation, rest, minimum);
    }
  }

  lemma {:induction false} FuseExpression<N>(env: Env<N>, total: nat, s: string, minimum: nat)
    requires |s| <= total
    ensures Fused(env, DoneExpression(env, total, s, minimum), Expression(TreeEnv(env), total, s, minimum),
                  Expression(env, total, s, minimum))
    decreases |s|, 5
  {
    FusePrefix(env, total, s);
    var done := DonePrefix(env, total, s);
    match Prefix(BindingPower, TreeEnv(env), total, s) {
      case Err(_) => assert done + {} == done;
      case Ok((left, rest)) =>
        AnyUnion(env, done, DoneContinue(env, total, left, rest, minimum));
        match Eval(env, left) {
          case Ok(value) => FuseContinue(env, total, left, value, rest, minimum);
          case Err(_) => StuckContinues(env, total, left, rest, minimum);
        }
    }
  }

  lemma {:induction false} FusePrefix<N>(env: Env<N>, total: nat, s: string)
    requires |s| <= total
    ensures Fused(env, DonePrefix(env, total, s), Prefix(BindingPower, TreeEnv(env), total, s),
                  Prefix(BindingPower, env, total, s))
    decreases |s|, 3
  {
    SameSpace(env, s);
    var here := SkipSpace(env, s);
    FuseAtom(env, total, here);
    match Atom(BindingPower, TreeEnv(env), total, here) {
      case Err(_) =>
      case Ok((tree, rest)) =>
        match Eval(env, tree) {
          case Ok(value) => FusePercents(env, tree, value, rest);
          case Err(_) => StuckPercents(env, tree, rest);
        }
    }
  }

  lemma {:induction false} FuseAtom<N>(env: Env<N>, total: nat, s: string)
    requires |s| <= total
    ensures Fused(env, DoneAtom(env, total, s), Atom(BindingPower, TreeEnv(env), total, s),
                  Atom(BindingPower, env, total, s))
    decreases |s|, 2
  {
    if s != "" {
      if s[0] == '+' || s[0] == '-' {
        FusePrefix(env, total, s[1..]);
      } else if s[0] == '(' {
        FuseExpression(env, total, s[1..], 0);
        match Whole(BindingPower, TreeEnv(env), total, s[1..]) {
          case Err(_) =>
          case Ok((_, rest)) => SameSpace(env, rest);
        }
      } else if IsDigit(s[0]) || s[0] == '.' {
      } else if env.isAlphabetic(s[0]) {
        FuseName(env, total, s);
      }
    }
  }

  lemma FuseApply<N>(env: Env<N>, name: string, trees: seq<Tree>)
    ensures ApplyFunction(TreeEnv(env), name, trees).Err? ==> forall values: seq<N> :: |values| == |trees| ==>
              ApplyFunction(env, name, values) == Err(ApplyFunction(TreeEnv(env), name, trees).error)
    ensures ApplyFunction(TreeEnv(env), name, trees).Ok? ==>
              Eval(env, ApplyFunction(TreeEnv(env), name, trees).value)
              == if EvalAll(env, trees).Ok? then ApplyFunction(env, name, EvalAll(env, trees).value)
                 else Err(EvalAll(env, trees).error)
  {
    if |trees| == 1 {
      assert [trees[0]] == trees;
    }
  }

  /** The same for argument lists. */
  ghost predicate FusedList<N>(env: Env<N>, done: set<Tree>, built: Result<(seq<Tree>, string), CalculatorError>,
                               parsed: Result<(seq<N>, string), CalculatorError>) {
    match built
    case Err(error) => parsed == if AnyStuck(env, done) then Err(DivisionByZero) else Err(error)
    case Ok((trees, rest)) =>
      if AnyStuck(env, done) then EvalAll(env, trees) == Err(DivisionByZero) && parsed == Err(DivisionByZero)
      else EvalAll(env, trees).Ok? && parsed == Ok((EvalAll(env, trees).value, rest))
  }

  lemma FuseCall<N>(env: Env<N>, name: string, done: set<Tree>, built: Result<(seq<Tree>, string), CalculatorError>,
                    parsed: Result<(seq<N>, string), CalculatorError>)
    requires FusedList(env, done, built, parsed)
    ensures Fused(env, done, CloseCall(TreeEnv(env), name, built), CloseCall(env, name, parsed))
  {
    if built.Ok? {
      FuseApply(env, name, built.value.0);
    }
  }

  lemma {:induction false} FuseName<N>(env: Env<N>, total: nat, s: string)
    requires 0 < |s| <= total && env.isAlphabetic(s[0])
    ensures Fused(env, DoneName(env, total, s), Name(BindingPower, TreeEnv(env), total, s),
                  Name(BindingPower, env, total, s))
    decreases |s|, 1
  {
    SameSpace(env, s);
    SameSpace(env, SkipLetters(env, s));
    var name := ToLower(s[..|s| - |SkipLetters(env, s)|]);
    var here := SkipSpace(env, SkipLetters(env, s));
    if Starts(here, '(') {
      SameSpace(env, here[1..]);
      var inside := SkipSpace(env, here[1..]);
      if Starts(inside, ')') {
        FuseCall(env, name, {}, Ok(([], inside)), Ok(([], inside)));
      } else {
        FuseArguments(env, total, [], [], inside);
        FuseCall(env, name, DoneArguments(env, total, inside), Arguments(BindingPower, TreeEnv(env), total, [], inside),
                 Arguments(BindingPower, env, total, [], inside));
      }
    }
  }

  lemma {:induction false} FuseArguments<N>(env: Env<N>, total: nat, earlier: seq<Tree>, values: seq<N>, s: string)
    requires |s| <= total && EvalAll(env, earlier) == Ok(values)
    ensures FusedList(env, DoneArguments(env, total, s), Arguments(BindingPower, TreeEnv(env), total, earlier, s),
                      Arguments(BindingPower, env, total, values, s))
    decreases |s|, 7
  {
    FuseExpression(env, total, s, 0);
    var done := DoneExpression(env, total, s, 0);
    match Whole(BindingPower, TreeEnv(env), total, s) {
      case Err(_) => assert done + {} == done;
      case Ok((tree, rest)) =>
        EvalAppend(env, earlier, tree);
        SameSpace(env, rest);
        var here := SkipSpace(env, rest);
        if Starts(here, ',') {
          AnyUnion(env, done, DoneArguments(env, total, here[1..]));
          match Eval(env, tree) {
            case Ok(value) => FuseArguments(env, total, earlier + [tree], values + [value], here[1..]);
            case Err(_) => StuckArguments(env, total, earlier + [tree], here[1..]);
          }
        } else {
          assert done + {} == done;
        }
    }
  }

  /** The numeric result is the tree's value or its parser's error, unless an operation completed on the way
      divides by zero. */
  ghost predicate Evaluates<N>(env: Env<N>, input: string, built: Result<Tree, CalculatorError>,
                               parsed: Result<N, CalculatorError>) {
    var divided := AnyStuck(env, DoneExpression(env, |input|, input, 0));
    match built
    case Ok(tree) => parsed == Eval(env, tree) && if divided then parsed == Err(DivisionByZero) else parsed.Ok?
    case Err(error) => parsed == if divided then Err(DivisionByZero) else Err(error)
  }

  /** Parsing is building the tree and evaluating it, on every input: one that has a tree gives the tree's
      value; one without fails as its tree does; and the result is DivisionByZero exactly if one of the
      operations completed before the end or the failing position has a zero divisor. */
  lemma ParsingEvaluates<N>(env: Env<N>, input: string)
    ensures Evaluates(env, input, ParseAll(BindingPower, TreeEnv(env), input), ParseAll(BindingPower, env, input))
  {
    FuseExpression(env, |input|, input, 0);
    match Whole(BindingPower, TreeEnv(env), |input|, input) {
      case Err(_) =>
      case Ok((_, rest)) => SameSpace(env, rest);
    }
  }
}
