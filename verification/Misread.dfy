/** What becomes of a modulo whose left operand ends with a bare constant: the name swallows the white space
    behind it (crates/calculator/src/expression.rs:285), and the `%` is read as a postfix percent. */
module Misread {
  import opened Bytes
  import opened Calculator
  import opened Trees
  import opened Layering
  import opened Printer

  /** The tree that is built when the constant at the end of the printed tree takes a percent. */
  function Percented(tree: Tree): Tree
    decreases tree
  {
    match tree
    case Constant(_) => Percentage(tree)
    case Negated(operand) => Negated(Percented(operand))
    case Binary(operator, left, right) => Binary(WithoutRatio(operator), RatioAsDivide(left), Percented(right))
    case _ => RatioAsDivide(tree)
  }

  /** What is left of a modulo: no operator that binds tighter than a sum. */
  predicate Leftover<N>(env: Env<N>, t: string) {
    PlainStart(env, t) && t[0] != '%' && (OperatorAt(env, t) == None || OperatorAt(env, t) == Some(Subtract))
  }

  lemma LeftoverNext<N>(env: Env<N>, t: string)
    requires AsciiClasses(env) && Leftover(env, t)
    ensures SkipSpace(env, " " + t) == t && SkipSpace(TreeEnv(env), " " + t) == t
    ensures Next(TreeEnv(env), " " + t) == OperatorAt(env, t)
    ensures Below(TreeEnv(env), " " + t, 2) && Below(TreeEnv(env), " " + t, 3)
  {
    assert (" " + t)[1..] == t;
    SameSpace(env, " " + t);
  }

  // ---------- reading the left operand ----------

  lemma ConstantMisreads<N>(env: Env<N>, total: nat, name: string, t: string)
    requires AsciiClasses(env) && IsConstant(name) && |name + " % " + t| <= total
    ensures Prefix(BindingPower, TreeEnv(env), total, name + " % " + t) == Ok((Percentage(Constant(name)), " " + t))
  {
    var after := "% " + t;
    var tail := " " + after;
    var s := name + " % " + t;
    assert s == name + tail && after == "%" + (" " + t);
    KnownNames(name);
    OneSpace(env, after);
    ConstantReads(env, total, name, tail);
    AtomThenPercents(env, total, s, Constant(name), after);
    PercentOnce(env, Constant(name), " " + t);
  }

  lemma {:induction false} OperandMisreads<N>(env: Env<N>, total: nat, tree: Tree, t: string)
    requires AsciiClasses(env) && Printable(env, tree) && EndsBare(tree, 4)
    requires |Bare(tree) + " % " + t| <= total
    ensures Prefix(BindingPower, TreeEnv(env), total, Bare(tree) + " % " + t) == Ok((Percented(tree), " " + t))
    decreases tree
  {
    match tree {
      case Constant(name) => ConstantMisreads(env, total, name, t);
      case Negated(operand) =>
        NegatedText(operand, t);
        OperandMisreads(env, total, operand, t);
        NegatedMisreads(env, total, Bare(operand) + " % " + t, Percented(operand), " " + t);
    }
  }

  lemma NegatedText(operand: Tree, t: string)
    requires Level(operand) >= 4
    ensures Bare(Negated(operand)) + " % " + t == "-" + (Bare(operand) + " % " + t)
  {
  }

  lemma BinaryText(operator: Operator, left: Tree, right: Tree, t: string)
    requires Level(right) >= RightLevel(operator)
    ensures var tail := Bare(right) + " % " + t;
            Bare(Binary(operator, left, right)) + " % " + t
            == ShowLeft(operator, left) + ([' ', Symbol(operator), ' '] + tail)
  {
  }

  lemma NegatedMisreads<N>(env: Env<N>, total: nat, s: string, tree: Tree, rest: string)
    requires AsciiClasses(env) && |"-" + s| <= total && !Starts(rest, '%')
    requires Prefix(BindingPower, TreeEnv(env), total, s) == Ok((tree, rest))
    ensures Prefix(BindingPower, TreeEnv(env), total, "-" + s) == Ok((Negated(tree), rest))
  {
    assert ("-" + s)[1..] == s;
    AtomThenPercents(env, total, "-" + s, Negated(tree), rest);
  }

  lemma {:induction false} ExpressionMisreads<N>(env: Env<N>, total: nat, tree: Tree, level: nat, t: string,
                                                 minimum: nat)
    requires AsciiClasses(env) && Printable(env, tree) && EndsBare(tree, level) && Leftover(env, t)
    requires 1 <= level <= 4 && minimum <= 3 && minimum <= level && |Bare(tree) + " % " + t| <= total
    ensures Expression(TreeEnv(env), total, Bare(tree) + " % " + t, minimum)
         == Continue(TreeEnv(env), total, Percented(tree), " " + t, minimum)
    decreases tree
  {
    if Level(tree) >= 4 {
      OperandMisreads(env, total, tree, t);
    } else {
      var operator, left, right := tree.operator, tree.left, tree.right;
      var tail := Bare(right) + " % " + t;
      var middle := [' ', Symbol(operator), ' '] + tail;
      BinaryText(operator, left, right, t);
      LeftIsRead(env, total, operator, left, middle, tail, minimum);
      ExpressionMisreads(env, total, right, RightLevel(operator), t, RightMinimum(operator));
      MisreadOperator(env, total, operator, RatioAsDivide(left), Percented(right), middle, tail, t, minimum);
    }
  }

  lemma LeftIsRead<N>(env: Env<N>, total: nat, operator: Operator, left: Tree, middle: string, tail: string,
                      minimum: nat)
    requires AsciiClasses(env) && Printable(env, left) && minimum <= Precedence(operator)
    requires middle == [' ', Symbol(operator), ' '] + tail && |ShowLeft(operator, left) + middle| <= total
    ensures Expression(TreeEnv(env), total, ShowLeft(operator, left) + middle, minimum)
         == Continue(TreeEnv(env), total, RatioAsDivide(left), middle, minimum)
  {
    OperatorReads(env, operator, tail);
    LeftReads(env, total, operator, left, middle, minimum);
  }

  lemma MisreadOperator<N>(env: Env<N>, total: nat, operator: Operator, left: Tree, right: Tree, middle: string,
                           tail: string, t: string, minimum: nat)
    requires AsciiClasses(env) && Leftover(env, t) && |middle| <= total && |t| < |tail|
    requires minimum <= Precedence(operator)
    requires middle == [' ', Symbol(operator), ' '] + tail
    requires Expression(TreeEnv(env), total, tail, RightMinimum(operator))
          == Continue(TreeEnv(env), total, right, " " + t, RightMinimum(operator))
    ensures Continue(TreeEnv(env), total, left, middle, minimum)
         == Continue(TreeEnv(env), total, Binary(WithoutRatio(operator), left, right), " " + t, minimum)
  {
    OperatorReads(env, operator, tail);
    LeftoverNext(env, t);
    TreeClasses(env);
    SameSpace(env, middle);
    SpaceBefore(TreeEnv(env), total, tail, RightMinimum(operator));
    TakesOperator(env, total, operator, left, right, middle, " " + t, minimum);
  }

  // ---------- how the right operand starts ----------

  /** The tree printed at `level` starts with a minus sign. */
  predicate Signed(tree: Tree, level: nat)
    decreases tree
  {
    Level(tree) >= level &&
    match tree
    case Negated(_) => true
    case Percentage(operand) => Signed(operand, 5)
    case Binary(operator, left, _) => !(operator.Modulo? && EndsBare(left, 2)) && Signed(left, LeftLevel(operator))
    case _ => false
  }

  /** Characters that start no operator. */
  predicate Quiet(c: char) {
    c !in {'+', '-', '*', '/', '%', ':', '^', 'o', 'O'}
  }

  lemma NamesAreQuiet(name: string)
    requires IsConstant(name) || ((IsUnary(name) || IsList(name)) && !HasDigit(name))
    ensures name != "" && Quiet(name[0])
  {
  }

  lemma {:induction false} StartsSignedOrQuiet<N>(env: Env<N>, tree: Tree, level: nat)
    requires AsciiClasses(env) && Printable(env, tree)
    ensures Show(tree, level) != "" && Bare(tree) != ""
    ensures if Signed(tree, level) then Show(tree, level)[0] == '-' else Quiet(Show(tree, level)[0])
    decreases tree
  {
    match tree {
      case Constant(name) => NamesAreQuiet(name);
      case Percentage(operand) => StartsSignedOrQuiet(env, operand, 5);
      case Binary(operator, left, _) => StartsSignedOrQuiet(env, left, LeftLevel(operator));
      case Call(name, _) => NamesAreQuiet(name);
      case _ =>
    }
  }

  lemma ShownIsLeftover<N>(env: Env<N>, tree: Tree, level: nat)
    requires AsciiClasses(env) && Printable(env, tree)
    ensures Leftover(env, Show(tree, level))
    ensures OperatorAt(env, Show(tree, level)) == if Signed(tree, level) then Some(Subtract) else None
  {
    ShowStarts(env, tree, level);
    StartsSignedOrQuiet(env, tree, level);
  }

  lemma {:induction false} SignedAtFour(tree: Tree)
    ensures !Signed(tree, 5)
    ensures Signed(tree, 4) ==> tree.Negated?
    decreases tree
  {
    if tree.Percentage? {
      SignedAtFour(tree.operand);
    }
  }

  /** Only a negated operand, and a power of one, start with a minus sign where a right operand stands. */
  lemma SignedForms(tree: Tree)
    requires Signed(tree, 3)
    ensures tree.Negated? || (tree.Binary? && tree.operator.Power? && tree.left.Negated?)
  {
    SignedAtFour(tree);
    if tree.Binary? {
      SignedAtFour(tree.left);
    }
  }

  /** The operand without the minus sign it starts with. */
  function Unsigned(tree: Tree): Tree
    requires Signed(tree, 3)
  {
    SignedForms(tree);
    if tree.Negated? then tree.operand else Binary(Power, tree.left.operand, tree.right)
  }

  /** Printed as a right operand, it is a minus sign and the rest printed there. */
  lemma UnsignedText(tree: Tree)
    requires Signed(tree, 3)
    ensures var level := if tree.Negated? then 4 else 3;
            Show(tree, 3) == "-" + Show(Unsigned(tree), level)
  {
    SignedForms(tree);
    if !tree.Negated? {
      var power, operand := Unsigned(tree), tree.left.operand;
      assert Bare(tree) == ShowLeft(Power, tree.left) + [' ', '^', ' '] + Show(tree.right, 3);
      assert ShowLeft(Power, tree.left) == "-" + Show(operand, 4);
      assert Bare(power) == Show(operand, 4) + [' ', '^', ' '] + Show(tree.right, 3);
    }
  }

  // ---------- the whole input ----------

  /** An unparenthesised modulo, as it would be printed without looking at how the left operand ends. */
  function Unparenthesised(left: Tree, right: Tree): string {
    Show(left, 2) + " % " + Show(right, 3)
  }

  /** The left operand with its percent, and then what follows. */
  lemma LeftMisreads<N>(env: Env<N>, left: Tree, right: Tree)
    requires AsciiClasses(env) && Printable(env, left) && Printable(env, right) && EndsBare(left, 2)
    ensures var text, t := Unparenthesised(left, right), Show(right, 3);
            && |" " + t| <= |text| && Leftover(env, t)
            && Expression(TreeEnv(env), |text|, text, 0) == Continue(TreeEnv(env), |text|, Percented(left), " " + t, 0)
  {
    ShownIsLeftover(env, right, 3);
    ExpressionMisreads(env, |Unparenthesised(left, right)|, left, 2, Show(right, 3), 0);
  }

  /** What the loop stops before is reported at its position. */
  lemma FailsBefore<N>(env: Env<N>, text: string, tree: Tree, t: string)
    requires AsciiClasses(env) && Leftover(env, t) && OperatorAt(env, t) == None && |t| < |text|
    requires Expression(TreeEnv(env), |text|, text, 0) == Continue(TreeEnv(env), |text|, tree, " " + t, 0)
    ensures ParseAll(BindingPower, TreeEnv(env), text) == Err(Unexpected(|text| - |t|))
  {
    LeftoverNext(env, t);
    SameSpace(env, t);
    assert SkipSpace(env, t) == t;
  }

  /** A subtraction that is left over is taken up to the end. */
  lemma SubtractsRest<N>(env: Env<N>, text: string, tree: Tree, t: string, operand: Tree)
    requires AsciiClasses(env) && Leftover(env, t) && OperatorAt(env, t) == Some(Subtract) && |" " + t| <= |text|
    requires Expression(TreeEnv(env), |text|, text, 0) == Continue(TreeEnv(env), |text|, tree, " " + t, 0)
    requires Expression(TreeEnv(env), |text|, t[1..], 2) == Continue(TreeEnv(env), |text|, operand, "", 2)
    ensures ParseAll(BindingPower, TreeEnv(env), text) == Ok(Binary(Subtract, tree, operand))
  {
    LeftoverNext(env, t);
    SameSpace(env, "");
    TakesOperator(env, |text|, Subtract, tree, operand, " " + t, "", 0);
  }

  /** Before an operand without a sign the input fails there. */
  lemma UnsignedFails<N>(env: Env<N>, left: Tree, right: Tree)
    requires AsciiClasses(env) && Printable(env, left) && Printable(env, right)
    requires EndsBare(left, 2) && !Signed(right, 3)
    ensures ParseAll(BindingPower, TreeEnv(env), Unparenthesised(left, right)) == Err(Unexpected(|Show(left, 2)| + 3))
  {
    LeftMisreads(env, left, right);
    ShownIsLeftover(env, right, 3);
    FailsBefore(env, Unparenthesised(left, right), Percented(left), Show(right, 3));
  }

  /** Before an operand that starts with a minus sign the input is a subtraction from the percentage. */
  lemma SignedSubtracts<N>(env: Env<N>, left: Tree, right: Tree)
    requires AsciiClasses(env) && Printable(env, left) && Printable(env, right)
    requires EndsBare(left, 2) && Signed(right, 3)
    ensures ParseAll(BindingPower, TreeEnv(env), Unparenthesised(left, right))
         == Ok(Binary(Subtract, Percented(left), RatioAsDivide(Unsigned(right))))
  {
    LeftMisreads(env, left, right);
    ShownIsLeftover(env, right, 3);
    UnsignedReads(env, |Unparenthesised(left, right)|, right);
    SubtractsRest(env, Unparenthesised(left, right), Percented(left), Show(right, 3), RatioAsDivide(Unsigned(right)));
  }

  lemma UnsignedReads<N>(env: Env<N>, total: nat, tree: Tree)
    requires AsciiClasses(env) && Printable(env, tree) && Signed(tree, 3) && |Show(tree, 3)| <= total
    ensures Show(tree, 3) != ""
    ensures Expression(TreeEnv(env), total, Show(tree, 3)[1..], 2)
         == Continue(TreeEnv(env), total, RatioAsDivide(Unsigned(tree)), "", 2)
  {
    var operand, level := Unsigned(tree), if tree.Negated? then 4 else 3;
    SignedForms(tree);
    UnsignedText(tree);
    assert Show(tree, 3)[1..] == Show(operand, level) + "";
    SameSpace(env, "");
    ExpressionReads(env, total, operand, level, "", 2);
  }

  lemma ModuloText(left: Tree, right: Tree)
    requires !EndsBare(left, 2)
    ensures Show(Binary(Modulo, left, right), 1) == Unparenthesised(left, right)
  {
    assert Bare(Binary(Modulo, left, right)) == ShowLeft(Modulo, left) + [' ', '%', ' '] + Show(right, 3);
    assert [' ', '%', ' '] == " % ";
  }

  /** An unparenthesised modulo: read as such unless the left operand ends with a bare constant; then it
      fails before an operand without a sign, and silently subtracts one that starts with a minus sign. */
  lemma ModuloReads<N>(env: Env<N>, left: Tree, right: Tree)
    requires AsciiClasses(env) && Printable(env, left) && Printable(env, right)
    ensures ParseAll(BindingPower, TreeEnv(env), Unparenthesised(left, right)) ==
            if !EndsBare(left, 2) then Ok(Binary(Modulo, RatioAsDivide(left), RatioAsDivide(right)))
            else if Signed(right, 3) then Ok(Binary(Subtract, Percented(left), RatioAsDivide(Unsigned(right))))
            else Err(Unexpected(|Show(left, 2)| + 3))
  {
    if !EndsBare(left, 2) {
      var tree := Binary(Modulo, left, right);
      PrintThenBuild(env, tree);
      ModuloText(left, right);
    } else if Signed(right, 3) {
      SignedSubtracts(env, left, right);
    } else {
      UnsignedFails(env, left, right);
    }
  }

  /** So the printer's parentheses around the left operand of a modulo are exactly those that are needed. */
  lemma ModuloIff<N>(env: Env<N>, left: Tree, right: Tree)
    requires AsciiClasses(env) && Printable(env, left) && Printable(env, right)
    ensures ParseAll(BindingPower, TreeEnv(env), Unparenthesised(left, right))
            == Ok(Binary(Modulo, RatioAsDivide(left), RatioAsDivide(right)))
            <==> !EndsBare(left, 2)
  {
    ModuloReads(env, left, right);
  }

  /** For instance, `pi % -2` is `pi% - 2`, with numbers as well. */
  lemma SignedExample<N>(env: Env<N>)
    requires AsciiClasses(env) && env.parseDecimal("2").Some?
    ensures var misread := Binary(Subtract, Percentage(Constant("pi")), Decimal("2"));
            && ParseAll(BindingPower, TreeEnv(env), "pi % -2") == Ok(misread)
            && ParseAll(BindingPower, env, "pi % -2") == Eval(env, misread)
  {
    var left, right := Constant("pi"), Negated(Decimal("2"));
    assert "2"[1..] == "" && WithoutUnderscores("2") == "2" && SkipDecimal("2", true) == "";
    assert Unparenthesised(left, right) == "pi % -2";
    SignedSubtracts(env, left, right);
    ParsingEvaluates(env, "pi % -2");
  }
}
