/** The binding-power loop of the calculator (crates/calculator/src/expression.rs:149-185) parses the
    layered grammar: same consumption, same values, same errors, in the same order. */
module Layering {
  import opened Bytes
  import opened Calculator

  lemma SkipSpaceTwice<N>(env: Env<N>, s: string)
    ensures SkipSpace(env, SkipSpace(env, s)) == SkipSpace(env, s)
  {
  }

  /** The operator that comes next, past white space. */
  function Next<N>(env: Env<N>, s: string): Option<Operator> {
    OperatorAt(env, SkipSpace(env, s))
  }

  predicate Below<N>(env: Env<N>, s: string, minimum: nat) {
    Next(env, s).Some? ==> Precedence(Next(env, s).value) < minimum
  }

  /** The loop stops before an operator it may not take. */
  lemma {:induction false} LoopStops<N>(env: Env<N>, total: nat, left: N, s: string, minimum: nat)
    requires |s| <= total
    ensures var r := Continue(env, total, left, s, minimum);
            r.Ok? ==> SkipSpace(env, r.value.1) == r.value.1 && Below(env, r.value.1, minimum)
    decreases |s|
  {
    SkipSpaceTwice(env, s);
    var here := SkipSpace(env, s);
    if !Below(env, s, minimum) {
      var operator := OperatorAt(env, here).value;
      match Expression(env, total, ConsumeOperator(here, operator), RightMinimum(operator)) {
        case Err(_) =>
        case Ok((right, rest)) =>
          var combined := Combine(env, operator, left, right);
          if combined.Ok? {
            LoopStops(env, total, combined.value, rest, minimum);
          }
      }
    }
  }

  lemma ExpressionStops<N>(env: Env<N>, total: nat, s: string, minimum: nat)
    requires |s| <= total
    ensures var r := Expression(env, total, s, minimum);
            r.Ok? ==> SkipSpace(env, r.value.1) == r.value.1 && Below(env, r.value.1, minimum)
  {
    match Prefix(BindingPower, env, total, s) {
      case Err(_) =>
      case Ok((left, rest)) => LoopStops(env, total, left, rest, minimum);
    }
  }

  function Then<N>(env: Env<N>, total: nat, first: Parse<N>, minimum: nat): Parse<N>
    requires first.Ok? ==> |first.value.1| <= total
  {
    match first
    case Err(error) => Err(error)
    case Ok((value, rest)) => Continue(env, total, value, rest, minimum)
  }

  /** Running the loop at a lower level is running it at a higher level first. */
  lemma {:induction false} LoopSplits<N>(env: Env<N>, total: nat, left: N, s: string, low: nat, high: nat)
    requires |s| <= total && low <= high
    ensures Continue(env, total, left, s, low) == Then(env, total, Continue(env, total, left, s, high), low)
    decreases |s|
  {
    SkipSpaceTwice(env, s);
    var here := SkipSpace(env, s);
    if !Below(env, s, high) {
      var operator := OperatorAt(env, here).value;
      match Expression(env, total, ConsumeOperator(here, operator), RightMinimum(operator)) {
        case Err(_) =>
        case Ok((right, rest)) =>
          var combined := Combine(env, operator, left, right);
          if combined.Ok? {
            LoopSplits(env, total, combined.value, rest, low, high);
          }
      }
    }
  }

  lemma ExpressionSplits<N>(env: Env<N>, total: nat, s: string, low: nat, high: nat)
    requires |s| <= total && low <= high
    ensures Expression(env, total, s, low) == Then(env, total, Expression(env, total, s, high), low)
  {
    match Prefix(BindingPower, env, total, s) {
      case Err(_) =>
      case Ok((left, rest)) => LoopSplits(env, total, left, rest, low, high);
    }
  }

  // ---------- the layers, by induction on the remaining input ----------

  /** At level three the loop takes at most one operator, a power; its right operand takes the rest. */
  lemma PowerTail<N>(env: Env<N>, total: nat, base: N, s: string)
    requires |s| <= total
    ensures Continue(env, total, base, s, 3) ==
            var here := SkipSpace(env, s);
            if OperatorAt(env, here) != Some(Power) then Ok((base, here))
            else Raise(env, base, Expression(env, total, ConsumeOperator(here, Power), 3))
  {
    var here := SkipSpace(env, s);
    if OperatorAt(env, here) == Some(Power) {
      ExpressionStops(env, total, ConsumeOperator(here, Power), 3);
    }
  }

  function Raise<N>(env: Env<N>, base: N, exponent: Parse<N>): Parse<N> {
    match exponent
    case Err(error) => Err(error)
    case Ok((value, rest)) =>
      match Combine(env, Power, base, value)
      case Err(error) => Err(error)
      case Ok(result) => Ok((result, rest))
  }

  lemma {:induction false} PowerLayer<N>(env: Env<N>, total: nat, s: string)
    requires |s| <= total
    ensures PowerChain(env, total, s) == Expression(env, total, s, 3)
    decreases |s|, 4, 0
  {
    SamePrefix(env, total, s);
    match Prefix(BindingPower, env, total, s) {
      case Err(_) =>
      case Ok((base, rest)) =>
        var here := SkipSpace(env, rest);
        PowerTail(env, total, base, rest);
        if OperatorAt(env, here) == Some(Power) {
          PowerLayer(env, total, ConsumeOperator(here, Power));
        }
    }
  }

  lemma {:induction false} FactorLoop<N>(env: Env<N>, total: nat, left: N, s: string)
    requires |s| <= total && Below(env, s, 3)
    ensures MoreFactors(env, total, left, s) == Continue(env, total, left, s, 2)
    decreases |s|, 0
  {
    var here := SkipSpace(env, s);
    if !Below(env, s, 2) {
      var operator := OperatorAt(env, here).value;
      var after := ConsumeOperator(here, operator);
      PowerLayer(env, total, after);
      ExpressionStops(env, total, after, 3);
      match Expression(env, total, after, 3) {
        case Err(_) =>
        case Ok((right, rest)) =>
          var combined := Combine(env, operator, left, right);
          if combined.Ok? {
            FactorLoop(env, total, combined.value, rest);
          }
      }
    }
  }

  lemma {:induction false} ProductLayer<N>(env: Env<N>, total: nat, s: string)
    requires |s| <= total
    ensures Product(env, total, s) == Expression(env, total, s, 2)
    decreases |s|, 4, 1
  {
    PowerLayer(env, total, s);
    ExpressionStops(env, total, s, 3);
    ExpressionSplits(env, total, s, 2, 3);
    match Expression(env, total, s, 3) {
      case Err(_) =>
      case Ok((left, rest)) => FactorLoop(env, total, left, rest);
    }
  }

  lemma {:induction false} TermLoop<N>(env: Env<N>, total: nat, left: N, s: string)
    requires |s| <= total && Below(env, s, 2)
    ensures MoreTerms(env, total, left, s) == Continue(env, total, left, s, 0)
    decreases |s|, 0
  {
    var here := SkipSpace(env, s);
    if OperatorAt(env, here).Some? {
      var operator := OperatorAt(env, here).value;
      var after := ConsumeOperator(here, operator);
      ProductLayer(env, total, after);
      ExpressionStops(env, total, after, 2);
      match Expression(env, total, after, 2) {
        case Err(_) =>
        case Ok((right, rest)) =>
          var combined := Combine(env, operator, left, right);
          if combined.Ok? {
            TermLoop(env, total, combined.value, rest);
          }
      }
    }
  }

  /** At minimum precedence zero the loop parses a sum. */
  lemma {:induction false} SumLayer<N>(env: Env<N>, total: nat, s: string)
    requires |s| <= total
    ensures Sum(env, total, s) == Expression(env, total, s, 0)
    decreases |s|, 5
  {
    ProductLayer(env, total, s);
    ExpressionStops(env, total, s, 2);
    ExpressionSplits(env, total, s, 0, 2);
    match Expression(env, total, s, 2) {
      case Err(_) =>
      case Ok((left, rest)) => TermLoop(env, total, left, rest);
    }
  }

  lemma SameWhole<N>(env: Env<N>, total: nat, s: string)
    requires |s| <= total
    ensures Whole(Layered, env, total, s) == Whole(BindingPower, env, total, s)
    decreases |s|, 6
  {
    SumLayer(env, total, s);
  }

  lemma {:induction false} SamePrefix<N>(env: Env<N>, total: nat, s: string)
    requires |s| <= total
    ensures Prefix(Layered, env, total, s) == Prefix(BindingPower, env, total, s)
    decreases |s|, 3
  {
    SameAtom(env, total, SkipSpace(env, s));
  }

  lemma {:induction false} SameAtom<N>(env: Env<N>, total: nat, s: string)
    requires |s| <= total
    ensures Atom(Layered, env, total, s) == Atom(BindingPower, env, total, s)
    decreases |s|, 2
  {
    if s != "" {
      SamePrefix(env, total, s[1..]);
      SameWhole(env, total, s[1..]);
      if env.isAlphabetic(s[0]) {
        SameName(env, total, s);
      }
    }
  }

  lemma {:induction false} SameName<N>(env: Env<N>, total: nat, s: string)
    requires 0 < |s| <= total && env.isAlphabetic(s[0])
    ensures Name(Layered, env, total, s) == Name(BindingPower, env, total, s)
    decreases |s|, 1
  {
    var here := SkipSpace(env, SkipLetters(env, s));
    if Starts(here, '(') {
      SameArguments(env, total, [], SkipSpace(env, here[1..]));
    }
  }

  lemma {:induction false} SameArguments<N>(env: Env<N>, total: nat, earlier: seq<N>, s: string)
    requires |s| <= total
    ensures Arguments(Layered, env, total, earlier, s) == Arguments(BindingPower, env, total, earlier, s)
    decreases |s|, 7
  {
    SameWhole(env, total, s);
    match Whole(BindingPower, env, total, s) {
      case Err(_) =>
      case Ok((value, rest)) =>
        var here := SkipSpace(env, rest);
        if Starts(here, ',') {
          SameArguments(env, total, earlier + [value], here[1..]);
        }
    }
  }

  /** At each of its levels the loop consumes what the layer of that level consumes, with the same result. */
  lemma LevelsAreLayers<N>(env: Env<N>, total: nat, s: string)
    requires |s| <= total
    ensures Expression(env, total, s, 0) == Sum(env, total, s)
    ensures Expression(env, total, s, 2) == Product(env, total, s)
    ensures Expression(env, total, s, 3) == PowerChain(env, total, s)
  {
    SumLayer(env, total, s);
    ProductLayer(env, total, s);
    PowerLayer(env, total, s);
  }

  /** The program's parser and the layered grammar agree on every input: on the value and on every
      error. With trees for numbers, they build the same tree. */
  lemma BindingPowerIsLayered<N>(env: Env<N>, input: string)
    ensures ParseAll(BindingPower, env, input) == ParseAll(Layered, env, input)
  {
    SameWhole(env, |input|, input);
  }
}
