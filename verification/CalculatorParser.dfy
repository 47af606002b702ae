/** The calculator's parser as it runs: an offset moving over the input, with loops for white space,
    digits, letters, arguments, percents and binary operators (crates/calculator/src/expression.rs). */
module CalculatorParser {
  import opened Bytes
  import C = Calculator

  class Parser<N> {
    const env: C.Env<N>
    const input: string
    var offset: nat

    ghost predicate Valid()
      reads this
    {
      offset <= |input|
    }

    ghost function Rest(): (rest: string)
      requires Valid()
      reads this
      ensures |rest| == |input| - offset
    {
      input[offset..]
    }

    /** `result` and the position reached are what the grammar function says. */
    ghost predicate Agrees(result: Result<N, C.CalculatorError>, specified: C.Parse<N>)
      requires Valid()
      reads this
    {
      match result
      case Ok(value) => specified == Ok((value, Rest()))
      case Err(error) => specified == Err(error)
    }

    constructor (env: C.Env<N>, input: string)
      ensures Valid() && this.env == env && this.input == input && offset == 0
    {
      this.env := env;
      this.input := input;
      offset := 0;
    }

    method Parse() returns (result: Result<N, C.CalculatorError>)
      requires Valid() && offset == 0
      modifies this
      ensures result == C.ParseAll(C.BindingPower, env, input)
    {
      assert Rest() == input;
      result := Expression(0);
      if result.Err? {
        return;
      }
      Whitespace();
      if offset != |input| {
        return Err(C.Unexpected(offset));
      }
    }

    method Peek() returns (next: Option<char>)
      requires Valid()
      ensures next == if Rest() == "" then None else Some(Rest()[0])
    {
      next := if offset < |input| then Some(input[offset]) else None;
    }

    method Bump() returns (next: Option<char>)
      requires Valid()
      modifies this
      ensures Valid()
      ensures old(Rest()) == "" ==> next == None && Rest() == ""
      ensures old(Rest()) != "" ==> next == Some(old(Rest())[0]) && Rest() == old(Rest())[1..]
    {
      next := Peek();
      if next.Some? {
        offset := offset + 1;
      }
    }

    method Whitespace()
      requires Valid()
      modifies this
      ensures Valid() && Rest() == C.SkipSpace(env, old(Rest()))
    {
      while offset < |input| && env.isWhitespace(input[offset])
        invariant Valid() && C.SkipSpace(env, Rest()) == C.SkipSpace(env, old(Rest()))
        decreases |input| - offset
      {
        assert Rest()[1..] == input[offset + 1..];
        offset := offset + 1;
      }
    }

    method OperatorHere() returns (operator: Option<C.Operator>)
      requires Valid()
      ensures operator == C.OperatorAt(env, Rest())
    {
      if offset == |input| {
        return None;
      }
      match input[offset] {
        case '+' => operator := Some(C.Add);
        case '-' => operator := Some(C.Subtract);
        case '*' => operator := Some(C.Multiply);
        case '/' => operator := Some(C.Divide);
        case '%' => operator := Some(C.Modulo);
        case ':' => operator := Some(C.Ratio);
        case '^' => operator := Some(C.Power);
        case _ =>
          var of := C.IsOf(input[offset..]) && (offset + 2 == |input| || env.isWhitespace(input[offset + 2]));
          operator := if of then Some(C.Multiply) else None;
      }
    }

    method ConsumeOperator(operator: C.Operator)
      requires Valid() && Rest() != ""
      modifies this
      ensures Valid() && Rest() == C.ConsumeOperator(old(Rest()), operator)
    {
      if operator.Multiply? && C.IsOf(input[offset..]) {
        offset := offset + 2;
      } else {
        offset := offset + 1;
      }
    }

    method Expression(minimum: nat) returns (result: Result<N, C.CalculatorError>)
      requires Valid()
      modifies this
      ensures Valid() && Agrees(result, C.Expression(env, |input|, old(Rest()), minimum))
      decreases |input| - offset, 3
    {
      result := Prefix();
      if result.Err? {
        return;
      }
      var left := result.value;
      ghost var specified := C.Expression(env, |input|, old(Rest()), minimum);
      while true
        invariant Valid() && offset > old(offset)
        invariant specified == C.Continue(env, |input|, left, Rest(), minimum)
        decreases |input| - offset
      {
        Whitespace();
        var operator := OperatorHere();
        if operator.None? || C.Precedence(operator.value) < minimum {
          break;
        }
        ConsumeOperator(operator.value);
        var right := Expression(C.RightMinimum(operator.value));
        if right.Err? {
          return right;
        }
        var combined := C.Combine(env, operator.value, left, right.value);
        if combined.Err? {
          return combined;
        }
        left := combined.value;
      }
      return Ok(left);
    }

    method Prefix() returns (result: Result<N, C.CalculatorError>)
      requires Valid()
      modifies this
      ensures Valid() && Agrees(result, C.Prefix(C.BindingPower, env, |input|, old(Rest())))
      decreases |input| - offset, 2
    {
      Whitespace();
      result := Atom();
      if result.Ok? {
        var value := Percents(result.value);
        result := Ok(value);
      }
    }

    /** Apply the postfix percents at the current position. */
    method Percents(operand: N) returns (value: N)
      requires Valid()
      modifies this
      ensures Valid() && offset >= old(offset)
      ensures C.Percents(env, operand, old(Rest())) == (value, Rest())
    {
      value := operand;
      while offset < |input| && input[offset] == '%'
        invariant Valid() && offset >= old(offset)
        invariant C.Percents(env, value, Rest()) == C.Percents(env, operand, old(Rest()))
        decreases |input| - offset
      {
        assert Rest()[1..] == input[offset + 1..];
        offset := offset + 1;
        value := env.percent(value);
      }
    }

    /** The operand at the current, non-blank position. */
    method Atom() returns (result: Result<N, C.CalculatorError>)
      requires Valid()
      modifies this
      ensures Valid() && Agrees(result, C.Atom(C.BindingPower, env, |input|, old(Rest())))
      decreases |input| - offset, 1
    {
      var next := Peek();
      if next == None {
        return Err(C.Incomplete);
      }
      if next == Some('+') {
        var sign := Bump();
        result := Prefix();
      } else if next == Some('-') {
        var sign := Bump();
        result := Prefix();
        if result.Ok? {
          result := Ok(env.negate(result.value));
        }
      } else if next == Some('(') {
        var opening := Bump();
        result := Expression(0);
        if result.Err? {
          return;
        }
        Whitespace();
        var closing := Bump();
        if closing != Some(')') {
          return Err(C.Incomplete);
        }
      } else if C.IsDigit(next.value) || next == Some('.') {
        result := Number();
      } else if env.isAlphabetic(next.value) {
        result := Name();
      } else {
        result := Err(C.Unexpected(offset));
      }
    }

    method Number() returns (result: Result<N, C.CalculatorError>)
      requires Valid() && Rest() != "" && (C.IsDigit(Rest()[0]) || Rest()[0] == '.')
      modifies this
      ensures Valid() && Agrees(result, C.Number(env, |input|, old(Rest())))
    {
      var start := offset;
      var radix := C.Radix(input[offset..]);
      if radix.Some? {
        result := RadixNumber(start, radix.value);
        return;
      }
      ghost var stop := C.SkipDecimal(Rest(), true);
      SkipDecimal();
      assert Rest() == stop;
      assert input[start..offset] == input[start..][..offset - start];
      var value := env.parseDecimal(C.WithoutUnderscores(input[start..offset]));
      result := if value.None? then Err(C.Unexpected(start)) else Ok(value.value);
    }

    /** Step over digits, points, underscores and at most one exponent with its sign. */
    method SkipDecimal()
      requires Valid()
      modifies this
      ensures Valid() && old(offset) <= offset && Rest() == C.SkipDecimal(old(Rest()), true)
    {
      var exponentAllowed := true;
      ghost var stop := C.SkipDecimal(Rest(), true);
      while offset < |input|
        invariant Valid() && old(offset) <= offset
        invariant C.SkipDecimal(Rest(), exponentAllowed) == stop
        decreases |input| - offset
      {
        var character := input[offset];
        assert Rest()[1..] == input[offset + 1..];
        if C.IsDigit(character) || character == '.' || character == '_' {
          offset := offset + 1;
        } else if exponentAllowed && (character == 'e' || character == 'E') {
          exponentAllowed := false;
          assert offset + 1 < |input| ==> Rest()[2..] == input[offset + 2..];
          offset := offset + 1;
          if offset < |input| && (input[offset] == '+' || input[offset] == '-') {
            offset := offset + 1;
          }
        } else {
          break;
        }
      }
      assert Rest() == stop;
    }

    method RadixNumber(start: nat, radix: nat) returns (result: Result<N, C.CalculatorError>)
      requires Valid() && |Rest()| >= 2 && start == offset
      modifies this
      ensures Valid() && Agrees(result, C.RadixNumber(env, |input|, old(Rest()), radix))
    {
      ghost var digitsOnward := Rest()[2..];
      offset := offset + 2;
      assert Rest() == digitsOnward;
      var digitsStart := offset;
      SkipRadixDigits(radix);
      if offset == digitsStart {
        return Err(C.Unexpected(start));
      }
      assert input[digitsStart..offset] == old(Rest())[2..|old(Rest())| - |Rest()|];
      var digits := C.WithoutUnderscores(input[digitsStart..offset]);
      var value := C.RadixValue(digits, radix, 0);
      if digits == "" || value > C.MAX_U64 {
        return Err(C.Unexpected(start));
      }
      if value > C.MAX_EXACT {
        return Err(C.NonFinite);
      }
      return Ok(env.fromInteger(value));
    }

    method SkipRadixDigits(radix: nat)
      requires Valid()
      modifies this
      ensures Valid() && old(offset) <= offset && Rest() == C.SkipRadixDigits(old(Rest()), radix)
    {
      ghost var stop := C.SkipRadixDigits(Rest(), radix);
      while offset < |input| && (C.DigitValue(input[offset]) < radix || input[offset] == '_')
        invariant Valid() && old(offset) <= offset
        invariant C.SkipRadixDigits(Rest(), radix) == stop
        decreases |input| - offset
      {
        assert Rest()[1..] == input[offset + 1..];
        offset := offset + 1;
      }
      assert Rest() == stop;
    }

    /** The letters at the current position, in lower case. */
    method Letters() returns (name: string)
      requires Valid() && Rest() != "" && env.isAlphabetic(Rest()[0])
      modifies this
      ensures Valid() && offset > old(offset)
      ensures Rest() == C.SkipLetters(env, old(Rest()))
      ensures name == C.ToLower(old(Rest())[..|old(Rest())| - |Rest()|])
    {
      var start := offset;
      ghost var all := Rest();
      while offset < |input| && env.isAlphabetic(input[offset])
        invariant Valid() && start <= offset
        invariant C.SkipLetters(env, Rest()) == C.SkipLetters(env, all)
        invariant offset == start ==> Rest() == all
        decreases |input| - offset
      {
        assert Rest()[1..] == input[offset + 1..];
        offset := offset + 1;
      }
      assert input[start..offset] == all[..|all| - |Rest()|];
      name := C.ToLower(input[start..offset]);
    }

    /** One or more arguments separated by commas. */
    method Arguments() returns (result: Result<seq<N>, C.CalculatorError>)
      requires Valid()
      modifies this
      ensures Valid()
      ensures var specified := C.Arguments(C.BindingPower, env, |input|, [], old(Rest()));
              match result
              case Ok(arguments) => specified == Ok((arguments, Rest()))
              case Err(error) => specified == Err(error)
      decreases |input| - offset, 4
    {
      var arguments: seq<N> := [];
      ghost var specified := C.Arguments(C.BindingPower, env, |input|, [], Rest());
      while true
        invariant Valid() && offset >= old(offset)
        invariant specified == C.Arguments(C.BindingPower, env, |input|, arguments, Rest())
        decreases |input| - offset
      {
        var argument := Expression(0);
        if argument.Err? {
          return Err(argument.error);
        }
        arguments := arguments + [argument.value];
        Whitespace();
        var separator := Peek();
        if separator != Some(',') {
          break;
        }
        separator := Bump();
      }
      return Ok(arguments);
    }

    method Name() returns (result: Result<N, C.CalculatorError>)
      requires Valid() && Rest() != "" && env.isAlphabetic(Rest()[0])
      modifies this
      ensures Valid() && Agrees(result, C.Name(C.BindingPower, env, |input|, old(Rest())))
      decreases |input| - offset, 0
    {
      var name := Letters();
      Whitespace();
      var next := Peek();
      if next != Some('(') {
        return if C.IsConstant(name) then Ok(env.constant(name)) else Err(C.UnknownName(name));
      }
      result := Call(name);
    }

    /** The argument list of `name`, from its opening parenthesis on. */
    method Call(name: string) returns (result: Result<N, C.CalculatorError>)
      requires Valid() && C.Starts(Rest(), '(')
      modifies this
      ensures Valid()
      ensures var inside := C.SkipSpace(env, old(Rest())[1..]);
              Agrees(result, C.CloseCall(env, name, C.Listed(C.BindingPower, env, |input|, inside)))
      decreases |input| - offset, 5
    {
      var opening := Bump();
      Whitespace();
      var next := Peek();
      var arguments: seq<N> := [];
      if next != Some(')') {
        var listed := Arguments();
        if listed.Err? {
          return Err(listed.error);
        }
        arguments := listed.value;
      }
      var closing := Bump();
      if closing != Some(')') {
        return Err(C.Incomplete);
      }
      result := C.ApplyFunction(env, name, arguments);
    }
  }
}
