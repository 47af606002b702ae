/** The calculator's grammar (crates/calculator/src/expression.rs) as functions from the remaining input
    to a value and what remains. Numbers are abstract: `Env` supplies their operations. */
module Calculator {
  import opened Bytes

  datatype Operator = Add | Subtract | Multiply | Divide | Modulo | Ratio | Power

  datatype CalculatorError =
    | Unexpected(offset: nat)
    | Incomplete
    | UnknownName(name: string)
    | DivisionByZero
    | NonFinite
    | InvalidArguments(function_: string)

  /** Character classes and the number operations the parser calls. */
  datatype Env<!N> = Env(
    isAlphabetic: char -> bool,
    isWhitespace: char -> bool,
    parseDecimal: string -> Option<N>,
    fromInteger: nat -> N,
    constant: string -> N,
    negate: N -> N,
    percent: N -> N,
    binary: (Operator, N, N) -> N,
    isZero: N -> bool,
    unary: (string, N) -> N,
    list: (string, seq<N>) -> N)

  type Parse<N> = Result<(N, string), CalculatorError>

  /** Which way the binary operators are parsed: the program's binding-power loop, or the layered grammar
      sum = product ((+|-) product)*, product = power ((*|/|%|:|of) power)*, power = prefix (^ power)?. */
  datatype Grammar = BindingPower | Layered

  // ---------- characters ----------

  predicate Starts(s: string, c: char) {
    |s| > 0 && s[0] == c
  }

  predicate IsDigit(c: char) {
    '0' <= c <= '9'
  }

  predicate IsLower(c: char) {
    'a' <= c <= 'z'
  }

  predicate IsLetter(c: char) {
    IsLower(c) || 'A' <= c <= 'Z'
  }

  /** The classes are free beyond ASCII and fixed within it. */
  ghost predicate AsciiClasses<N>(env: Env<N>) {
    && (forall c: char :: c < 128 as char ==> env.isAlphabetic(c) == IsLetter(c))
    && (forall c: char :: c < 128 as char ==>
         env.isWhitespace(c) == (c in {' ', '\t', '\n', 11 as char, 12 as char, '\r'}))
  }

  function SkipSpace<N>(env: Env<N>, s: string): (r: string)
    ensures |r| <= |s|
    ensures |r| > 0 ==> !env.isWhitespace(r[0])
  {
    if |s| > 0 && env.isWhitespace(s[0]) then SkipSpace(env, s[1..]) else s
  }

  function SkipLetters<N>(env: Env<N>, s: string): (r: string)
    ensures |r| <= |s|
    ensures |s| > 0 && env.isAlphabetic(s[0]) ==> |r| < |s|
  {
    if |s| > 0 && env.isAlphabetic(s[0]) then SkipLetters(env, s[1..]) else s
  }

  function ToLower(s: string): (r: string)
    ensures |r| == |s|
  {
    if s == "" then ""
    else [if 'A' <= s[0] <= 'Z' then s[0] - 'A' + 'a' else s[0]] + ToLower(s[1..])
  }

  function WithoutUnderscores(s: string): string {
    if s == "" then ""
    else (if s[0] == '_' then "" else [s[0]]) + WithoutUnderscores(s[1..])
  }

  // ---------- numbers ----------

  function DigitValue(c: char): nat {
    if IsDigit(c) then c as nat - '0' as nat
    else if 'a' <= c <= 'f' then c as nat - 'a' as nat + 10
    else if 'A' <= c <= 'F' then c as nat - 'A' as nat + 10
    else 99
  }

  function SkipRadixDigits(s: string, radix: nat): (r: string)
    ensures |r| <= |s|
  {
    if |s| > 0 && (DigitValue(s[0]) < radix || s[0] == '_') then SkipRadixDigits(s[1..], radix) else s
  }

  function RadixValue(digits: string, radix: nat, accumulated: nat): nat {
    if digits == "" then accumulated else RadixValue(digits[1..], radix, accumulated * radix + DigitValue(digits[0]))
  }

  const MAX_U64: nat := 0xFFFF_FFFF_FFFF_FFFF
  const MAX_EXACT: nat := 9_007_199_254_740_992

  function Radix(s: string): Option<nat> {
    if |s| < 2 || s[0] != '0' then None
    else if s[1] == 'x' || s[1] == 'X' then Some(16)
    else if s[1] == 'b' || s[1] == 'B' then Some(2)
    else if s[1] == 'o' || s[1] == 'O' then Some(8)
    else None
  }

  /** `s` starts with a radix prefix. */
  function RadixNumber<N>(env: Env<N>, total: nat, s: string, radix: nat): (r: Parse<N>)
    requires 2 <= |s| <= total
    ensures r.Ok? ==> |r.value.1| < |s|
  {
    var rest := SkipRadixDigits(s[2..], radix);
    var digits := WithoutUnderscores(s[2..|s| - |rest|]);
    if |rest| == |s| - 2 || digits == "" || RadixValue(digits, radix, 0) > MAX_U64 then Err(Unexpected(total - |s|))
    else if RadixValue(digits, radix, 0) > MAX_EXACT then Err(NonFinite)
    else Ok((env.fromInteger(RadixValue(digits, radix, 0)), rest))
  }

  /** The longest run of digits, dots and underscores with at most one signed exponent mark. */
  function SkipDecimal(s: string, exponentAllowed: bool): (r: string)
    ensures |r| <= |s|
    ensures |s| > 0 && (IsDigit(s[0]) || s[0] == '.') ==> |r| < |s|
    decreases |s|
  {
    if s == "" then s
    else if IsDigit(s[0]) || s[0] == '.' || s[0] == '_' then SkipDecimal(s[1..], exponentAllowed)
    else if exponentAllowed && (s[0] == 'e' || s[0] == 'E') then
      SkipDecimal(if Starts(s[1..], '+') || Starts(s[1..], '-') then s[2..] else s[1..], false)
    else s
  }

  function Number<N>(env: Env<N>, total: nat, s: string): (r: Parse<N>)
    requires 0 < |s| <= total && (IsDigit(s[0]) || s[0] == '.')
    ensures r.Ok? ==> |r.value.1| < |s|
  {
    match Radix(s)
    case Some(radix) => RadixNumber(env, total, s, radix)
    case None =>
      var rest := SkipDecimal(s, true);
      match env.parseDecimal(WithoutUnderscores(s[..|s| - |rest|]))
      case None => Err(Unexpected(total - |s|))
      case Some(value) => Ok((value, rest))
  }

  // ---------- names ----------

  predicate IsConstant(name: string) {
    name in {"pi", "tau", "e", "phi"}
  }

  predicate IsUnary(name: string) {
    name in {"sqrt", "cbrt", "abs", "sin", "cos", "tan", "ln", "log", "log10", "log2", "exp", "floor", "ceil", "round"}
  }

  predicate IsList(name: string) {
    name in {"sum", "avg", "average", "min", "max"}
  }

  function ApplyFunction<N>(env: Env<N>, name: string, arguments: seq<N>): Result<N, CalculatorError> {
    if IsUnary(name) then
      if |arguments| == 1 then Ok(env.unary(name, arguments[0])) else Err(InvalidArguments(name))
    else if IsList(name) then
      if arguments == [] || (name in {"avg", "average"} && |arguments| > 0xFFFF_FFFF) then Err(InvalidArguments(name))
      else Ok(env.list(name, arguments))
    else Err(UnknownName(name))
  }

  // ---------- operators ----------

  predicate IsOf(s: string) {
    |s| >= 2 && (s[0] == 'o' || s[0] == 'O') && (s[1] == 'f' || s[1] == 'F')
  }

  function OperatorAt<N>(env: Env<N>, s: string): (r: Option<Operator>)
    ensures r.Some? ==> |s| > 0
    ensures r.Some? && IsOf(s) ==> r == Some(Multiply)
  {
    if s == "" then None
    else match s[0]
      case '+' => Some(Add)
      case '-' => Some(Subtract)
      case '*' => Some(Multiply)
      case '/' => Some(Divide)
      case '%' => Some(Modulo)
      case ':' => Some(Ratio)
      case '^' => Some(Power)
      case _ => if IsOf(s) && (|s| == 2 || env.isWhitespace(s[2])) then Some(Multiply) else None
  }

  function ConsumeOperator(s: string, operator: Operator): (r: string)
    requires |s| > 0
    ensures |r| < |s|
  {
    if operator.Multiply? && IsOf(s) then s[2..] else s[1..]
  }

  function Precedence(operator: Operator): nat {
    match operator
    case Add => 1
    case Subtract => 1
    case Power => 3
    case _ => 2
  }

  /** The least precedence the right operand may continue with: power associates to the right. */
  function RightMinimum(operator: Operator): nat {
    if operator.Power? then 3 else Precedence(operator) + 1
  }

  predicate Divides(operator: Operator) {
    operator.Divide? || operator.Modulo? || operator.Ratio?
  }

  function Combine<N>(env: Env<N>, operator: Operator, left: N, right: N): Result<N, CalculatorError> {
    if Divides(operator) && env.isZero(right) then Err(DivisionByZero)
    else Ok(env.binary(if operator.Ratio? then Divide else operator, left, right))
  }

  // ---------- expressions ----------

  function Whole<N>(grammar: Grammar, env: Env<N>, total: nat, s: string): (r: Parse<N>)
    requires |s| <= total
    ensures r.Ok? ==> |r.value.1| < |s|
    decreases |s|, 6
  {
    if grammar.BindingPower? then Expression(env, total, s, 0) else Sum(env, total, s)
  }

  function Expression<N>(env: Env<N>, total: nat, s: string, minimum: nat): (r: Parse<N>)
    requires |s| <= total
    ensures r.Ok? ==> |r.value.1| < |s|
    decreases |s|, 5
  {
    match Prefix(BindingPower, env, total, s)
    case Err(error) => Err(error)
    case Ok((left, rest)) => Continue(env, total, left, rest, minimum)
  }

  /** The binding-power loop. */
  function Continue<N>(env: Env<N>, total: nat, left: N, s: string, minimum: nat): (r: Parse<N>)
    requires |s| <= total
    ensures r.Ok? ==> |r.value.1| <= |s|
    decreases |s|, 0
  {
    var here := SkipSpace(env, s);
    match OperatorAt(env, here)
    case None => Ok((left, here))
    case Some(operator) =>
      if Precedence(operator) < minimum then Ok((left, here))
      else
        match Expression(env, total, ConsumeOperator(here, operator), RightMinimum(operator))
        case Err(error) => Err(error)
        case Ok((right, rest)) =>
          match Combine(env, operator, left, right)
          case Err(error) => Err(error)
          case Ok(value) => Continue(env, total, value, rest, minimum)
  }

  function Percents<N>(env: Env<N>, value: N, s: string): (r: (N, string))
    ensures |r.1| <= |s|
    decreases |s|
  {
    if Starts(s, '%') then Percents(env, env.percent(value), s[1..]) else (value, s)
  }

  /** An operand without its postfix percents. */
  function Atom<N>(grammar: Grammar, env: Env<N>, total: nat, s: string): (r: Parse<N>)
    requires |s| <= total
    ensures r.Ok? ==> |r.value.1| < |s|
    decreases |s|, 2
  {
    if s == "" then Err(Incomplete)
    else if s[0] == '+' then Prefix(grammar, env, total, s[1..])
    else if s[0] == '-' then
      match Prefix(grammar, env, total, s[1..])
      case Err(error) => Err(error)
      case Ok((value, rest)) => Ok((env.negate(value), rest))
    else if s[0] == '(' then
      match Whole(grammar, env, total, s[1..])
      case Err(error) => Err(error)
      case Ok((value, rest)) =>
        var here := SkipSpace(env, rest);
        if Starts(here, ')') then Ok((value, here[1..])) else Err(Incomplete)
    else if IsDigit(s[0]) || s[0] == '.' then Number(env, total, s)
    else if env.isAlphabetic(s[0]) then Name(grammar, env, total, s)
    else Err(Unexpected(total - |s|))
  }

  function Prefix<N>(grammar: Grammar, env: Env<N>, total: nat, s: string): (r: Parse<N>)
    requires |s| <= total
    ensures r.Ok? ==> |r.value.1| < |s|
    decreases |s|, 3
  {
    match Atom(grammar, env, total, SkipSpace(env, s))
    case Err(error) => Err(error)
    case Ok((value, rest)) => Ok(Percents(env, value, rest))
  }

  function Name<N>(grammar: Grammar, env: Env<N>, total: nat, s: string): (r: Parse<N>)
    requires 0 < |s| <= total && env.isAlphabetic(s[0])
    ensures r.Ok? ==> |r.value.1| < |s|
    decreases |s|, 1
  {
    var name := ToLower(s[..|s| - |SkipLetters(env, s)|]);
    var here := SkipSpace(env, SkipLetters(env, s));
    if !Starts(here, '(') then
      if IsConstant(name) then Ok((env.constant(name), here)) else Err(UnknownName(name))
    else
      var inside := SkipSpace(env, here[1..]);
      CloseCall(env, name, Listed(grammar, env, total, inside))
  }

  /** The arguments of a call up to its closing parenthesis: none, or a list. */
  function Listed<N>(grammar: Grammar, env: Env<N>, total: nat, inside: string)
    : (r: Result<(seq<N>, string), CalculatorError>)
    requires |inside| <= total
    ensures r.Ok? ==> |r.value.1| <= |inside|
    decreases |inside|, 8
  {
    if Starts(inside, ')') then Ok(([], inside)) else Arguments(grammar, env, total, [], inside)
  }

  function CloseCall<N>(env: Env<N>, name: string, listed: Result<(seq<N>, string), CalculatorError>): (r: Parse<N>)
    ensures r.Ok? ==> listed.Ok? && |r.value.1| < |listed.value.1|
  {
    match listed
    case Err(error) => Err(error)
    case Ok((arguments, rest)) =>
      if !Starts(rest, ')') then Err(Incomplete)
      else
        match ApplyFunction(env, name, arguments)
        case Err(error) => Err(error)
        case Ok(value) => Ok((value, rest[1..]))
  }

  function Arguments<N>(grammar: Grammar, env: Env<N>, total: nat, earlier: seq<N>, s: string)
    : (r: Result<(seq<N>, string), CalculatorError>)
    requires |s| <= total
    ensures r.Ok? ==> |r.value.1| < |s|
    decreases |s|, 7
  {
    match Whole(grammar, env, total, s)
    case Err(error) => Err(error)
    case Ok((value, rest)) =>
      var here := SkipSpace(env, rest);
      if Starts(here, ',') then Arguments(grammar, env, total, earlier + [value], here[1..])
      else Ok((earlier + [value], here))
  }

  /** The whole input must be consumed. */
  function ParseAll<N>(grammar: Grammar, env: Env<N>, input: string): Result<N, CalculatorError> {
    match Whole(grammar, env, |input|, input)
    case Err(error) => Err(error)
    case Ok((value, rest)) =>
      var here := SkipSpace(env, rest);
      if here == "" then Ok(value) else Err(Unexpected(|input| - |here|))
  }

  // ---------- the layered grammar ----------

  function Sum<N>(env: Env<N>, total: nat, s: string): (r: Parse<N>)
    requires |s| <= total
    ensures r.Ok? ==> |r.value.1| < |s|
    decreases |s|, 5
  {
    match Product(env, total, s)
    case Err(error) => Err(error)
    case Ok((left, rest)) => MoreTerms(env, total, left, rest)
  }

  function MoreTerms<N>(env: Env<N>, total: nat, left: N, s: string): (r: Parse<N>)
    requires |s| <= total
    ensures r.Ok? ==> |r.value.1| <= |s|
    decreases |s|, 0
  {
    var here := SkipSpace(env, s);
    match OperatorAt(env, here)
    case Some(operator) =>
      if !operator.Add? && !operator.Subtract? then Ok((left, here))
      else
        (match Product(env, total, ConsumeOperator(here, operator))
         case Err(error) => Err(error)
         case Ok((right, rest)) =>
           match Combine(env, operator, left, right)
           case Err(error) => Err(error)
           case Ok(value) => MoreTerms(env, total, value, rest))
    case None => Ok((left, here))
  }

  function Product<N>(env: Env<N>, total: nat, s: string): (r: Parse<N>)
    requires |s| <= total
    ensures r.Ok? ==> |r.value.1| < |s|
    decreases |s|, 4, 1
  {
    match PowerChain(env, total, s)
    case Err(error) => Err(error)
    case Ok((left, rest)) => MoreFactors(env, total, left, rest)
  }

  function MoreFactors<N>(env: Env<N>, total: nat, left: N, s: string): (r: Parse<N>)
    requires |s| <= total
    ensures r.Ok? ==> |r.value.1| <= |s|
    decreases |s|, 0
  {
    var here := SkipSpace(env, s);
    match OperatorAt(env, here)
    case Some(operator) =>
      if operator.Add? || operator.Subtract? || operator.Power? then Ok((left, here))
      else
        (match PowerChain(env, total, ConsumeOperator(here, operator))
         case Err(error) => Err(error)
         case Ok((right, rest)) =>
           match Combine(env, operator, left, right)
           case Err(error) => Err(error)
           case Ok(value) => MoreFactors(env, total, value, rest))
    case None => Ok((left, here))
  }

  function PowerChain<N>(env: Env<N>, total: nat, s: string): (r: Parse<N>)
    requires |s| <= total
    ensures r.Ok? ==> |r.value.1| < |s|
    decreases |s|, 4, 0
  {
    match Prefix(Layered, env, total, s)
    case Err(error) => Err(error)
    case Ok((base, rest)) =>
      var here := SkipSpace(env, rest);
      if OperatorAt(env, here) != Some(Power) then Ok((base, here))
      else
        match PowerChain(env, total, ConsumeOperator(here, Power))
        case Err(error) => Err(error)
        case Ok((exponent, after)) =>
          match Combine(env, Power, base, exponent)
          case Err(error) => Err(error)
          case Ok(value) => Ok((value, after))
  }
}
