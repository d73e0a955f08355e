/**
 What the evaluator gives, said in terms of tokens, variables and values alone: the names and
 literals it starts from, the built-ins and the operators.  Nothing here mentions the meaning of
 a tree, so that the two definitions check each other.
 */
module ExpressionValues {
  import opened Wrappers
  import opened Values
  import opened Printing
  import opened ExpressionSyntax
  import opened ExpressionEvaluator

  /** A token read by itself: no keyword, and not the receiver of a call. */
  predicate Alone(text: string, rest: seq<string>) { !IsKeyword(text) && !OpensWithBuiltin(rest) }

  /** A single token is read by the last branch of the evaluator. */
  lemma {:induction false} OneToken(text: string, rest: seq<string>, ctx: Context)
    requires Alone(text, rest)
    ensures Eval([text] + rest, ctx) == Deliver(NameValue(text, ctx), rest)
  {
    var ts := [text] + rest;
    assert ts[1..] == rest;
    assert rest != [] ==> ts[1] == rest[0];
  }

  // -------------------------------------------------------------------- names and literals

  /** A bound name gives its variable, whatever its text looks like. */
  lemma {:induction false} BoundName(text: string, rest: seq<string>, ctx: Context)
    requires Alone(text, rest) && text in ctx.vars
    ensures Eval([text] + rest, ctx) == Ok(ctx.vars[text], rest)
  {
    OneToken(text, rest, ctx);
  }

  lemma {:induction false} TruthValues(rest: seq<string>, ctx: Context)
    requires !OpensWithBuiltin(rest) && "true" !in ctx.vars && "false" !in ctx.vars
    ensures Eval(["true"] + rest, ctx) == Ok(Bool(true), rest)
    ensures Eval(["false"] + rest, ctx) == Ok(Bool(false), rest)
  {
    OneToken("true", rest, ctx);
    OneToken("false", rest, ctx);
  }

  /** Any unbound text that is no truth value, no quotation and does not start with a digit stands for itself. */
  lemma {:induction false} PlainText(text: string, rest: seq<string>, ctx: Context)
    requires Alone(text, rest) && text !in ctx.vars
    requires text != "" && text != "true" && text != "false" && text[0] != '\"' && !IsDigit(text[0])
    ensures Eval([text] + rest, ctx) == Ok(Str(text), rest)
  {
    OneToken(text, rest, ctx);
  }

  predicate Digits(s: string) { s != "" && forall i :: 0 <= i < |s| ==> IsDigit(s[i]) }

  lemma {:induction false} ReadsOn(digits: string, rest: string, acc: nat)
    requires forall i :: 0 <= i < |digits| ==> IsDigit(digits[i])
    ensures LeadingNumber(digits + rest, acc) == LeadingNumber(rest, LeadingNumber(digits, acc))
    decreases digits
  {
    if digits == "" {
      assert digits + rest == rest;
    } else {
      var next := 10 * acc + (digits[0] as int - '0' as int);
      var more := digits + rest;
      assert IsDigit(digits[0]);
      assert more[0] == digits[0] && more[1..] == digits[1..] + rest;
      ReadsOn(digits[1..], rest, next);
    }
  }

  /** Reading digits from the left or from the right gives the same number. */
  lemma {:induction false} DigitsValue(digits: string)
    requires forall i :: 0 <= i < |digits| ==> IsDigit(digits[i])
    ensures LeadingNumber(digits, 0) == NatValue(digits)
    decreases digits
  {
    if digits != "" {
      var front, last := digits[..|digits| - 1], digits[|digits| - 1];
      assert digits == front + [last];
      ReadsOn(front, [last], 0);
      DigitsValue(front);
      assert [last][1..] == "";
    }
  }

  /** Digits, and whatever follows them, give the number the digits write, or the whole text if that is too big. */
  lemma {:induction false} DigitText(digits: string, suffix: string, rest: seq<string>, ctx: Context)
    requires Digits(digits) && (suffix == "" || !IsDigit(suffix[0]))
    requires Alone(digits + suffix, rest) && digits + suffix !in ctx.vars
    ensures Eval([digits + suffix] + rest, ctx)
            == Ok(if NatValue(digits) <= 0x7FFF_FFFF then Int(NatValue(digits)) else Str(digits + suffix), rest)
  {
    OneToken(digits + suffix, rest, ctx);
    ReadsOn(digits, suffix, 0);
    DigitsValue(digits);
    assert (digits + suffix)[0] == digits[0];
  }

  /** So the decimal text of a number gives that number. */
  lemma {:induction false} NumberText(n: nat, rest: seq<string>, ctx: Context)
    requires n <= 0x7FFF_FFFF && !OpensWithBuiltin(rest) && NatText(n) !in ctx.vars
    ensures Eval([NatText(n)] + rest, ctx) == Ok(Int(n), rest)
  {
    NatTextValue(n);
    assert NatText(n) + "" == NatText(n);
    assert IsDigit(NatText(n)[0]);
    DigitText(NatText(n), "", rest, ctx);
  }

  lemma {:induction false} FindsFirst(before: string, c: char, after: string)
    requires c !in before
    ensures Find(before + ([c] + after), c) == |before|
    decreases before
  {
    var s := before + ([c] + after);
    if before == "" {
      assert s == [c] + after;
    } else {
      assert s[0] == before[0] && s[1..] == before[1..] + ([c] + after);
      FindsFirst(before[1..], c, after);
    }
  }

  /**
   A quotation with a name in braces: the text from the brace up to its end is the name looked up,
   opening brace included, and the value goes in its place, the closing brace staying.
   */
  lemma {:induction false} Quotation(before: string, name: string, after: string, rest: seq<string>, ctx: Context)
    requires '{' !in before && '}' !in before && '}' !in name && before != "" && before[0] == '\"'
    requires var text := before + ("{" + (name + ("}" + after))); text !in ctx.vars && !OpensWithBuiltin(rest)
    ensures var text := before + ("{" + (name + ("}" + after)));
            var key := "{" + name;
            Eval([text] + rest, ctx)
            == if key in ctx.vars && ctx.vars[key].Str? then Ok(Str(before + ctx.vars[key].s + ("}" + after)), rest) else Fail
  {
    var text := before + ("{" + (name + ("}" + after)));
    assert text[0] == '\"';
    OneToken(text, rest, ctx);
    Interpolated(before, name, after, ctx.vars);
  }

  lemma {:induction false} Interpolated(before: string, name: string, after: string, vars: map<string, Value>)
    requires '{' !in before && '}' !in before && '}' !in name
    ensures var text := before + ("{" + (name + ("}" + after)));
            var key := "{" + name;
            Interpolate(text, vars)
            == if key in vars && vars[key].Str? then Some(Str(before + vars[key].s + ("}" + after))) else None
  {
    var tail := name + ("}" + after);
    var text := before + ("{" + tail);
    var key := "{" + name;
    FindsFirst(before, '{', tail);
    assert text == (before + key) + ("}" + after);
    FindsFirst(before + key, '}', after);
    assert text[..|before|] == before && text[|before|..|before| + |key|] == key;
    assert text[|before| + |key|..] == "}" + after;
  }

  /** A quotation without a brace cannot be evaluated. */
  lemma {:induction false} PlainQuotation(text: string, rest: seq<string>, ctx: Context)
    requires text != "" && text[0] == '\"' && '{' !in text && text !in ctx.vars && !OpensWithBuiltin(rest)
    ensures Eval([text] + rest, ctx) == Fail
  {
    OneToken(text, rest, ctx);
    assert Find(text, '{') == |text|;
  }

  // -------------------------------------------------------------------- built-ins

  /** `size` of a list, or of either kind of map, is the number of its elements; the call is two tokens. */
  lemma {:induction false} SizeCall(name: string, rest: seq<string>, ctx: Context)
    requires name in ctx.vars
    ensures ctx.vars[name].List? ==> Eval([name, "size"] + rest, ctx) == Ok(Int(|ctx.vars[name].items|), rest)
    ensures ctx.vars[name].Map? ==> Eval([name, "size"] + rest, ctx) == Ok(Int(|ctx.vars[name].entries|), rest)
    ensures ctx.vars[name].VarMap? ==> Eval([name, "size"] + rest, ctx) == Ok(Int(|ctx.vars[name].fields|), rest)
    ensures ctx.vars[name].Int? || ctx.vars[name].Str? || ctx.vars[name].Bool? ==>
              Eval([name, "size"] + rest, ctx) == Ok(Int(ctx.variantSize), rest)
  {
    var ts := [name, "size"] + rest;
    assert ts[0] == name && ts[1] == "size" && ts[2..] == rest;
  }

  /** Of an unbound name there is no size, not even of one that would be a literal. */
  lemma {:induction false} SizeOfUnbound(name: string, rest: seq<string>, ctx: Context)
    requires name !in ctx.vars
    ensures Eval([name, "size"] + rest, ctx) == Fail
  {
    var ts := [name, "size"] + rest;
    assert ts[0] == name && ts[1] == "size";
  }

  /** The other built-ins are constants that pass one or three more tokens, whatever those are. */
  lemma {:induction false} StubCalls(name: string, a: string, b: string, c: string, rest: seq<string>, ctx: Context)
    ensures Eval([name, "contains", a] + rest, ctx) == Ok(Bool(true), rest)
    ensures Eval([name, "upfrom", a] + rest, ctx) == Ok(Bool(false), rest)
    ensures Eval([name, "collect", a, b, c] + rest, ctx) == Ok(Bool(false), rest)
  {
    assert ([name, "contains", a] + rest)[1] == "contains" && ([name, "contains", a] + rest)[3..] == rest;
    assert ([name, "upfrom", a] + rest)[1] == "upfrom" && ([name, "upfrom", a] + rest)[3..] == rest;
    assert ([name, "collect", a, b, c] + rest)[1] == "collect" && ([name, "collect", a, b, c] + rest)[5..] == rest;
  }

  // -------------------------------------------------------------------- operators

  /** Tokens that an operator may stand before. */
  predicate Operand(ts: seq<string>) { ts != [] && !OpensWithBuiltin(ts) }

  lemma {:induction false} Negated(ts: seq<string>, a: bool, rest: seq<string>, ctx: Context)
    requires Operand(ts) && Eval(ts, ctx) == Ok(Bool(a), rest)
    ensures Eval(["!"] + ts, ctx) == Ok(Bool(!a), rest)
  {
    OperatorStep(Negate, ts, ctx);
  }

  lemma {:induction false} TwoOperands(op: Operator, ts: seq<string>, a: Value, mid: seq<string>, b: Value, rest: seq<string>, ctx: Context)
    requires Operand(ts) && Eval(ts, ctx) == Ok(a, mid) && Eval(mid, ctx) == Ok(b, rest) && NeedsSecond(op, a)
    ensures Eval([OperatorName(op)] + ts, ctx) == Deliver(Combine(op, a, b), rest)
  {
    OperatorStep(op, ts, ctx);
  }

  lemma {:induction false} Compared(ts: seq<string>, a: Value, mid: seq<string>, b: Value, rest: seq<string>, ctx: Context)
    requires Operand(ts) && Eval(ts, ctx) == Ok(a, mid) && Eval(mid, ctx) == Ok(b, rest)
    ensures Eval(["="] + ts, ctx) == Ok(Bool(a == b), rest)
  {
    TwoOperands(Equals, ts, a, mid, b, rest, ctx);
  }

  lemma {:induction false} SumInRange(a: int, b: int)
    ensures Combine(Add, Int(a), Int(b)) == if -0x8000_0000 <= a + b <= 0x7FFF_FFFF then Some(Int(a + b)) else None
  {
  }

  /** Two numbers add up, as long as the sum is a number of 32 bits. */
  lemma {:induction false} Added(ts: seq<string>, a: int, mid: seq<string>, b: int, rest: seq<string>, ctx: Context)
    requires Operand(ts) && Eval(ts, ctx) == Ok(Int(a), mid) && Eval(mid, ctx) == Ok(Int(b), rest)
    ensures Eval(["+"] + ts, ctx) == if -0x8000_0000 <= a + b <= 0x7FFF_FFFF then Ok(Int(a + b), rest) else Fail
  {
    TwoOperands(Add, ts, Int(a), mid, Int(b), rest, ctx);
    SumInRange(a, b);
  }

  /** A true left operand decides; a false one leaves it to the right one. */
  lemma {:induction false} Either(ts: seq<string>, a: bool, mid: seq<string>, b: bool, rest: seq<string>, ctx: Context)
    requires Operand(ts) && Eval(ts, ctx) == Ok(Bool(a), mid) && (!a ==> Eval(mid, ctx) == Ok(Bool(b), rest))
    ensures Eval(["|"] + ts, ctx) == if a then Ok(Bool(true), mid) else Ok(Bool(b), rest)
  {
    OperatorStep(Or, ts, ctx);
  }

  /** Operands of the wrong type cannot be evaluated. */
  lemma {:induction false} OnlyTruthValuesNegated(ts: seq<string>, a: Value, mid: seq<string>, ctx: Context)
    requires Operand(ts) && Eval(ts, ctx) == Ok(a, mid) && !a.Bool?
    ensures Eval(["!"] + ts, ctx) == Fail
  {
    OperatorStep(Negate, ts, ctx);
  }

  lemma {:induction false} OnlyTruthValuesJoined(ts: seq<string>, a: Value, mid: seq<string>, ctx: Context)
    requires Operand(ts) && Eval(ts, ctx) == Ok(a, mid)
    ensures !a.Bool? ==> Eval(["|"] + ts, ctx) == Fail
    ensures a == Bool(false) && (Eval(mid, ctx).Fail? || !Eval(mid, ctx).value.Bool?) ==> Eval(["|"] + ts, ctx) == Fail
  {
    OperatorStep(Or, ts, ctx);
  }

  lemma {:induction false} OnlyNumbersAdded(ts: seq<string>, a: Value, mid: seq<string>, b: Value, rest: seq<string>, ctx: Context)
    requires Operand(ts) && Eval(ts, ctx) == Ok(a, mid) && Eval(mid, ctx) == Ok(b, rest) && (!a.Int? || !b.Int?)
    ensures Eval(["+"] + ts, ctx) == Fail
  {
    TwoOperands(Add, ts, a, mid, b, rest, ctx);
  }

  // -------------------------------------------------------------------- the order of the source

  predicate IsOperatorToken(token: string) { token == "=" || token == "!" || token == "+" || token == "|" }

  /** A token list without its operators. */
  function Operands(ts: seq<string>): seq<string> {
    if ts == [] then [] else (if IsOperatorToken(ts[0]) then [] else [ts[0]]) + Operands(ts[1..])
  }

  lemma {:induction false} OperandsAppend(a: seq<string>, b: seq<string>)
    ensures Operands(a + b) == Operands(a) + Operands(b)
  {
    if a == [] {
      assert a + b == b;
    } else {
      assert (a + b)[1..] == a[1..] + b;
      OperandsAppend(a[1..], b);
    }
  }

  /** The names of a node from left to right as they stand in the source text. */
  function InSourceOrder(n: Node): seq<string>
    decreases n
  {
    match n
    case ExpressionList(children) => InSourceOrderAll(children)
    case BuiltinCall(receiver, builtin, None) => [receiver, builtin]
    case BuiltinCall(receiver, builtin, Some(arguments)) => [receiver, builtin] + InSourceOrder(arguments)
    case Negation(operand) => InSourceOrder(operand)
    case Binary(lhs, _, _, _, rhs) => InSourceOrder(lhs) + InSourceOrder(rhs)
    case Leaf(text) => if text == "all" then ["players"] else [text]
  }

  function InSourceOrderAll(ns: seq<Node>): seq<string>
    decreases ns
  {
    if ns == [] then [] else InSourceOrder(ns[0]) + InSourceOrderAll(ns[1..])
  }

  /** Compiling moves operators to the front but leaves everything else in the order of the source. */
  lemma {:induction false} OperandsInSourceOrder(n: Node)
    requires Readable(n)
    ensures Operands(Flatten(n)) == InSourceOrder(n)
    decreases n
  {
    match n
    case BuiltinCall(receiver, builtin, None) =>
      CallHead(receiver, builtin);
    case BuiltinCall(receiver, builtin, Some(arguments)) =>
      CallHead(receiver, builtin);
      assert Spaced(arguments) && arguments.ExpressionList?;
      forall i | 0 <= i < |arguments.children|
        ensures Readable(arguments.children[i])
      {
        assert Spaced(arguments.children[i]);
      }
      OperandsInSourceOrderAll(arguments.children);
      OperandsAppend([receiver, builtin], Flatten(arguments));
    case Negation(operand) =>
      OperandsInSourceOrder(operand);
      OperatorDropped("!", Flatten(operand));
    case Binary(lhs, _, _, _, rhs) =>
      OperandsInSourceOrder(lhs);
      OperandsInSourceOrder(rhs);
      OperatorTokenIsOperator(n);
      OperandsAppend(Flatten(lhs), Flatten(rhs));
      Glue([OperatorToken(n)], Flatten(lhs), Flatten(rhs));
      OperatorDropped(OperatorToken(n), Flatten(lhs) + Flatten(rhs));
    case Leaf(text) =>
      assert Operands(Flatten(n)) == Flatten(n);
  }

  lemma {:induction false} OperatorDropped(op: string, ts: seq<string>)
    requires IsOperatorToken(op)
    ensures Operands([op] + ts) == Operands(ts)
  {
    assert ([op] + ts)[1..] == ts;
  }

  lemma {:induction false} CallHead(receiver: string, builtin: string)
    requires !IsKeyword(receiver) && IsBuiltin(builtin)
    ensures Operands([receiver, builtin]) == [receiver, builtin]
  {
    OperandKept(receiver, [builtin]);
    OperandKept(builtin, []);
    assert [receiver] + [builtin] == [receiver, builtin] && [builtin] + [] == [builtin];
  }

  lemma {:induction false} OperandKept(token: string, ts: seq<string>)
    requires !IsOperatorToken(token)
    ensures Operands([token] + ts) == [token] + Operands(ts)
  {
    assert ([token] + ts)[1..] == ts;
  }

  lemma {:induction false} OperandsInSourceOrderAll(ns: seq<Node>)
    requires forall i :: 0 <= i < |ns| ==> Readable(ns[i])
    ensures Operands(FlattenAll(ns)) == InSourceOrderAll(ns)
    decreases ns
  {
    if ns != [] {
      OperandsInSourceOrder(ns[0]);
      OperandsInSourceOrderAll(ns[1..]);
      OperandsAppend(Flatten(ns[0]), FlattenAll(ns[1..]));
    }
  }
}
