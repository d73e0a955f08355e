/**
 The expression evaluator of lib/variables/EnvironmentMgr.cpp, and the proof that it gives a
 compiled expression its own value.

 The evaluator moves one cursor that all its recursive calls share.  A `||` whose left operand
 is true returns without moving past the right one, so what is read next depends on where the
 `||` stands.  `None` and `Fail` stand for a thrown exception or for behaviour C++ leaves
 undefined (a null receiver, an overflowing sum, an iterator past the end).
 */
module ExpressionEvaluator {
  import opened Wrappers
  import opened Values
  import opened ExpressionSyntax

  /** The variables of the scope an expression is evaluated in, and the byte size of the variant type. */
  datatype Context = Context(vars: map<string, Value>, variantSize: nat)

  // -------------------------------------------------------------------- literals

  /** First position of a character, or the length when there is none. */
  function Find(s: string, c: char): (i: nat)
    ensures i <= |s| && c !in s[..i] && (i < |s| ==> s[i] == c)
  {
    if s == [] then 0
    else if s[0] == c then 0
    else
      var j := Find(s[1..], c);
      assert s[..j + 1] == [s[0]] + s[1..][..j];
      j + 1
  }

  /** The number written by the leading digits. */
  function LeadingNumber(s: string, acc: nat): nat {
    if s == [] || !IsDigit(s[0]) then acc
    else LeadingNumber(s[1..], 10 * acc + (s[0] as int - '0' as int))
  }

  /** A quoted literal: the text from `{` up to `}`, brace included, is looked up as a variable. */
  function Interpolate(text: string, vars: map<string, Value>): Option<Value> {
    var first := Find(text, '{');
    var second := Find(text, '}');
    if first == |text| then None
    else
      var name := if first < second then text[first..second] else text[first..];
      if name !in vars || !vars[name].Str? || second == |text| then None
      else Some(Str(text[..first] + vars[name].s + text[second..]))
  }

  function ParseValue(text: string, vars: map<string, Value>): Option<Value> {
    if text == "true" then Some(Bool(true))
    else if text == "false" then Some(Bool(false))
    else if text == "" then None
    else if text[0] == '\"' then Interpolate(text, vars)
    else if IsDigit(text[0]) && LeadingNumber(text, 0) <= INT_MAX then Some(Int(LeadingNumber(text, 0)))
    else Some(Str(text))
  }

  /** A bound name is its variable, anything else a literal. */
  function NameValue(text: string, ctx: Context): Option<Value> {
    if text in ctx.vars then Some(ctx.vars[text]) else ParseValue(text, ctx.vars)
  }

  // -------------------------------------------------------------------- the value of an expression

  /** Built-ins as evaluated: only `size` computes, the others are constants in the source. */
  function BuiltinValue(b: Builtin, receiver: string, ctx: Context): Option<Value> {
    match b
    case Size =>
      if receiver in ctx.vars then Some(Int(SizeOf(ctx.vars[receiver], ctx.variantSize))) else None
    case Contains => Some(Bool(true))
    case Collect => Some(Bool(false))
    case UpFrom => Some(Bool(false))
  }

  function Sum(a: Value, b: Value): Option<Value> {
    if a.Int? && b.Int? && FitsInt(a.i + b.i) then Some(Int(a.i + b.i)) else None
  }

  /** The tree's own value: a structural definition that knows nothing of tokens or cursors. */
  function Meaning(e: Expr, ctx: Context): Option<Value>
    requires WellFormed(e)
  {
    match e
    case Name(text) => NameValue(text, ctx)
    case Call(receiver, builtin, _) => BuiltinValue(builtin, receiver, ctx)
    case Not(arg) =>
      var a := Meaning(arg, ctx);
      if a.Some? && a.value.Bool? then Some(Bool(!a.value.b)) else None
    case Bin(op, left, right) =>
      var a, b := Meaning(left, ctx), Meaning(right, ctx);
      if a.None? then None
      else if op == Or && a.value == Bool(true) then a
      else if b.None? then None
      else if op == Equals then Some(Bool(a.value == b.value))
      else if op == Add then Sum(a.value, b.value)
      else if a.value.Bool? && b.value.Bool? then Some(Bool(a.value.b || b.value.b))
      else None
  }

  // -------------------------------------------------------------------- the evaluator as a function

  /** A value and the tokens the cursor has not passed. */
  datatype Outcome = Ok(value: Value, rest: seq<string>) | Fail

  function Deliver(v: Option<Value>, rest: seq<string>): Outcome {
    if v.Some? then Ok(v.value, rest) else Fail
  }

  /** How far a built-in moves the cursor. */
  function Advance(b: Builtin): nat {
    match b
    case Size => 2
    case Contains => 3
    case Collect => 5
    case UpFrom => 3
  }

  function Eval(ts: seq<string>, ctx: Context): (r: Outcome)
    ensures r.Ok? ==> |r.rest| < |ts| && r.rest == ts[|ts| - |r.rest|..]
    decreases |ts|
  {
    if ts == [] then Fail
    else if |ts| > 1 && IsBuiltin(ts[1]) then EvalBuiltin(BuiltinOf(ts[1]).value, ts, ctx)
    else if |ts| > 1 && OperatorOf(ts[0]).Some? then
      var op := OperatorOf(ts[0]).value;
      var first := Eval(ts[1..], ctx);
      var second := if first.Ok? && NeedsSecond(op, first.value) then Eval(first.rest, ctx) else Fail;
      Step(op, first, second)
    else Deliver(NameValue(ts[0], ctx), ts[1..])
  }

  function EvalBuiltin(b: Builtin, ts: seq<string>, ctx: Context): Outcome
    requires ts != []
  {
    if |ts| < Advance(b) then Fail else Deliver(BuiltinValue(b, ts[0], ctx), ts[Advance(b)..])
  }

  /** `=` and `+` always evaluate two operands, `|` only when the first is false. */
  predicate NeedsSecond(op: Operator, a: Value) {
    op == Equals || op == Add || (op == Or && a == Bool(false))
  }

  function FromFirst(op: Operator, a: Value): Option<Value> {
    if !a.Bool? then None else Some(Bool(if op == Negate then !a.b else a.b))
  }

  function Combine(op: Operator, a: Value, b: Value): Option<Value> {
    if op == Equals then Some(Bool(a == b))
    else if op == Add then Sum(a, b)
    else if b.Bool? then Some(b) else None
  }

  /** What an operator makes of its operands; the second is only looked at when it is needed. */
  function Step(op: Operator, first: Outcome, second: Outcome): Outcome {
    if first.Fail? then Fail
    else if !NeedsSecond(op, first.value) then Deliver(FromFirst(op, first.value), first.rest)
    else if second.Fail? then Fail
    else Deliver(Combine(op, first.value, second.value), second.rest)
  }

  // -------------------------------------------------------------------- the evaluator as it runs

  /** One evaluation: a token list and the iterator into it. */
  class Evaluator {
    const tokens: seq<string>
    const ctx: Context
    var cursor: nat

    ghost predicate Valid()
      reads this
    {
      cursor <= |tokens|
    }

    constructor (tokens: seq<string>, ctx: Context)
      ensures this.tokens == tokens && this.ctx == ctx && cursor == 0 && Valid()
    {
      this.tokens := tokens;
      this.ctx := ctx;
      cursor := 0;
    }

    /** The result and the cursor agree with an outcome of evaluating from `start`. */
    ghost predicate Agrees(start: nat, r: Option<Value>, outcome: Outcome)
      reads this
    {
      && start <= cursor <= |tokens|
      && (outcome.Fail? <==> r.None?)
      && (outcome.Ok? ==> r == Some(outcome.value) && start < cursor && tokens[cursor..] == outcome.rest)
    }

    /** Evaluate from the cursor on; `None` is an exception or undefined behaviour. */
    method EvaluationExpression() returns (r: Option<Value>)
      requires Valid()
      modifies this
      ensures Agrees(old(cursor), r, Eval(old(tokens[cursor..]), ctx))
      decreases |tokens| - cursor, 1
    {
      if cursor == |tokens| {
        return None;
      }
      if cursor + 1 != |tokens| {
        var b := BuiltinOf(tokens[cursor + 1]);
        if b.Some? {
          r := EvaluateBuiltIn(b.value);
          return;
        }
        var op := OperatorOf(tokens[cursor]);
        if op.Some? {
          r := EvaluateOperator(op.value);
          return;
        }
      }
      r := NameValue(tokens[cursor], ctx);
      cursor := cursor + 1;
    }

    method EvaluateBuiltIn(b: Builtin) returns (r: Option<Value>)
      requires Valid() && cursor < |tokens|
      modifies this
      ensures Agrees(old(cursor), r, EvalBuiltin(b, old(tokens[cursor..]), ctx))
    {
      r := BuiltinValue(b, tokens[cursor], ctx);
      if |tokens| - cursor < Advance(b) {
        return None;
      }
      cursor := cursor + Advance(b);
    }

    /** C++ leaves open which operand of `=` and `+` is evaluated first; the first call takes the first tokens. */
    method EvaluateOperator(op: Operator) returns (r: Option<Value>)
      requires Valid() && cursor + 1 < |tokens|
      requires !IsBuiltin(tokens[cursor + 1]) && OperatorOf(tokens[cursor]) == Some(op)
      modifies this
      ensures Agrees(old(cursor), r, Eval(old(tokens[cursor..]), ctx))
      decreases |tokens| - cursor, 0
    {
      ghost var ts := tokens[cursor..];
      cursor := cursor + 1;
      assert tokens[cursor..] == ts[1..] && ts[1] == tokens[cursor];
      ghost var o := Eval(ts[1..], ctx);
      assert Eval(ts, ctx) ==
             Step(op, o, if o.Ok? && NeedsSecond(op, o.value) then Eval(o.rest, ctx) else Fail);
      var first := EvaluationExpression();
      if first == None {
        return None;
      }
      if op == Negate {
        return if first.value.Bool? then Some(Bool(!first.value.b)) else None;
      }
      if op == Or && (!first.value.Bool? || first.value.b) {
        return if first.value.Bool? then Some(Bool(true)) else None;
      }
      var second := EvaluationExpression();
      if second == None {
        return None;
      }
      var left, right := first.value, second.value;
      if op != Or {
        if * {
          left, right := second.value, first.value;
        }
      }
      if op == Equals {
        return Some(Bool(left == right));
      } else if op == Add {
        return Sum(left, right);
      } else {
        return if right.Bool? then Some(Bool(left.b || right.b)) else None;
      }
    }
  }

  // -------------------------------------------------------------------- where `||` may stand

  /** Every built-in call is as long as the evaluator believes it to be. */
  predicate Aligned(e: Expr)
    decreases e
  {
    match e
    case Name(_) => true
    case Call(_, builtin, args) => 2 + |TokensAll(args)| == Advance(builtin)
    case Not(arg) => Aligned(arg)
    case Bin(_, left, right) => Aligned(left) && Aligned(right)
  }

  predicate OrFree(e: Expr) {
    match e
    case Name(_) => true
    case Call(_, _, _) => true
    case Not(arg) => OrFree(arg)
    case Bin(op, left, right) => op != Or && OrFree(left) && OrFree(right)
  }

  /** Chains of `||` over operands without one. */
  predicate OrChain(e: Expr) {
    OrFree(e) || (e.Bin? && e.op == Or && OrChain(e.left) && OrChain(e.right))
  }

  /** Each `||` is the whole expression, directly below another `||`, or in the last operand. */
  predicate OrPlaced(e: Expr) {
    match e
    case Name(_) => true
    case Call(_, _, _) => true
    case Not(arg) => OrPlaced(arg)
    case Bin(op, left, right) => (if op == Or then OrChain(left) else OrFree(left)) && OrPlaced(right)
  }

  /** Does evaluation meet a `||` whose left operand is true? */
  predicate ShortCircuits(e: Expr, ctx: Context)
    requires WellFormed(e)
  {
    match e
    case Name(_) => false
    case Call(_, _, _) => false
    case Not(arg) => ShortCircuits(arg, ctx)
    case Bin(op, left, right) =>
      || (op == Or && Meaning(left, ctx) == Some(Bool(true)))
      || ShortCircuits(left, ctx)
      || ShortCircuits(right, ctx)
  }

  /** No short circuit happens in an operand after which more operands are still to be read. */
  predicate Safe(e: Expr, ctx: Context)
    requires WellFormed(e)
  {
    match e
    case Name(_) => true
    case Call(_, _, _) => true
    case Not(arg) => Safe(arg, ctx)
    case Bin(op, left, right) =>
      && Safe(left, ctx)
      && (Meaning(left, ctx).None? || (op == Or && Meaning(left, ctx) == Some(Bool(true)))
          || (!ShortCircuits(left, ctx) && Safe(right, ctx)))
  }

  /** The number of tokens the evaluator passes. */
  function Consumed(e: Expr, ctx: Context): (n: nat)
    requires WellFormed(e)
    ensures n <= |Tokens(e)|
  {
    match e
    case Name(_) => 1
    case Call(_, _, _) => |Tokens(e)|
    case Not(arg) => 1 + Consumed(arg, ctx)
    case Bin(op, left, right) =>
      if op == Or && Meaning(left, ctx) == Some(Bool(true)) then 1 + Consumed(left, ctx)
      else 1 + |Tokens(left)| + Consumed(right, ctx)
  }

  /** Exactly the short circuits leave tokens unread. */
  lemma {:induction false} ConsumedExactly(e: Expr, ctx: Context)
    requires WellFormed(e) && Safe(e, ctx) && Meaning(e, ctx).Some?
    ensures Consumed(e, ctx) == |Tokens(e)| <==> !ShortCircuits(e, ctx)
  {
    match e
    case Name(_) =>
    case Call(_, _, _) =>
    case Not(arg) => ConsumedExactly(arg, ctx);
    case Bin(op, left, right) =>
      ConsumedExactly(left, ctx);
      if !(op == Or && Meaning(left, ctx) == Some(Bool(true))) {
        ConsumedExactly(right, ctx);
      }
  }

  // -------------------------------------------------------------------- compiled expressions keep their meaning

  /** One operator in front of tokens that do not start with a built-in name. */
  lemma {:induction false} OperatorStep(op: Operator, inner: seq<string>, ctx: Context)
    requires inner != [] && !OpensWithBuiltin(inner)
    ensures var first := Eval(inner, ctx);
            var second := if first.Ok? && NeedsSecond(op, first.value) then Eval(first.rest, ctx) else Fail;
            Eval([OperatorName(op)] + inner, ctx) == Step(op, first, second)
  {
    var ts := [OperatorName(op)] + inner;
    assert ts[1] == inner[0];
    assert ts[1..] == inner;
  }

  /** Same value, or failure when there is none, and the cursor where `Consumed` says. */
  function Expected(e: Expr, rest: seq<string>, ctx: Context): Outcome
    requires WellFormed(e)
  {
    var v := Meaning(e, ctx);
    if v.None? then Fail else Ok(v.value, Tokens(e)[Consumed(e, ctx)..] + rest)
  }

  lemma {:induction false} EvalName(text: string, rest: seq<string>, ctx: Context)
    requires WellFormed(Name(text)) && Separated(Name(text), rest)
    ensures Eval(Tokens(Name(text)) + rest, ctx) == Expected(Name(text), rest, ctx)
  {
    assert ([text] + rest)[1..] == [text][1..] + rest;
  }

  lemma {:induction false} EvalCall(e: Expr, rest: seq<string>, ctx: Context)
    requires e.Call? && WellFormed(e) && Aligned(e)
    ensures Eval(Tokens(e) + rest, ctx) == Expected(e, rest, ctx)
  {
    var ts := Tokens(e) + rest;
    assert ts[1] == BuiltinName(e.builtin);
    assert ts[Advance(e.builtin)..] == Tokens(e)[|Tokens(e)|..] + rest;
  }

  /** A prefix operator, then the tokens of an expression. */
  lemma {:induction false} StartOperator(op: Operator, e: Expr, rest: seq<string>, ctx: Context)
    requires WellFormed(e)
    ensures var first := Eval(Tokens(e) + rest, ctx);
            var second := if first.Ok? && NeedsSecond(op, first.value) then Eval(first.rest, ctx) else Fail;
            Eval([OperatorName(op)] + (Tokens(e) + rest), ctx) == Step(op, first, second)
  {
    NoLeadingBuiltin(e, rest);
    OperatorStep(op, Tokens(e) + rest, ctx);
  }

  lemma {:induction false} TokensOfNot(arg: Expr, rest: seq<string>)
    ensures Tokens(Not(arg)) + rest == [OperatorName(Negate)] + (Tokens(arg) + rest)
  {
  }

  lemma {:induction false} TokensOfBin(e: Expr, rest: seq<string>)
    requires e.Bin? && WellFormed(e)
    ensures Tokens(e) + rest == [OperatorName(e.op)] + (Tokens(e.left) + (Tokens(e.right) + rest))
    ensures Separated(e.left, Tokens(e.right) + rest)
  {
    NoLeadingBuiltin(e.right, rest);
  }

  /** The evaluator on the tokens of an expression. */
  lemma {:induction false} EvalTokens(e: Expr, rest: seq<string>, ctx: Context)
    requires WellFormed(e) && Aligned(e) && Safe(e, ctx) && Separated(e, rest)
    ensures Eval(Tokens(e) + rest, ctx) == Expected(e, rest, ctx)
  {
    match e
    case Name(text) => EvalName(text, rest, ctx);
    case Call(_, _, _) => EvalCall(e, rest, ctx);
    case Not(arg) =>
      EvalTokens(arg, rest, ctx);
      StartOperator(Negate, arg, rest, ctx);
      TokensOfNot(arg, rest);
      ExpectedNot(arg, rest, ctx);
    case Bin(op, left, right) =>
      TokensOfBin(e, rest);
      EvalTokens(left, Tokens(right) + rest, ctx);
      StartOperator(op, left, Tokens(right) + rest, ctx);
      if ReachesRight(e, ctx) {
        ExpectedBoth(e, rest, ctx);
        EvalTokens(right, rest, ctx);
      } else {
        ExpectedLeftOnly(e, rest, ctx);
      }
  }

  predicate ReachesRight(e: Expr, ctx: Context)
    requires e.Bin? && WellFormed(e)
  {
    Meaning(e.left, ctx).Some? && NeedsSecond(e.op, Meaning(e.left, ctx).value)
  }

  lemma {:induction false} DropFront(front: seq<string>, back: seq<string>, n: nat)
    requires n <= |back|
    ensures (front + back)[|front| + n..] == back[n..]
  {
  }

  lemma {:induction false} ExpectedNot(arg: Expr, rest: seq<string>, ctx: Context)
    requires WellFormed(arg)
    ensures Expected(Not(arg), rest, ctx) == Step(Negate, Expected(arg, rest, ctx), Fail)
  {
    DropFront([OperatorName(Negate)], Tokens(arg), Consumed(arg, ctx));
  }

  lemma {:induction false} NothingUnread(e: Expr, after: seq<string>, ctx: Context)
    requires WellFormed(e) && Meaning(e, ctx).Some? && Consumed(e, ctx) == |Tokens(e)|
    ensures Expected(e, after, ctx).rest == after
  {
    assert Tokens(e)[|Tokens(e)|..] + after == after;
  }

  lemma {:induction false} ValueOfLeftOnly(e: Expr, ctx: Context)
    requires e.Bin? && WellFormed(e) && !ReachesRight(e, ctx)
    ensures Meaning(e, ctx) ==
            if Meaning(e.left, ctx).None? then None else FromFirst(e.op, Meaning(e.left, ctx).value)
    ensures Meaning(e, ctx).Some? ==> Consumed(e, ctx) == 1 + Consumed(e.left, ctx)
  {
  }

  lemma {:induction false} ValueOfBoth(e: Expr, ctx: Context)
    requires e.Bin? && WellFormed(e) && ReachesRight(e, ctx)
    ensures Meaning(e, ctx) ==
            if Meaning(e.right, ctx).None? then None
            else Combine(e.op, Meaning(e.left, ctx).value, Meaning(e.right, ctx).value)
    ensures Consumed(e, ctx) == 1 + |Tokens(e.left)| + Consumed(e.right, ctx)
  {
  }

  /** What is left of a binary expression's tokens after `n` of the left, or all of the left and `n` of the right. */
  lemma {:induction false} UnreadOfBin(e: Expr, rest: seq<string>, n: nat)
    requires e.Bin? && WellFormed(e)
    ensures |Tokens(e)| == 1 + |Tokens(e.left)| + |Tokens(e.right)|
    ensures n <= |Tokens(e.left)| ==>
              Tokens(e)[1 + n..] + rest == Tokens(e.left)[n..] + (Tokens(e.right) + rest)
    ensures n <= |Tokens(e.right)| ==>
              Tokens(e)[1 + |Tokens(e.left)| + n..] + rest == Tokens(e.right)[n..] + rest
  {
    DropOperand(OperatorName(e.op), Tokens(e.left), Tokens(e.right), rest, n);
  }

  lemma {:induction false} DropOperand(op: string, left: seq<string>, right: seq<string>, rest: seq<string>, n: nat)
    ensures n <= |left| ==> ([op] + (left + right))[1 + n..] + rest == left[n..] + (right + rest)
    ensures n <= |right| ==> ([op] + (left + right))[1 + |left| + n..] == right[n..]
  {
  }

  lemma {:induction false} ExpectedLeftOnly(e: Expr, rest: seq<string>, ctx: Context)
    requires e.Bin? && WellFormed(e) && !ReachesRight(e, ctx)
    ensures Expected(e, rest, ctx) == Step(e.op, Expected(e.left, Tokens(e.right) + rest, ctx), Fail)
  {
    var after := Tokens(e.right) + rest;
    var left := Expected(e.left, after, ctx);
    ValueOfLeftOnly(e, ctx);
    if left.Ok? {
      assert Step(e.op, left, Fail) == Deliver(FromFirst(e.op, left.value), left.rest);
      UnreadOfBin(e, rest, Consumed(e.left, ctx));
      assert left.rest == Tokens(e.left)[Consumed(e.left, ctx)..] + after;
    }
  }

  lemma {:induction false} ExpectedBoth(e: Expr, rest: seq<string>, ctx: Context)
    requires e.Bin? && WellFormed(e) && ReachesRight(e, ctx) && Safe(e, ctx)
    ensures Safe(e.right, ctx)
    ensures Expected(e.left, Tokens(e.right) + rest, ctx).rest == Tokens(e.right) + rest
    ensures Expected(e, rest, ctx) ==
            Step(e.op, Expected(e.left, Tokens(e.right) + rest, ctx), Expected(e.right, rest, ctx))
  {
    ValueOfBoth(e, ctx);
    UnreadOfBin(e, rest, Consumed(e.right, ctx));
    ConsumedExactly(e.left, ctx);
    NothingUnread(e.left, Tokens(e.right) + rest, ctx);
  }

  // -------------------------------------------------------------------- from placement to safety

  lemma {:induction false} NoSkipIsSafe(e: Expr, ctx: Context)
    requires WellFormed(e) && !ShortCircuits(e, ctx)
    ensures Safe(e, ctx)
  {
    match e
    case Name(_) =>
    case Call(_, _, _) =>
    case Not(arg) => NoSkipIsSafe(arg, ctx);
    case Bin(_, left, right) =>
      NoSkipIsSafe(left, ctx);
      NoSkipIsSafe(right, ctx);
  }

  /** Without a short circuit the evaluator reads just the expression. */
  lemma {:induction false} ReadsExactly(e: Expr, rest: seq<string>, ctx: Context)
    requires WellFormed(e) && Aligned(e) && Separated(e, rest) && !ShortCircuits(e, ctx)
    ensures Eval(Tokens(e) + rest, ctx) == Deliver(Meaning(e, ctx), rest)
  {
    NoSkipIsSafe(e, ctx);
    EvalTokens(e, rest, ctx);
    if Meaning(e, ctx).Some? {
      ConsumedExactly(e, ctx);
      NothingUnread(e, rest, ctx);
    }
  }

  lemma {:induction false} OrFreeNeverSkips(e: Expr, ctx: Context)
    requires WellFormed(e) && OrFree(e)
    ensures !ShortCircuits(e, ctx)
  {
    match e
    case Name(_) =>
    case Call(_, _, _) =>
    case Not(arg) => OrFreeNeverSkips(arg, ctx);
    case Bin(_, left, right) =>
      OrFreeNeverSkips(left, ctx);
      OrFreeNeverSkips(right, ctx);
  }

  /** A chain that comes out false has evaluated every operand. */
  lemma {:induction false} FalseChainNeverSkips(e: Expr, ctx: Context)
    requires WellFormed(e) && OrChain(e) && Meaning(e, ctx) == Some(Bool(false))
    ensures !ShortCircuits(e, ctx)
  {
    if OrFree(e) {
      OrFreeNeverSkips(e, ctx);
    } else {
      FalseChainNeverSkips(e.left, ctx);
      FalseChainNeverSkips(e.right, ctx);
    }
  }

  lemma {:induction false} OrFreeIsPlaced(e: Expr)
    requires OrFree(e)
    ensures OrPlaced(e)
  {
    match e
    case Name(_) =>
    case Call(_, _, _) =>
    case Not(arg) => OrFreeIsPlaced(arg);
    case Bin(_, _, right) => OrFreeIsPlaced(right);
  }

  lemma {:induction false} ChainIsPlaced(e: Expr)
    requires OrChain(e)
    ensures OrPlaced(e)
  {
    if OrFree(e) {
      OrFreeIsPlaced(e);
    } else {
      ChainIsPlaced(e.right);
    }
  }

  lemma {:induction false} PlacedIsSafe(e: Expr, ctx: Context)
    requires WellFormed(e) && OrPlaced(e)
    ensures Safe(e, ctx)
  {
    match e
    case Name(_) =>
    case Call(_, _, _) =>
    case Not(arg) => PlacedIsSafe(arg, ctx);
    case Bin(op, left, right) =>
      PlacedIsSafe(right, ctx);
      if op == Or {
        ChainIsPlaced(left);
        PlacedIsSafe(left, ctx);
        if Meaning(left, ctx) == Some(Bool(false)) {
          FalseChainNeverSkips(left, ctx);
        } else if OrFree(left) {
          OrFreeNeverSkips(left, ctx);
        }
      } else {
        OrFreeNeverSkips(left, ctx);
        NoSkipIsSafe(left, ctx);
      }
  }

  // -------------------------------------------------------------------- the theorems

  /** The cursor stops behind the expression. */
  ghost predicate StopsAt(n: Node, rest: seq<string>, ctx: Context) {
    Eval(Flatten(n) + rest, ctx).Ok? && Eval(Flatten(n) + rest, ctx).rest == rest
  }

  /**
   Compiling and evaluating a node gives the node's own value, and fails only when it has none;
   the cursor stops exactly behind it unless a `||` was cut short.
   */
  lemma {:induction false} FlatteningPreservesMeaning(n: Node, rest: seq<string>, ctx: Context)
    requires Readable(n) && Aligned(Denote(n)) && OrPlaced(Denote(n)) && Separated(Denote(n), rest)
    ensures match Eval(Flatten(n) + rest, ctx)
            case Fail => Meaning(Denote(n), ctx) == None
            case Ok(v, _) => Meaning(Denote(n), ctx) == Some(v)
    ensures Meaning(Denote(n), ctx).Some? ==> (StopsAt(n, rest, ctx) <==> !ShortCircuits(Denote(n), ctx))
  {
    var e := Denote(n);
    FlattenDenote(n);
    PlacedIsSafe(e, ctx);
    EvalTokens(e, rest, ctx);
    if Meaning(e, ctx).Some? {
      ConsumedExactly(e, ctx);
      var unread := Tokens(e)[Consumed(e, ctx)..];
      assert unread + rest == rest <==> unread == [] by {
        assert |unread + rest| == |unread| + |rest|;
      }
    }
  }

  /** Without `||` the cursor is always exact; a chain of `||` leaves it exact whenever it is false. */
  lemma {:induction false} CursorExact(n: Node, rest: seq<string>, ctx: Context)
    requires Readable(n) && Aligned(Denote(n)) && Separated(Denote(n), rest)
    requires OrFree(Denote(n)) || (OrChain(Denote(n)) && Meaning(Denote(n), ctx) == Some(Bool(false)))
    ensures Meaning(Denote(n), ctx).Some? ==>
              Eval(Flatten(n) + rest, ctx) == Ok(Meaning(Denote(n), ctx).value, rest)
  {
    var e := Denote(n);
    if OrFree(e) {
      OrFreeNeverSkips(e, ctx);
    } else {
      FalseChainNeverSkips(e, ctx);
    }
    ChainIsPlaced(e);
    FlatteningPreservesMeaning(n, rest, ctx);
  }

  /** A list of expressions waiting to be read, the last one not running into `rest`. */
  ghost predicate Pending(es: seq<Expr>, rest: seq<string>) {
    && (forall i :: 0 <= i < |es| ==> WellFormed(es[i]) && Aligned(es[i]))
    && SeparatedAll(es, rest)
  }

  lemma {:induction false} Prepend(e: Expr, es: seq<Expr>, rest: seq<string>)
    requires WellFormed(e) && Aligned(e) && Pending(es, rest) && (es == [] ==> Separated(e, rest))
    ensures Pending([e] + es, rest)
    ensures TokensAll([e] + es) == Tokens(e) + TokensAll(es)
    ensures TokensAll([e] + es) + rest == Tokens(e) + (TokensAll(es) + rest)
  {
    var all := [e] + es;
    assert all[1..] == es;
    assert forall i :: 0 < i < |all| ==> all[i] == es[i - 1];
  }

  /** What the evaluator makes of the first expression of a list. */
  function EvalFirst(e: Expr, tail: seq<Expr>, rest: seq<string>, ctx: Context): Outcome {
    Eval(Tokens(e) + (TokensAll(tail) + rest), ctx)
  }

  predicate EndsWith(es: seq<Expr>, tail: seq<Expr>) { |tail| <= |es| && es[|es| - |tail|..] == tail }

  lemma {:induction false} EndsWithTail(es: seq<Expr>, mid: seq<Expr>, e: Expr, tail: seq<Expr>)
    requires EndsWith(mid, [e] + tail)
    ensures EndsWith(mid, tail) && (EndsWith(es, mid[1..]) ==> EndsWith(es, tail))
  {
    assert tail == ([e] + tail)[1..];
    assert mid[|mid| - |tail|..] == mid[|mid| - |tail| - 1..][1..];
    if EndsWith(es, mid[1..]) {
      assert es[|es| - |tail|..] == es[|es| - |mid| + 1..][|mid| - 1 - |tail|..];
    }
  }

  /** With `tail` behind it, reading `e` has left `unread` to be read: `tail`, or more if something was skipped. */
  ghost predicate Lags(r: Outcome, e: Expr, tail: seq<Expr>, unread: seq<Expr>, rest: seq<string>, ctx: Context)
    requires WellFormed(e)
  {
    r.Ok? ==>
      && Pending(unread, rest) && r.rest == TokensAll(unread) + rest
      && EndsWith(unread, tail)
      && (Meaning(e, ctx).Some? && ShortCircuits(e, ctx) ==> |unread| > |tail|)
  }

  /** Reading `e` exactly leaves the others. */
  lemma {:induction false} LagsByNone(e: Expr, tail: seq<Expr>, rest: seq<string>, ctx: Context)
    requires WellFormed(e) && Aligned(e) && !ShortCircuits(e, ctx)
    requires Pending([e] + tail, rest) && Pending(tail, rest)
    ensures var r := EvalFirst(e, tail, rest, ctx);
            r.Ok? ==> Meaning(e, ctx) == Some(r.value)
    ensures Lags(EvalFirst(e, tail, rest, ctx), e, tail, tail, rest, ctx)
  {
    var after := TokensAll(tail) + rest;
    TailIsSeparated([e] + tail, rest);
    assert ([e] + tail)[1..] == tail;
    ReadsExactly(e, after, ctx);
  }

  lemma {:induction false} EvalNotFirst(arg: Expr, tail: seq<Expr>, rest: seq<string>, ctx: Context)
    requires WellFormed(arg)
    ensures EvalFirst(Not(arg), tail, rest, ctx) == Step(Negate, EvalFirst(arg, tail, rest, ctx), Fail)
  {
    var after := TokensAll(tail) + rest;
    StartOperator(Negate, arg, after, ctx);
    TokensOfNot(arg, after);
  }

  lemma {:induction false} EvalBinFirst(e: Expr, tail: seq<Expr>, rest: seq<string>, ctx: Context)
    requires e.Bin? && WellFormed(e)
    ensures var first := EvalFirst(e.left, [e.right] + tail, rest, ctx);
            var second := if first.Ok? && NeedsSecond(e.op, first.value) then Eval(first.rest, ctx) else Fail;
            EvalFirst(e, tail, rest, ctx) == Step(e.op, first, second)
  {
    var after := TokensAll(tail) + rest;
    TokensOfBin(e, after);
    StartOperator(e.op, e.left, Tokens(e.right) + after, ctx);
    assert ([e.right] + tail)[1..] == tail;
    assert TokensAll([e.right] + tail) + rest == Tokens(e.right) + after;
  }

  /** Adding up the lag of the two operands. */
  lemma {:induction false} LagsTogether(e: Expr, tail: seq<Expr>, mid: seq<Expr>, unread: seq<Expr>, rest: seq<string>, ctx: Context,
                     first: Outcome, second: Outcome)
    requires e.Bin? && WellFormed(e)
    requires Lags(first, e.left, [e.right] + tail, mid, rest, ctx)
    requires !ShortCircuits(e.left, ctx) ==> mid == [e.right] + tail
    requires !ShortCircuits(e.left, ctx) && Meaning(e.left, ctx).Some? && first.Ok? ==>
               first.value == Meaning(e.left, ctx).value
    requires if first.Ok? && NeedsSecond(e.op, first.value)
             then mid != [] && WellFormed(mid[0]) && Lags(second, mid[0], mid[1..], unread, rest, ctx)
             else unread == mid
    ensures Lags(Step(e.op, first, second), e, tail, unread, rest, ctx)
  {
    if first.Ok? && Step(e.op, first, second).Ok? {
      EndsWithTail(unread, mid, e.right, tail);
      LagsLonger(e, |tail|, |mid|, |unread|, first.value, ctx);
    }
  }

  /** The same for the lengths alone. */
  lemma {:induction false} LagsLonger(e: Expr, tail: nat, mid: nat, unread: nat, a: Value, ctx: Context)
    requires e.Bin? && WellFormed(e) && mid > tail
    requires Meaning(e.left, ctx).Some? && ShortCircuits(e.left, ctx) ==> mid > tail + 1
    requires Meaning(e.left, ctx).Some? && !ShortCircuits(e.left, ctx) ==> a == Meaning(e.left, ctx).value
    requires if NeedsSecond(e.op, a)
             then mid <= unread + 1
                  && (!ShortCircuits(e.left, ctx) && Meaning(e.right, ctx).Some? && ShortCircuits(e.right, ctx) ==> mid <= unread)
             else unread == mid
    ensures Meaning(e, ctx).Some? && ShortCircuits(e, ctx) ==> unread > tail
  {
  }

  /**
   Wherever a `||` stands, the evaluator only ever lags behind by whole expressions, and it does
   lag when the expression it reads has a short circuit.
   */
  lemma {:induction false} EvalLags(e: Expr, tail: seq<Expr>, rest: seq<string>, ctx: Context)
    returns (unread: seq<Expr>)
    requires WellFormed(e) && Aligned(e) && Pending(tail, rest) && (tail == [] ==> Separated(e, rest))
    ensures Lags(EvalFirst(e, tail, rest, ctx), e, tail, unread, rest, ctx)
    decreases |Tokens(e) + (TokensAll(tail) + rest)|
  {
    Prepend(e, tail, rest);
    match e
    case Name(_) =>
      unread := tail;
      LagsByNone(e, tail, rest, ctx);
    case Call(_, _, _) =>
      unread := tail;
      LagsByNone(e, tail, rest, ctx);
    case Not(arg) =>
      unread := EvalLags(arg, tail, rest, ctx);
      EvalNotFirst(arg, tail, rest, ctx);
    case Bin(op, left, right) =>
      EvalBinFirst(e, tail, rest, ctx);
      Prepend(right, tail, rest);
      NoLeadingBuiltin(right, rest);
      var mid := [right] + tail;
      Prepend(left, mid, rest);
      var first := EvalFirst(left, mid, rest, ctx);
      if ShortCircuits(left, ctx) {
        mid := EvalLags(left, mid, rest, ctx);
      } else {
        LagsByNone(left, mid, rest, ctx);
      }
      unread := mid;
      var second := Fail;
      if first.Ok? && NeedsSecond(op, first.value) {
        second := Eval(first.rest, ctx);
        SplitPending(mid, rest);
        unread := EvalLags(mid[0], mid[1..], rest, ctx);
      }
      LagsTogether(e, tail, mid, unread, rest, ctx, first, second);
  }

  lemma {:induction false} SplitPending(es: seq<Expr>, rest: seq<string>)
    requires es != [] && Pending(es, rest)
    ensures Pending(es[1..], rest) && (|es| == 1 ==> Separated(es[0], rest))
    ensures TokensAll(es) + rest == Tokens(es[0]) + (TokensAll(es[1..]) + rest)
  {
    TokensAllHead(es, rest);
    assert forall i :: 0 <= i < |es[1..]| ==> es[1..][i] == es[i + 1];
  }

  /** For every tree: value and cursor are both right exactly when no `||` is cut short. */
  lemma {:induction false} ExactIffNoShortCircuit(n: Node, rest: seq<string>, ctx: Context)
    requires Readable(n) && Aligned(Denote(n)) && Separated(Denote(n), rest)
    requires Meaning(Denote(n), ctx).Some?
    ensures Eval(Flatten(n) + rest, ctx) == Ok(Meaning(Denote(n), ctx).value, rest)
            <==> !ShortCircuits(Denote(n), ctx)
  {
    var e := Denote(n);
    FlattenDenote(n);
    if ShortCircuits(e, ctx) {
      assert TokensAll([]) + rest == rest;
      var unread := EvalLags(e, [], rest, ctx);
      if Eval(Tokens(e) + rest, ctx).Ok? {
        assert |TokensAll(unread)| > 0;
        assert |TokensAll(unread) + rest| > |rest|;
      }
    } else {
      ReadsExactly(e, rest, ctx);
    }
  }

  /** A true left operand leaves the whole right operand unread. */
  lemma {:induction false} ShortCircuitStops(a: Expr, b: Expr, rest: seq<string>, ctx: Context)
    requires WellFormed(a) && Aligned(a) && OrFree(a) && WellFormed(b)
    requires Meaning(a, ctx) == Some(Bool(true))
    ensures Eval(Tokens(Bin(Or, a, b)) + rest, ctx) == Ok(Bool(true), Tokens(b) + rest)
  {
    var e := Bin(Or, a, b);
    OrFreeNeverSkips(a, ctx);
    TokensOfBin(e, rest);
    StartOperator(Or, a, Tokens(b) + rest, ctx);
    ReadsExactly(a, Tokens(b) + rest, ctx);
  }

  /**
   A misplaced `||`: in `(a || b) = c` a true `a` makes `b` the other side of the comparison and
   leaves `c` unread.  The result is still right when `b` and `c` happen to compare alike.
   */
  lemma {:induction false} MisplacedOr(a: Expr, b: Expr, c: Expr, rest: seq<string>, ctx: Context)
    requires WellFormed(a) && WellFormed(b) && WellFormed(c)
    requires Aligned(a) && Aligned(b) && OrFree(a) && OrFree(b)
    requires Meaning(a, ctx) == Some(Bool(true)) && Meaning(b, ctx).Some?
    ensures Eval(Tokens(Bin(Equals, Bin(Or, a, b), c)) + rest, ctx)
            == Ok(Bool(Bool(true) == Meaning(b, ctx).value), Tokens(c) + rest)
  {
    var l := Bin(Or, a, b);
    var after := Tokens(c) + rest;
    ShortCircuitStops(a, b, after, ctx);
    TokensOfBin(Bin(Equals, l, c), rest);
    StartOperator(Equals, l, after, ctx);
    OrFreeNeverSkips(b, ctx);
    NoLeadingBuiltin(c, rest);
    ReadsExactly(b, after, ctx);
  }

  /** The comparison of `a || b` with `c`, as a node. */
  function ComparedOr(a: Node, b: Node, c: Node): Node {
    Binary(Binary(a, " ", "||", " ", b), " ", "=", " ", c)
  }

  lemma {:induction false} ComparedOrReads(a: Node, b: Node, c: Node)
    requires Readable(a) && Readable(b) && Readable(c)
    ensures Readable(ComparedOr(a, b, c))
    ensures Denote(ComparedOr(a, b, c)) == Bin(Equals, Bin(Or, Denote(a), Denote(b)), Denote(c))
  {
    assert Readable(Binary(a, " ", "||", " ", b));
  }

  /** With a true `a`, such a node evaluates to its own value exactly when `b` and `c` compare alike with true. */
  lemma {:induction false} MisplacedOrRightIff(a: Node, b: Node, c: Node, ctx: Context)
    requires Readable(a) && Readable(b) && Readable(c)
    requires Aligned(Denote(a)) && Aligned(Denote(b)) && OrFree(Denote(a)) && OrFree(Denote(b))
    requires Meaning(Denote(a), ctx) == Some(Bool(true)) && Meaning(Denote(b), ctx).Some? && Meaning(Denote(c), ctx).Some?
    ensures var n := ComparedOr(a, b, c);
            var r := Eval(Flatten(n) + [], ctx);
            && Readable(n) && r.Ok? && r.rest == Tokens(Denote(c)) + []
            && (Meaning(Denote(n), ctx) == Some(r.value)
                <==> (Meaning(Denote(b), ctx).value == Bool(true) <==> Meaning(Denote(c), ctx).value == Bool(true)))
  {
    ComparedOrReads(a, b, c);
    FlattenDenote(ComparedOr(a, b, c));
    assert Meaning(Bin(Or, Denote(a), Denote(b)), ctx) == Some(Bool(true));
    MisplacedOr(Denote(a), Denote(b), Denote(c), [], ctx);
  }

  /**
   `true || false = true`, read as a comparison of `true || false` with `true`, is true but
   evaluates to false.
   */
  lemma {:induction false} MisplacedOrFails(ctx: Context)
    requires "true" !in ctx.vars && "false" !in ctx.vars
    ensures var n := ComparedOr(Leaf("true"), Leaf("false"), Leaf("true"));
            && Readable(n) && Meaning(Denote(n), ctx) == Some(Bool(true))
            && Eval(Flatten(n) + [], ctx).Ok? && Eval(Flatten(n) + [], ctx).value == Bool(false)
  {
    var t, f := Leaf("true"), Leaf("false");
    assert Denote(t) == Name("true") && Denote(f) == Name("false");
    assert Meaning(Denote(t), ctx) == Some(Bool(true)) && Meaning(Denote(f), ctx) == Some(Bool(false));
    MisplacedOrRightIff(t, f, t, ctx);
    ComparedOrReads(t, f, t);
    FlattenDenote(ComparedOr(t, f, t));
    MisplacedOr(Denote(t), Denote(f), Denote(t), [], ctx);
    assert Meaning(Bin(Or, Denote(t), Denote(f)), ctx) == Some(Bool(true));
  }

  /**
   `Safe` is enough for the value and for stopping where expected, but not needed: in
   `((a || b) = c) || x` with `a` and `c` true and `b` false two misread operands make up for each other.
   */
  lemma {:induction false} UnsafeByChance(a: Expr, b: Expr, c: Expr, x: Expr, rest: seq<string>, ctx: Context)
    requires WellFormed(a) && WellFormed(b) && WellFormed(c) && WellFormed(x)
    requires Aligned(a) && Aligned(b) && Aligned(c) && OrFree(a) && OrFree(b) && OrFree(c)
    requires Meaning(a, ctx) == Meaning(c, ctx) == Some(Bool(true)) && Meaning(b, ctx) == Some(Bool(false))
    ensures var e := Bin(Or, Bin(Equals, Bin(Or, a, b), c), x);
            && WellFormed(e) && !Safe(e, ctx) && Meaning(e, ctx) == Some(Bool(true))
            && Eval(Tokens(e) + rest, ctx) == Expected(e, rest, ctx)
  {
    MisplacedOr(a, b, c, Tokens(x) + rest, ctx);
    LeftoverServes(Bin(Equals, Bin(Or, a, b), c), c, x, rest, ctx);
    ExpectedOfChance(a, b, c, x, rest, ctx);
  }

  /** A left operand that comes out false and leaves a true expression behind: the or takes that for its right operand. */
  lemma {:induction false} LeftoverServes(left: Expr, c: Expr, x: Expr, rest: seq<string>, ctx: Context)
    requires WellFormed(left) && WellFormed(c) && WellFormed(x) && Aligned(c) && OrFree(c)
    requires Eval(Tokens(left) + (Tokens(x) + rest), ctx) == Ok(Bool(false), Tokens(c) + (Tokens(x) + rest))
    requires Meaning(c, ctx) == Some(Bool(true))
    ensures Eval(Tokens(Bin(Or, left, x)) + rest, ctx) == Ok(Bool(true), Tokens(x) + rest)
  {
    var after := Tokens(x) + rest;
    NoLeadingBuiltin(x, rest);
    OrFreeNeverSkips(c, ctx);
    ReadsExactly(c, after, ctx);
    OrOfBoth(left, after, Tokens(c) + after, after, ctx);
    TokensOfBin(Bin(Or, left, x), rest);
  }

  lemma {:induction false} OrOfBoth(left: Expr, after: seq<string>, mid: seq<string>, unread: seq<string>, ctx: Context)
    requires WellFormed(left) && Eval(Tokens(left) + after, ctx) == Ok(Bool(false), mid)
    requires Eval(mid, ctx) == Ok(Bool(true), unread)
    ensures Eval([OperatorName(Or)] + (Tokens(left) + after), ctx) == Ok(Bool(true), unread)
  {
    StartOperator(Or, left, after, ctx);
  }

  lemma {:induction false} ExpectedOfChance(a: Expr, b: Expr, c: Expr, x: Expr, rest: seq<string>, ctx: Context)
    requires WellFormed(a) && WellFormed(b) && WellFormed(c) && WellFormed(x) && OrFree(c)
    requires Meaning(a, ctx) == Meaning(c, ctx) == Some(Bool(true))
    ensures var e := Bin(Or, Bin(Equals, Bin(Or, a, b), c), x);
            && WellFormed(e) && !Safe(e, ctx) && Meaning(e, ctx) == Some(Bool(true))
            && Expected(e, rest, ctx) == Ok(Bool(true), Tokens(x) + rest)
  {
    var left := Bin(Equals, Bin(Or, a, b), c);
    var e := Bin(Or, left, x);
    assert Meaning(Bin(Or, a, b), ctx) == Some(Bool(true)) && Meaning(left, ctx) == Some(Bool(true));
    assert ShortCircuits(Bin(Or, a, b), ctx) && !Safe(left, ctx);
    OrFreeNeverSkips(c, ctx);
    NoSkipIsSafe(c, ctx);
    ConsumedExactly(c, ctx);
    assert Consumed(left, ctx) == |Tokens(left)|;
    ExpectedLeftOnly(e, rest, ctx);
    NothingUnread(left, Tokens(x) + rest, ctx);
  }

  // -------------------------------------------------------------------- calls

  /** A call moves the cursor by its built-in's own number of tokens, however many its arguments have. */
  lemma {:induction false} CallStopsAt(e: Expr, rest: seq<string>, ctx: Context)
    requires e.Call? && WellFormed(e)
    ensures var ts := Tokens(e) + rest;
            Eval(ts, ctx) == if |ts| < Advance(e.builtin) then Fail else Deliver(Meaning(e, ctx), ts[Advance(e.builtin)..])
  {
    var ts := Tokens(e) + rest;
    assert ts[0] == e.receiver && ts[1] == BuiltinName(e.builtin);
  }

  /** So it is read exactly if and only if its arguments have as many tokens as the built-in expects. */
  lemma {:induction false} CallExactIffAligned(e: Expr, rest: seq<string>, ctx: Context)
    requires e.Call? && WellFormed(e) && Meaning(e, ctx).Some?
    ensures Eval(Tokens(e) + rest, ctx) == Ok(Meaning(e, ctx).value, rest)
            <==> Aligned(e)
  {
    CallStopsAt(e, rest, ctx);
    var ts := Tokens(e) + rest;
    assert |ts| == 2 + |TokensAll(e.args)| + |rest|;
    if |Tokens(e)| == Advance(e.builtin) {
      assert ts[Advance(e.builtin)..] == rest;
    }
  }

  predicate OneToken(e: Expr) { e.Name? }

  predicate TwoTokens(e: Expr) { (e.Not? && e.arg.Name?) || (e.Call? && e.builtin == Size) }

  lemma {:induction false} TokenCount(e: Expr)
    requires WellFormed(e)
    ensures |Tokens(e)| == 1 <==> OneToken(e)
    ensures |Tokens(e)| == 2 <==> TwoTokens(e)
  {
    match e
    case Name(_) =>
    case Call(_, builtin, args) =>
      if args != [] {
        assert TokensAll(args) == Tokens(args[0]) + TokensAll(args[1..]);
      }
    case Not(arg) => TokenCount(arg);
    case Bin(_, _, _) =>
  }

  /**
   Which calls those are: every `size`; `contains` and `upfrom` with a bare name; `collect` with a
   bare name and two tokens, which no comparison of two names is and no two bare names are.
   */
  lemma {:induction false} AlignedCalls(e: Expr)
    requires e.Call? && WellFormed(e)
    ensures Aligned(e)
            <==> match e.builtin
                 case Size => true
                 case Contains => OneToken(e.args[0])
                 case UpFrom => OneToken(e.args[0])
                 case Collect => (OneToken(e.args[0]) && TwoTokens(e.args[1]))
                                 || (TwoTokens(e.args[0]) && OneToken(e.args[1]))
  {
    if e.builtin != Size {
      TokenCount(e.args[0]);
      assert TokensAll(e.args) == Tokens(e.args[0]) + TokensAll(e.args[1..]);
    }
    if e.builtin == Collect {
      TokenCount(e.args[1]);
      assert e.args[1..][0] == e.args[1] && e.args[1..][1..] == [];
    }
  }

  /** `collect` with an equality predicate has six tokens, of which the stub passes five. */
  lemma {:induction false} CollectStopsShort(receiver: string, element: string, l: string, r: string, rest: seq<string>, ctx: Context)
    requires !IsKeyword(receiver) && !IsKeyword(element) && !IsKeyword(l) && !IsKeyword(r)
    ensures var e := Call(receiver, Collect, [Name(element), Bin(Equals, Name(l), Name(r))]);
            WellFormed(e) && !Aligned(e) && Eval(Tokens(e) + rest, ctx) == Ok(Bool(false), [r] + rest)
  {
    var e := Call(receiver, Collect, [Name(element), Bin(Equals, Name(l), Name(r))]);
    assert Tokens(Bin(Equals, Name(l), Name(r))) == ["=", l, r];
    assert TokensAll([Bin(Equals, Name(l), Name(r))]) == ["=", l, r];
    assert e.args[1..] == [Bin(Equals, Name(l), Name(r))];
    assert Tokens(Name(element)) == [element];
    assert Tokens(e) == [receiver, "collect"] + ([element] + ["=", l, r]);
    assert (Tokens(e) + rest)[5..] == [r] + rest;
  }

  // -------------------------------------------------------------------- the whole way

  /** Compiling and then evaluating a whole expression. */
  method CompileAndEvaluate(n: Node, ctx: Context) returns (r: Option<Value>)
    requires Readable(n) && Aligned(Denote(n)) && OrPlaced(Denote(n))
    ensures r == Meaning(Denote(n), ctx)
  {
    var parser := new ExpressionParser();
    parser.ParseExpression(n);
    var evaluator := new Evaluator(parser.expressionList, ctx);
    FlatteningPreservesMeaning(n, [], ctx);
    assert evaluator.tokens[0..] == Flatten(n) + [];
    r := evaluator.EvaluationExpression();
  }
}
