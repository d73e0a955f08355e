/**
 The expression compiler of src/RuleInterpreter.cpp: a syntax tree is flattened into a list of
 tokens, operators in prefix position and built-ins after their receiver.

 `Node` is the concrete tree the parser hands over, `Expr` what such a tree means once spacing
 and the `all` shorthand are gone.  The module proves that the flat list determines the
 expression and where it ends, although it has no brackets: `Read` inverts `Tokens`.
 */
module ExpressionSyntax {
  import opened Wrappers

  // -------------------------------------------------------------------- keyword tables

  datatype Builtin = Size | Contains | Collect | UpFrom
  datatype Operator = Equals | Negate | Add | Or

  function BuiltinOf(token: string): Option<Builtin> {
    if token == "size" then Some(Size)
    else if token == "contains" then Some(Contains)
    else if token == "collect" then Some(Collect)
    else if token == "upfrom" then Some(UpFrom)
    else None
  }

  function OperatorOf(token: string): Option<Operator> {
    if token == "=" then Some(Equals)
    else if token == "!" then Some(Negate)
    else if token == "+" then Some(Add)
    else if token == "|" then Some(Or)
    else None
  }

  predicate IsBuiltin(token: string) { BuiltinOf(token).Some? }
  predicate IsKeyword(token: string) { IsBuiltin(token) || OperatorOf(token).Some? }

  /** The one-token lookahead: does this token list open with a built-in name? */
  predicate OpensWithBuiltin(ts: seq<string>) { ts != [] && IsBuiltin(ts[0]) }

  // -------------------------------------------------------------------- the concrete tree

  /** A tree-sitter expression node.  In `Binary`, `before` and `after` are the blanks around the operator. */
  datatype Node =
    | ExpressionList(children: seq<Node>)
    | BuiltinCall(receiver: string, builtin: string, arguments: Option<Node>)
    | Negation(operand: Node)
    | Binary(lhs: Node, before: string, operator: string, after: string, rhs: Node)
    | Leaf(text: string)

  /** The source range of a node. */
  function Text(n: Node): string
    decreases n
  {
    match n
    case ExpressionList(children) => TextAll(children)
    case BuiltinCall(receiver, builtin, None) => receiver + "." + builtin + "()"
    case BuiltinCall(receiver, builtin, Some(arguments)) => receiver + "." + builtin + "(" + Text(arguments) + ")"
    case Negation(operand) => "!" + Text(operand)
    case Binary(lhs, before, operator, after, rhs) => Text(lhs) + before + operator + after + Text(rhs)
    case Leaf(text) => text
  }

  function TextAll(ns: seq<Node>): string
    decreases ns
  {
    if ns == [] then "" else Text(ns[0]) + (if |ns| == 1 then "" else ", " + TextAll(ns[1..]))
  }

  /**
   The character the compiler takes for the operator: the second one after the left operand.
   (Past the node's text C++ leaves the read undefined; the empty token stands for that.)
   */
  function OperatorToken(n: Node): string
    requires n.Binary?
  {
    var k := |Text(n.lhs)| + 1;
    if k < |Text(n)| then [Text(n)[k]] else ""
  }

  /** The token list of a node, as a function of the tree. */
  function Flatten(n: Node): seq<string>
    decreases n
  {
    match n
    case ExpressionList(children) => FlattenAll(children)
    case BuiltinCall(receiver, builtin, None) => [receiver, builtin]
    case BuiltinCall(receiver, builtin, Some(arguments)) => [receiver, builtin] + Flatten(arguments)
    case Negation(operand) => ["!"] + Flatten(operand)
    case Binary(lhs, _, _, _, rhs) => [OperatorToken(n)] + Flatten(lhs) + Flatten(rhs)
    case Leaf(text) => [if text == "all" then "players" else text]
  }

  function FlattenAll(ns: seq<Node>): seq<string>
    decreases ns
  {
    if ns == [] then [] else Flatten(ns[0]) + FlattenAll(ns[1..])
  }

  lemma {:induction false} FlattenAllAppend(ns: seq<Node>, n: Node)
    ensures FlattenAll(ns + [n]) == FlattenAll(ns) + Flatten(n)
  {
    if ns == [] {
      assert FlattenAll([n]) == Flatten(n) + FlattenAll([]);
    } else {
      assert (ns + [n])[1..] == ns[1..] + [n];
      FlattenAllAppend(ns[1..], n);
    }
  }

  lemma {:induction false} Glue(a: seq<string>, b: seq<string>, c: seq<string>)
    ensures (a + b) + c == a + (b + c)
  {
  }

  /** The compiler itself: it pushes tokens onto a list it shares with its recursive calls. */
  class ExpressionParser {
    var expressionList: seq<string>

    constructor ()
      ensures expressionList == []
    {
      expressionList := [];
    }

    method ParseList(children: seq<Node>)
      modifies this
      ensures expressionList == old(expressionList) + FlattenAll(children)
      decreases children, 0
    {
      for i := 0 to |children|
        invariant expressionList == old(expressionList) + FlattenAll(children[..i])
      {
        ParseExpression(children[i]);
        FlattenAllAppend(children[..i], children[i]);
        assert children[..i + 1] == children[..i] + [children[i]];
      }
      assert children[..|children|] == children;
    }

    method ParseExpression(n: Node)
      modifies this
      ensures expressionList == old(expressionList) + Flatten(n)
      decreases n
    {
      match n
      case ExpressionList(children) =>
        ParseList(children);
      case BuiltinCall(receiver, builtin, arguments) =>
        expressionList := expressionList + [receiver];
        expressionList := expressionList + [builtin];
        assert expressionList == old(expressionList) + [receiver, builtin];
        if arguments.Some? {
          ParseExpression(arguments.value);
          Glue(old(expressionList), [receiver, builtin], Flatten(arguments.value));
        }
      case Negation(operand) =>
        expressionList := expressionList + ["!"];
        ParseExpression(operand);
        Glue(old(expressionList), ["!"], Flatten(operand));
      case Binary(lhs, _, _, _, rhs) =>
        expressionList := expressionList + [OperatorToken(n)];
        ParseExpression(lhs);
        ParseExpression(rhs);
        Glue(old(expressionList), [OperatorToken(n)], Flatten(lhs));
        Glue(old(expressionList), [OperatorToken(n)] + Flatten(lhs), Flatten(rhs));
      case Leaf(text) =>
        if text == "all" {
          expressionList := expressionList + ["players"];
        } else {
          expressionList := expressionList + [text];
        }
    }
  }

  // -------------------------------------------------------------------- the abstract tree

  /** What a node stands for.  `op` of a `Bin` is never `Negate`. */
  datatype Expr =
    | Name(text: string)
    | Call(receiver: string, builtin: Builtin, args: seq<Expr>)
    | Not(arg: Expr)
    | Bin(op: Operator, left: Expr, right: Expr)

  function Arity(b: Builtin): nat {
    match b
    case Size => 0
    case Contains => 1
    case UpFrom => 1
    case Collect => 2
  }

  function BuiltinName(b: Builtin): (s: string)
    ensures BuiltinOf(s) == Some(b)
  {
    match b
    case Size => "size"
    case Contains => "contains"
    case Collect => "collect"
    case UpFrom => "upfrom"
  }

  function OperatorName(op: Operator): (s: string)
    ensures OperatorOf(s) == Some(op) && !IsBuiltin(s)
  {
    match op
    case Equals => "="
    case Negate => "!"
    case Add => "+"
    case Or => "|"
  }

  /** Names that are not keywords, built-ins with their own number of arguments. */
  predicate WellFormed(e: Expr)
    decreases e
  {
    match e
    case Name(text) => !IsKeyword(text)
    case Call(receiver, builtin, args) =>
      && !IsKeyword(receiver) && |args| == Arity(builtin)
      && forall i :: 0 <= i < |args| ==> WellFormed(args[i])
    case Not(arg) => WellFormed(arg)
    case Bin(op, left, right) => op != Negate && WellFormed(left) && WellFormed(right)
  }

  function Tokens(e: Expr): (ts: seq<string>)
    ensures ts != []
    decreases e
  {
    match e
    case Name(text) => [text]
    case Call(receiver, builtin, args) => [receiver, BuiltinName(builtin)] + TokensAll(args)
    case Not(arg) => ["!"] + Tokens(arg)
    case Bin(op, left, right) => [OperatorName(op)] + (Tokens(left) + Tokens(right))
  }

  function TokensAll(es: seq<Expr>): seq<string>
    decreases es
  {
    if es == [] then [] else Tokens(es[0]) + TokensAll(es[1..])
  }

  lemma {:induction false} NoLeadingBuiltin(e: Expr, rest: seq<string>)
    requires WellFormed(e)
    ensures !OpensWithBuiltin(Tokens(e) + rest)
  {
  }

  /** Does the token list end in a bare name, which a built-in name after it would turn into a receiver? */
  predicate EndsInName(e: Expr)
    decreases e
  {
    match e
    case Name(_) => true
    case Call(_, _, args) => args != [] && EndsInName(args[|args| - 1])
    case Not(arg) => EndsInName(arg)
    case Bin(_, _, right) => EndsInName(right)
  }

  /** The tokens of `e` do not run into the tokens after them. */
  predicate Separated(e: Expr, rest: seq<string>) { !OpensWithBuiltin(rest) || !EndsInName(e) }

  predicate SeparatedAll(es: seq<Expr>, rest: seq<string>) { es == [] || Separated(es[|es| - 1], rest) }

  lemma {:induction false} TokensAllHead(es: seq<Expr>, rest: seq<string>)
    requires es != []
    ensures TokensAll(es) + rest == Tokens(es[0]) + (TokensAll(es[1..]) + rest)
    ensures |es| == 1 ==> TokensAll(es[1..]) + rest == rest
  {
  }

  /** The arguments of a call separate themselves from each other. */
  lemma {:induction false} TailIsSeparated(es: seq<Expr>, rest: seq<string>)
    requires es != [] && forall i :: 0 <= i < |es| ==> WellFormed(es[i])
    ensures TokensAll(es) + rest == Tokens(es[0]) + (TokensAll(es[1..]) + rest)
    ensures |es| > 1 ==> Separated(es[0], TokensAll(es[1..]) + rest)
    ensures |es| == 1 ==> TokensAll(es[1..]) + rest == rest
  {
    TokensAllHead(es, rest);
    if |es| > 1 {
      TokensAllHead(es[1..], rest);
      NoLeadingBuiltin(es[1], TokensAll(es[1..][1..]) + rest);
    }
  }

  // -------------------------------------------------------------------- reading the tokens back

  /** Recover one expression from the front of a token list, looking at most one token ahead. */
  function Read(ts: seq<string>): (r: Option<(Expr, seq<string>)>)
    ensures r.Some? ==> |r.value.1| < |ts|
    decreases |ts|, 0
  {
    if ts == [] then None
    else if |ts| > 1 && IsBuiltin(ts[1]) then
      var b := BuiltinOf(ts[1]).value;
      match ReadMany(ts[2..], Arity(b))
      case None => None
      case Some((args, rest)) => Some((Call(ts[0], b, args), rest))
    else if |ts| > 1 && OperatorOf(ts[0]).Some? then
      var op := OperatorOf(ts[0]).value;
      match Read(ts[1..])
      case None => None
      case Some((left, rest)) =>
        if op == Negate then Some((Not(left), rest))
        else
          match Read(rest)
          case None => None
          case Some((right, rest')) => Some((Bin(op, left, right), rest'))
    else Some((Name(ts[0]), ts[1..]))
  }

  function ReadMany(ts: seq<string>, n: nat): (r: Option<(seq<Expr>, seq<string>)>)
    ensures r.Some? ==> |r.value.0| == n && |r.value.1| <= |ts|
    decreases |ts|, 1, n
  {
    if n == 0 then Some(([], ts))
    else
      match Read(ts)
      case None => None
      case Some((e, rest)) =>
        match ReadMany(rest, n - 1)
        case None => None
        case Some((es, rest')) => Some(([e] + es, rest'))
  }

  /** What is read is what the tokens say: flattening it again gives the tokens back. */
  lemma {:induction false} ReadSound(ts: seq<string>)
    ensures Read(ts).Some? ==> Tokens(Read(ts).value.0) + Read(ts).value.1 == ts
    decreases |ts|, 0
  {
    if ts != [] && Read(ts).Some? {
      var (e, rest) := Read(ts).value;
      match e
      case Name(_) =>
        assert ts == [ts[0]] + ts[1..];
      case Call(receiver, b, args) =>
        ReadManySound(ts[2..], Arity(b));
        CanonicalNames(ts[1]);
        Glue([ts[0], ts[1]], TokensAll(args), rest);
        assert ts == [ts[0], ts[1]] + ts[2..];
      case Not(arg) =>
        ReadSound(ts[1..]);
        CanonicalNames(ts[0]);
        Glue(["!"], Tokens(arg), rest);
        assert ts == [ts[0]] + ts[1..];
      case Bin(op, left, right) =>
        ReadSound(ts[1..]);
        ReadSound(Read(ts[1..]).value.1);
        CanonicalNames(ts[0]);
        Glue(Tokens(left), Tokens(right), rest);
        Glue([OperatorName(op)], Tokens(left) + Tokens(right), rest);
        assert ts == [ts[0]] + ts[1..];
    }
  }

  lemma {:induction false} CanonicalNames(token: string)
    ensures IsBuiltin(token) ==> BuiltinName(BuiltinOf(token).value) == token
    ensures OperatorOf(token).Some? ==> OperatorName(OperatorOf(token).value) == token
  {
  }

  lemma {:induction false} ReadManySound(ts: seq<string>, n: nat)
    ensures ReadMany(ts, n).Some? ==> TokensAll(ReadMany(ts, n).value.0) + ReadMany(ts, n).value.1 == ts
    decreases |ts|, 1, n
  {
    if n > 0 && ReadMany(ts, n).Some? {
      ReadSound(ts);
      ReadManySound(Read(ts).value.1, n - 1);
      TokensAllHead(ReadMany(ts, n).value.0, ReadMany(ts, n).value.1);
    }
  }

  /** Reading is the inverse of flattening, for any continuation the expression does not run into. */
  lemma {:induction false} ReadTokens(e: Expr, rest: seq<string>)
    requires WellFormed(e) && Separated(e, rest)
    ensures Read(Tokens(e) + rest) == Some((e, rest))
    decreases e
  {
    var ts := Tokens(e) + rest;
    match e
    case Name(text) =>
      assert ts == [text] + rest;
    case Call(receiver, builtin, args) =>
      assert ts[2..] == TokensAll(args) + rest;
      ReadTokensAll(args, rest);
    case Not(arg) =>
      assert ts[1..] == Tokens(arg) + rest;
      NoLeadingBuiltin(arg, rest);
      assert ts[1] == (Tokens(arg) + rest)[0];
      ReadTokens(arg, rest);
    case Bin(op, left, right) =>
      var tail := Tokens(right) + rest;
      assert ts[1..] == Tokens(left) + tail;
      NoLeadingBuiltin(left, tail);
      assert ts[1] == (Tokens(left) + tail)[0];
      NoLeadingBuiltin(right, rest);
      ReadTokens(left, tail);
      ReadTokens(right, rest);
  }

  lemma {:induction false} ReadTokensAll(es: seq<Expr>, rest: seq<string>)
    requires forall i :: 0 <= i < |es| ==> WellFormed(es[i])
    requires SeparatedAll(es, rest)
    ensures ReadMany(TokensAll(es) + rest, |es|) == Some((es, rest))
    decreases es
  {
    if es == [] {
      assert TokensAll(es) + rest == rest;
    } else {
      TailIsSeparated(es, rest);
      ReadTokens(es[0], TokensAll(es[1..]) + rest);
      ReadTokensAll(es[1..], rest);
      ReadManyCons(TokensAll(es) + rest, es[0], TokensAll(es[1..]) + rest, es[1..], rest);
      assert [es[0]] + es[1..] == es;
    }
  }

  lemma {:induction false} ReadManyCons(ts: seq<string>, e: Expr, mid: seq<string>, es: seq<Expr>, rest: seq<string>)
    requires Read(ts) == Some((e, mid)) && ReadMany(mid, |es|) == Some((es, rest))
    ensures ReadMany(ts, |es| + 1) == Some(([e] + es, rest))
  {
  }

  /** When the expression does run into its continuation, reading never returns it. */
  lemma {:induction false} ReadRunsOn(e: Expr, rest: seq<string>)
    requires WellFormed(e) && !Separated(e, rest)
    ensures Read(Tokens(e) + rest) != Some((e, rest))
    decreases e
  {
    var ts := Tokens(e) + rest;
    match e
    case Name(text) =>
      assert ts[1] == rest[0];
    case Call(receiver, builtin, args) =>
      assert ts[2..] == TokensAll(args) + rest;
      ReadRunsOnAll(args, rest);
    case Not(arg) =>
      assert ts[1..] == Tokens(arg) + rest;
      NoLeadingBuiltin(arg, rest);
      assert ts[1] == (Tokens(arg) + rest)[0];
      ReadRunsOn(arg, rest);
    case Bin(op, left, right) =>
      var tail := Tokens(right) + rest;
      assert ts[1..] == Tokens(left) + tail;
      NoLeadingBuiltin(left, tail);
      assert ts[1] == (Tokens(left) + tail)[0];
      NoLeadingBuiltin(right, rest);
      ReadTokens(left, tail);
      ReadRunsOn(right, rest);
  }

  lemma {:induction false} ReadRunsOnAll(es: seq<Expr>, rest: seq<string>)
    requires forall i :: 0 <= i < |es| ==> WellFormed(es[i])
    requires !SeparatedAll(es, rest)
    ensures ReadMany(TokensAll(es) + rest, |es|) != Some((es, rest))
    decreases es
  {
    TailIsSeparated(es, rest);
    if |es| == 1 {
      ReadRunsOn(es[0], rest);
    } else {
      ReadTokens(es[0], TokensAll(es[1..]) + rest);
      ReadRunsOnAll(es[1..], rest);
    }
  }

  /** An expression can be read back exactly when no bare name at its end meets a built-in name. */
  lemma {:induction false} ReadTokensExactly(e: Expr, rest: seq<string>)
    requires WellFormed(e)
    ensures Read(Tokens(e) + rest) == Some((e, rest)) <==> Separated(e, rest)
  {
    if Separated(e, rest) {
      ReadTokens(e, rest);
    } else {
      ReadRunsOn(e, rest);
    }
  }

  // -------------------------------------------------------------------- from nodes to expressions

  function BinaryOf(operator: string): Option<Operator> {
    if operator == "=" then Some(Equals)
    else if operator == "+" then Some(Add)
    else if operator == "||" then Some(Or)
    else None
  }

  predicate Blank(s: string) { forall i :: 0 <= i < |s| ==> s[i] in " \t\r\n" }

  predicate StartsWith(s: string, prefix: string) { prefix <= s }

  /**
   Nodes with an abstract reading: known operators with only blanks before them, known built-ins
   with as many arguments as they take, and no name that is a keyword.
   */
  predicate Grammatical(n: Node)
    decreases n
  {
    match n
    case ExpressionList(_) => false
    case BuiltinCall(receiver, builtin, arguments) =>
      && !IsKeyword(receiver) && IsBuiltin(builtin)
      && (match arguments
          case None => Arity(BuiltinOf(builtin).value) == 0
          case Some(ExpressionList(children)) =>
            && |children| == Arity(BuiltinOf(builtin).value)
            && forall i :: 0 <= i < |children| ==> Grammatical(children[i])
          case Some(_) => false)
    case Negation(operand) => Grammatical(operand)
    case Binary(lhs, before, operator, _, rhs) =>
      BinaryOf(operator).Some? && Blank(before) && Grammatical(lhs) && Grammatical(rhs)
    case Leaf(text) => !IsKeyword(text)
  }

  /** One blank before the operator; or none, if the character after its first is that character again. */
  predicate OperatorInPlace(n: Node)
    requires n.Binary?
  {
    |n.before| == 1 || (|n.before| == 0 && (n.operator == "||" || StartsWith(n.after + Text(n.rhs), n.operator)))
  }

  /** All operators are where the compiler looks for them. */
  predicate Spaced(n: Node)
    decreases n
  {
    match n
    case ExpressionList(children) => forall i :: 0 <= i < |children| ==> Spaced(children[i])
    case BuiltinCall(_, _, None) => true
    case BuiltinCall(_, _, Some(arguments)) => Spaced(arguments)
    case Negation(operand) => Spaced(operand)
    case Binary(lhs, _, _, _, rhs) => OperatorInPlace(n) && Spaced(lhs) && Spaced(rhs)
    case Leaf(_) => true
  }

  predicate Readable(n: Node) { Grammatical(n) && Spaced(n) }

  /** The expression a node stands for; the bare name `all` is short for `players`. */
  function Denote(n: Node): (e: Expr)
    requires Grammatical(n)
    ensures WellFormed(e)
    decreases n
  {
    match n
    case BuiltinCall(receiver, builtin, None) => Call(receiver, BuiltinOf(builtin).value, [])
    case BuiltinCall(receiver, builtin, Some(arguments)) =>
      Call(receiver, BuiltinOf(builtin).value, DenoteAll(arguments.children))
    case Negation(operand) => Not(Denote(operand))
    case Binary(lhs, _, operator, _, rhs) => Bin(BinaryOf(operator).value, Denote(lhs), Denote(rhs))
    case Leaf(text) => Name(if text == "all" then "players" else text)
  }

  function DenoteAll(ns: seq<Node>): (es: seq<Expr>)
    requires forall i :: 0 <= i < |ns| ==> Grammatical(ns[i])
    ensures |es| == |ns| && forall i :: 0 <= i < |es| ==> WellFormed(es[i])
    decreases ns
  {
    if ns == [] then [] else [Denote(ns[0])] + DenoteAll(ns[1..])
  }

  lemma {:induction false} SecondCharacter(before: string, operator: string, tail: string)
    requires operator in ["=", "+", "||"] && Blank(before)
    ensures var s := before + (operator + tail);
            (|s| > 1 && s[1] == operator[0])
            <==> (|before| == 1 || (|before| == 0 && (operator == "||" || StartsWith(tail, operator))))
  {
    var s := before + (operator + tail);
    if |before| == 0 {
      assert s == operator + tail;
    } else if |before| > 1 {
      assert s[1] == before[1];
    }
  }

  /** The compiler's second-character rule finds the operator exactly if it is in place. */
  lemma {:induction false} OperatorTokenIsOperator(n: Node)
    requires n.Binary? && BinaryOf(n.operator).Some? && Blank(n.before)
    ensures OperatorToken(n) == OperatorName(BinaryOf(n.operator).value) <==> OperatorInPlace(n)
  {
    var tail := n.after + Text(n.rhs);
    var s := n.before + (n.operator + tail);
    assert Text(n) == Text(n.lhs) + s;
    assert OperatorToken(n) == if 1 < |s| then [s[1]] else "";
    assert OperatorName(BinaryOf(n.operator).value) == [n.operator[0]];
    SecondCharacter(n.before, n.operator, tail);
  }

  /** Two pairs of lists of the same lengths. */
  lemma {:induction false} SameHalves(a: seq<string>, b: seq<string>, a': seq<string>, b': seq<string>)
    requires |a| == |a'|
    ensures a + b == a' + b' <==> a == a' && b == b'
  {
    if a + b == a' + b' {
      assert a == (a + b)[..|a|] && b == (a + b)[|a|..];
    }
  }

  /** Compiling a node gives the tokens of the expression it stands for exactly if its operators are in place. */
  lemma {:induction false} FlattenDenoteIff(n: Node)
    requires Grammatical(n)
    ensures |Flatten(n)| == |Tokens(Denote(n))|
    ensures Flatten(n) == Tokens(Denote(n)) <==> Spaced(n)
    decreases n
  {
    match n
    case BuiltinCall(receiver, builtin, None) =>
      assert Flatten(n) == [receiver, builtin] + [];
    case BuiltinCall(receiver, builtin, Some(arguments)) =>
      FlattenDenoteAllIff(arguments.children);
      SameHalves([receiver, builtin], Flatten(arguments), [receiver, builtin], TokensAll(DenoteAll(arguments.children)));
    case Negation(operand) =>
      FlattenDenoteIff(operand);
      SameHalves(["!"], Flatten(operand), ["!"], Tokens(Denote(operand)));
    case Binary(lhs, _, _, _, rhs) =>
      FlattenDenoteIff(lhs);
      FlattenDenoteIff(rhs);
      FlattenDenoteBinary(n);
    case Leaf(_) =>
  }

  lemma {:induction false} FlattenDenoteBinary(n: Node)
    requires n.Binary? && Grammatical(n)
    requires |Flatten(n.lhs)| == |Tokens(Denote(n.lhs))| && |Flatten(n.rhs)| == |Tokens(Denote(n.rhs))|
    requires Flatten(n.lhs) == Tokens(Denote(n.lhs)) <==> Spaced(n.lhs)
    requires Flatten(n.rhs) == Tokens(Denote(n.rhs)) <==> Spaced(n.rhs)
    ensures |Flatten(n)| == |Tokens(Denote(n))|
    ensures Flatten(n) == Tokens(Denote(n)) <==> Spaced(n)
  {
    var op, op' := OperatorToken(n), OperatorName(BinaryOf(n.operator).value);
    OperatorTokenIsOperator(n);
    SameParts(op, Flatten(n.lhs), Flatten(n.rhs), op', Tokens(Denote(n.lhs)), Tokens(Denote(n.rhs)));
    assert Flatten(n) == [op] + Flatten(n.lhs) + Flatten(n.rhs);
    assert Tokens(Denote(n)) == [op'] + (Tokens(Denote(n.lhs)) + Tokens(Denote(n.rhs)));
  }

  lemma {:induction false} SameParts(op: string, l: seq<string>, r: seq<string>, op': string, l': seq<string>, r': seq<string>)
    requires |l| == |l'| && |r| == |r'|
    ensures [op] + l + r == [op'] + (l' + r') <==> op == op' && l == l' && r == r'
  {
    assert [op] + l + r == [op] + (l + r);
    SameHalves([op], l + r, [op'], l' + r');
    SameHalves(l, r, l', r');
    assert [op] == [op'] <==> [op][0] == [op'][0];
  }

  lemma {:induction false} FlattenDenoteAllIff(ns: seq<Node>)
    requires forall i :: 0 <= i < |ns| ==> Grammatical(ns[i])
    ensures |FlattenAll(ns)| == |TokensAll(DenoteAll(ns))|
    ensures FlattenAll(ns) == TokensAll(DenoteAll(ns)) <==> forall i :: 0 <= i < |ns| ==> Spaced(ns[i])
    decreases ns
  {
    if ns != [] {
      FlattenDenoteIff(ns[0]);
      FlattenDenoteAllIff(ns[1..]);
      SameHalves(Flatten(ns[0]), FlattenAll(ns[1..]), Tokens(Denote(ns[0])), TokensAll(DenoteAll(ns[1..])));
      assert (forall i :: 0 <= i < |ns| ==> Spaced(ns[i])) <==>
             Spaced(ns[0]) && forall i :: 0 <= i < |ns[1..]| ==> Spaced(ns[1..][i]) by {
        assert forall i :: 1 <= i < |ns| ==> ns[i] == ns[1..][i - 1];
      }
    }
  }

  /** Compiling a readable node. */
  lemma {:induction false} FlattenDenote(n: Node)
    requires Readable(n)
    ensures Flatten(n) == Tokens(Denote(n))
  {
    FlattenDenoteIff(n);
  }

  /** Unique readability: equal token lists come from equal expressions with equal continuations. */
  lemma {:induction false} UniqueReadability(n1: Node, r1: seq<string>, n2: Node, r2: seq<string>)
    requires Readable(n1) && Readable(n2)
    requires Separated(Denote(n1), r1) && Separated(Denote(n2), r2)
    requires Flatten(n1) + r1 == Flatten(n2) + r2
    ensures Denote(n1) == Denote(n2) && r1 == r2
  {
    FlattenDenote(n1);
    FlattenDenote(n2);
    ReadTokens(Denote(n1), r1);
    ReadTokens(Denote(n2), r2);
  }

  /** When they run into each other it fails: a name before `size` reads as a call, or as a name and a rest. */
  lemma {:induction false} ReadabilityNeedsLookahead()
    ensures var call := BuiltinCall("xs", "size", None);
            && Readable(call) && Readable(Leaf("xs"))
            && Flatten(call) + [] == Flatten(Leaf("xs")) + ["size"]
            && Denote(call) != Denote(Leaf("xs"))
  {
    assert Flatten(BuiltinCall("xs", "size", None)) + [] == ["xs", "size"];
  }

  /** With no blank before it the operator is lost: `a+b` compiles to the tokens b, a, b. */
  lemma {:induction false} UnspacedOperatorIsLost()
    ensures Flatten(Binary(Leaf("a"), "", "+", "", Leaf("b"))) == ["b", "a", "b"]
  {
    var n := Binary(Leaf("a"), "", "+", "", Leaf("b"));
    assert Text(n) == "a+b";
    assert OperatorToken(n) == "b";
  }

  /** But not the or, whose second character serves: `a||b` compiles like `a || b`. */
  lemma {:induction false} UnspacedOrIsKept(l: Node, r: Node, after: string)
    requires Readable(l) && Readable(r)
    ensures var n := Binary(l, "", "||", after, r);
            Readable(n) && Flatten(n) == Tokens(Bin(Or, Denote(l), Denote(r)))
  {
    FlattenDenote(Binary(l, "", "||", after, r));
  }
}
