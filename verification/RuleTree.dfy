/**
 The rule tree of src/RuleInterpreter.cpp: nested statements become linked nodes, each with a
 pointer to the next statement of its body, one to the control node around it, and, for a
 control node, one to the first node of each of its bodies.

 `BuildBody` says which nodes with which links the parser makes, in order of creation, with
 pointers as positions in that order.  The parser is proved to build just that, and the links
 are proved to be the statements' own structure.
 */
module RuleTrees {
  import opened Wrappers
  import opened ExpressionSyntax

  // -------------------------------------------------------------------- the syntax

  datatype Kind = TaskRule(name: string) | ForRule | ParallelRule | MatchRule

  /** The tasks and those of their arguments that the compiler keeps. */
  datatype TaskArgs =
    | Extend | Discard | Shuffle | Reverse
    | Sort(list: Node, key: Node)
    | Deal(count: Node, list: Node)
    | Message(receivers: Node, text: Node)
    | Assignment(target: Node, value: Node)
    | InputChoice(player: Node, prompt: Node, choices: Node, target: Node, timeout: Node)
    | Scores(keys: Node)

  datatype Stmt =
    | Comment
    | Task(args: TaskArgs)
    | Loop(isParallel: bool, element: Node, list: Node, body: seq<Stmt>)
    | Match(target: Node, entries: seq<Entry>)

  datatype Entry = Entry(guard: Node, body: seq<Stmt>)

  datatype Label = Label(kind: Kind, data: seq<seq<string>>)

  function TypeName(args: TaskArgs): string {
    match args
    case Extend => "extend"
    case Discard => "discard"
    case Shuffle => "shuffle"
    case Reverse => "reverse"
    case Sort(_, _) => "sort"
    case Deal(_, _) => "deal"
    case Message(_, _) => "message"
    case Assignment(_, _) => "assignment"
    case InputChoice(_, _, _, _, _) => "input_choice"
    case Scores(_) => "scores"
  }

  /** The first token in quotes, or with the suffix of a player's id.  C++ leaves it undefined on no tokens. */
  function Quoted(tokens: seq<string>): seq<string> {
    if tokens == [] then [] else ["\"" + tokens[0] + "\""] + tokens[1..]
  }

  function WithId(tokens: seq<string>): seq<string> {
    if tokens == [] then [] else [tokens[0] + ".id"] + tokens[1..]
  }

  /** The data of a task's node: its type and the tokens of its arguments. */
  function TaskData(args: TaskArgs): seq<seq<string>> {
    [[TypeName(args)]] +
    match args
    case Extend => []
    case Discard => []
    case Shuffle => []
    case Reverse => []
    case Sort(list, key) => [Flatten(list), Flatten(key)]
    case Deal(count, list) => [Flatten(count), Flatten(list)]
    case Message(receivers, text) => [Flatten(receivers), Flatten(text)]
    case Assignment(target, value) => [Quoted(Flatten(target)), Flatten(value)]
    case InputChoice(player, prompt, choices, target, timeout) =>
      [WithId(Flatten(player)), Flatten(prompt), Flatten(choices), Quoted(Flatten(target)), Flatten(timeout)]
    case Scores(keys) => [Flatten(keys)]
  }

  function LabelOf(s: Stmt): Label
    requires !s.Comment?
  {
    match s
    case Task(args) => Label(TaskRule(TypeName(args)), TaskData(args))
    case Loop(isParallel, element, list, _) =>
      Label(if isParallel then ParallelRule else ForRule, [Flatten(element), Flatten(list)])
    case Match(target, _) => Label(MatchRule, [Flatten(target)])
  }

  // -------------------------------------------------------------------- what a node carries

  /** Tokens of a node, from which its expression can be read again. */
  predicate Compiled(tokens: seq<string>, n: Node) {
    tokens == Flatten(n) && (Readable(n) ==> Read(tokens) == Some((Denote(n), [])))
  }

  /** Tokens of a node, the first with something put before and after it. */
  predicate Marked(tokens: seq<string>, n: Node, before: string, after: string) {
    && |tokens| == |Flatten(n)|
    && (tokens != [] ==> tokens[0] == before + Flatten(n)[0] + after && tokens[1..] == Flatten(n)[1..])
  }

  /** A loop carries its variable and then its list, a match its target, a task its type and its arguments in order. */
  predicate Carries(tag: Label, s: Stmt) {
    match s
    case Comment => false
    case Task(args) => tag.data != [] && CarriesTask(tag.kind, tag.data[0], tag.data[1..], args)
    case Loop(isParallel, element, list, _) =>
      && tag.kind == (if isParallel then ParallelRule else ForRule)
      && |tag.data| == 2 && Compiled(tag.data[0], element) && Compiled(tag.data[1], list)
    case Match(target, _) => tag.kind == MatchRule && |tag.data| == 1 && Compiled(tag.data[0], target)
  }

  predicate CarriesTask(kind: Kind, head: seq<string>, data: seq<seq<string>>, args: TaskArgs) {
    match args
    case Extend => kind == TaskRule("extend") && head == ["extend"] && data == []
    case Discard => kind == TaskRule("discard") && head == ["discard"] && data == []
    case Shuffle => kind == TaskRule("shuffle") && head == ["shuffle"] && data == []
    case Reverse => kind == TaskRule("reverse") && head == ["reverse"] && data == []
    case Sort(list, key) =>
      kind == TaskRule("sort") && head == ["sort"]
      && |data| == 2 && Compiled(data[0], list) && Compiled(data[1], key)
    case Deal(count, list) =>
      kind == TaskRule("deal") && head == ["deal"]
      && |data| == 2 && Compiled(data[0], count) && Compiled(data[1], list)
    case Message(receivers, text) =>
      kind == TaskRule("message") && head == ["message"]
      && |data| == 2 && Compiled(data[0], receivers) && Compiled(data[1], text)
    case Assignment(target, value) =>
      kind == TaskRule("assignment") && head == ["assignment"]
      && |data| == 2 && Marked(data[0], target, "\"", "\"") && Compiled(data[1], value)
    case InputChoice(player, prompt, choices, target, timeout) =>
      kind == TaskRule("input_choice") && head == ["input_choice"]
      && |data| == 5 && Marked(data[0], player, "", ".id") && Compiled(data[1], prompt)
      && Compiled(data[2], choices) && Marked(data[3], target, "\"", "\"") && Compiled(data[4], timeout)
    case Scores(keys) =>
      kind == TaskRule("scores") && head == ["scores"] && |data| == 1 && Compiled(data[0], keys)
  }

  lemma {:induction false} FlattenCompiles(n: Node)
    ensures Compiled(Flatten(n), n)
  {
    if Readable(n) {
      FlattenDenote(n);
      ReadTokens(Denote(n), []);
      assert Tokens(Denote(n)) + [] == Tokens(Denote(n));
    }
  }

  lemma {:induction false} MarksFirst(n: Node)
    ensures Marked(Quoted(Flatten(n)), n, "\"", "\"") && Marked(WithId(Flatten(n)), n, "", ".id")
  {
    var tokens := Flatten(n);
    if tokens != [] {
      assert Quoted(tokens)[1..] == tokens[1..] && WithId(tokens)[1..] == tokens[1..];
      assert "" + tokens[0] + ".id" == tokens[0] + ".id";
    }
  }

  lemma {:induction false} TaskCarries(args: TaskArgs)
    ensures CarriesTask(TaskRule(TypeName(args)), TaskData(args)[0], TaskData(args)[1..], args)
  {
    match args
    case Extend =>
    case Discard =>
    case Shuffle =>
    case Reverse =>
    case Sort(list, key) =>
      FlattenCompiles(list);
      FlattenCompiles(key);
    case Deal(count, list) =>
      FlattenCompiles(count);
      FlattenCompiles(list);
    case Message(receivers, text) =>
      FlattenCompiles(receivers);
      FlattenCompiles(text);
    case Assignment(target, value) =>
      MarksFirst(target);
      FlattenCompiles(value);
    case InputChoice(player, prompt, choices, target, timeout) =>
      MarksFirst(player);
      FlattenCompiles(prompt);
      FlattenCompiles(choices);
      MarksFirst(target);
      FlattenCompiles(timeout);
    case Scores(keys) =>
      FlattenCompiles(keys);
  }

  /** The label of a statement carries what the statement has. */
  lemma {:induction false} LabelCarries(s: Stmt)
    requires !s.Comment?
    ensures Carries(LabelOf(s), s)
  {
    match s
    case Task(args) => TaskCarries(args);
    case Loop(_, element, list, _) =>
      FlattenCompiles(element);
      FlattenCompiles(list);
    case Match(target, _) =>
      FlattenCompiles(target);
  }

  /** The labels of the statements in the order of the source text, a statement before those inside it. */
  function Preorder(stmts: seq<Stmt>): seq<Label>
    decreases stmts, 1
  {
    if stmts == [] then [] else PreorderOne(stmts[0]) + Preorder(stmts[1..])
  }

  function PreorderOne(s: Stmt): seq<Label>
    decreases s, 0
  {
    match s
    case Comment => []
    case Task(_) => [LabelOf(s)]
    case Loop(_, _, _, body) => [LabelOf(s)] + Preorder(body)
    case Match(_, entries) => [LabelOf(s)] + PreorderEntries(entries)
  }

  function PreorderEntries(entries: seq<Entry>): seq<Label>
    decreases entries, 1
  {
    if entries == [] then [] else Preorder(entries[0].body) + PreorderEntries(entries[1..])
  }

  /** The statements of a body that are not comments. */
  function Rules(stmts: seq<Stmt>): seq<Stmt> {
    if stmts == [] then []
    else (if stmts[0].Comment? then [] else [stmts[0]]) + Rules(stmts[1..])
  }

  // -------------------------------------------------------------------- the nodes to be built

  datatype ChildLink = ChildLink(key: seq<string>, child: Option<nat>)

  /** A node with its links as positions. */
  datatype Rec = Rec(tag: Label, next: Option<nat>, parent: Option<nat>, children: seq<ChildLink>)

  function FirstOf(recs: seq<Rec>, base: nat): Option<nat> {
    if recs == [] then None else Some(base)
  }

  /** The nodes of a body, the first at position `base`. */
  function BuildBody(stmts: seq<Stmt>, base: nat, parent: Option<nat>): seq<Rec>
    decreases stmts, 1
  {
    if stmts == [] then []
    else if stmts[0].Comment? then BuildBody(stmts[1..], base, parent)
    else
      var own := BuildRule(stmts[0], base);
      var rest := BuildBody(stmts[1..], base + |own|, parent);
      ConsRule(own, rest, base + |own|, parent)
  }

  /** A statement's nodes in front of those of the rest of its body, which start at `mid`. */
  function ConsRule(own: seq<Rec>, rest: seq<Rec>, mid: nat, parent: Option<nat>): seq<Rec>
    requires own != []
  {
    [own[0].(parent := parent, next := FirstOf(rest, mid))] + own[1..] + rest
  }

  /** The nodes of one statement: its own, not yet linked to its neighbours, and those of its bodies. */
  function BuildRule(s: Stmt, base: nat): (recs: seq<Rec>)
    requires !s.Comment?
    ensures recs != [] && recs[0].next == None
    decreases s, 0
  {
    match s
    case Task(_) => [Rec(LabelOf(s), None, None, [])]
    case Loop(_, _, _, body) =>
      var inner := BuildBody(body, base + 1, Some(base));
      [Rec(LabelOf(s), None, None, [ChildLink(["true"], FirstOf(inner, base + 1))])] + inner
    case Match(_, entries) =>
      [Rec(LabelOf(s), None, None, EntryLinks(entries, base + 1, base))] + BuildEntries(entries, base + 1, base)
  }

  function BuildEntries(entries: seq<Entry>, base: nat, parent: nat): seq<Rec>
    decreases entries, 1
  {
    if entries == [] then []
    else
      var body := BuildBody(entries[0].body, base, Some(parent));
      body + BuildEntries(entries[1..], base + |body|, parent)
  }

  function EntryLinks(entries: seq<Entry>, base: nat, parent: nat): seq<ChildLink>
    decreases entries, 1
  {
    if entries == [] then []
    else
      var body := BuildBody(entries[0].body, base, Some(parent));
      [ChildLink(Flatten(entries[0].guard), FirstOf(body, base))] + EntryLinks(entries[1..], base + |body|, parent)
  }

  // -------------------------------------------------------------------- the parser

  datatype ChildNode = ChildNode(key: seq<string>, child: RuleNode?)

  class RuleNode {
    const tag: Label
    var next: RuleNode?
    var parent: RuleNode?
    var children: seq<ChildNode>

    constructor (tag: Label)
      ensures this.tag == tag && next == null && parent == null && children == []
    {
      this.tag := tag;
      next, parent, children := null, null, [];
    }

    method SetNextNode(next: RuleNode)
      modifies this`next
      ensures this.next == next
    {
      this.next := next;
    }

    method SetParentNode(parent: RuleNode?)
      modifies this`parent
      ensures this.parent == parent
    {
      this.parent := parent;
    }

    /** The child filed under a key, the first if there are several; C++ expects that there is one. */
    method GetChildWithKey(key: seq<string>) returns (found: bool, child: RuleNode?)
      ensures found <==> exists i :: 0 <= i < |children| && children[i].key == key
      ensures found ==> exists i :: 0 <= i < |children| && children[i] == ChildNode(key, child)
                                    && forall j :: 0 <= j < i ==> children[j].key != key
    {
      for i := 0 to |children|
        invariant forall j :: 0 <= j < i ==> children[j].key != key
      {
        if children[i].key == key {
          return true, children[i].child;
        }
      }
      found, child := false, null;
    }

    method SetChildren(guard: seq<string>, child: RuleNode?)
      modifies this`children
      ensures children == old(children) + [ChildNode(guard, child)]
    {
      children := children + [ChildNode(guard, child)];
    }
  }

  /** A pointer leads where a position says. */
  ghost predicate Leads(p: RuleNode?, k: Option<nat>, nodes: seq<RuleNode>) {
    match k
    case None => p == null
    case Some(i) => i < |nodes| && p == nodes[i]
  }

  ghost predicate LeadAll(cs: seq<ChildNode>, links: seq<ChildLink>, nodes: seq<RuleNode>) {
    |cs| == |links| && forall i :: 0 <= i < |cs| ==> cs[i].key == links[i].key && Leads(cs[i].child, links[i].child, nodes)
  }

  ghost predicate Matches(n: RuleNode, rec: Rec, nodes: seq<RuleNode>)
    reads n
  {
    && n.tag == rec.tag && Leads(n.next, rec.next, nodes) && Leads(n.parent, rec.parent, nodes)
    && LeadAll(n.children, rec.children, nodes)
  }

  /** The nodes made after those of `before` are as described. */
  ghost predicate Segment(before: seq<RuleNode>, made: seq<RuleNode>, recs: seq<Rec>)
    reads made
  {
    && |made| == |recs|
    && (forall i, j :: 0 <= i < j < |made| ==> made[i] != made[j])
    && forall i :: 0 <= i < |made| ==> Matches(made[i], recs[i], before + made)
  }

  /** A body's nodes so far, the last statement's at `k`, joined to those still to come. */
  function Join(done: seq<Rec>, k: nat, rest: seq<Rec>, mid: nat): seq<Rec>
    requires done != [] ==> k < |done|
  {
    if done == [] then rest else done[k := done[k].(next := FirstOf(rest, mid))] + rest
  }

  function SetParent(recs: seq<Rec>, parent: Option<nat>): seq<Rec>
    requires recs != []
  {
    recs[0 := recs[0].(parent := parent)]
  }

  function SetNext(recs: seq<Rec>, k: nat, next: nat): seq<Rec>
    requires k < |recs|
  {
    recs[k := recs[k].(next := Some(next))]
  }

  /** A statement's nodes behind those already done, linked to the last of them and to the parent. */
  function AddRule(done: seq<Rec>, k: nat, base: nat, own: seq<Rec>, parent: Option<nat>): seq<Rec>
    requires own != [] && (done != [] ==> k < |done|)
  {
    var all := done + SetParent(own, parent);
    if done == [] then all else SetNext(all, k, base + |done|)
  }

  /** Taking the next statement's nodes from what is still to come to what is done. */
  lemma {:induction false} JoinRule(done: seq<Rec>, k: nat, own: seq<Rec>, rest: seq<Rec>, base: nat, parent: Option<nat>)
    requires own != [] && own[0].next == None && (done != [] ==> k < |done|)
    ensures var mid := base + |done|;
            var done' := AddRule(done, k, base, own, parent);
            && Join(done, k, ConsRule(own, rest, mid + |own|, parent), mid) == Join(done', |done|, rest, base + |done'|)
            && |done'| == |done| + |own| && done'[|done|].next == None
  {
  }

  /** What is done and what is still to come make up the whole body. */
  ghost predicate Progress(whole: seq<Rec>, done: seq<Rec>, k: nat, rest: seq<Rec>, base: nat) {
    && (done != [] ==> k < |done| && done[k].next == None)
    && whole == Join(done, k, rest, base + |done|)
  }

  lemma {:induction false} ProgressRule(whole: seq<Rec>, done: seq<Rec>, k: nat, own: seq<Rec>, rest: seq<Rec>, base: nat, parent: Option<nat>)
    requires own != [] && own[0].next == None
    requires Progress(whole, done, k, ConsRule(own, rest, base + |done| + |own|, parent), base)
    ensures Progress(whole, AddRule(done, k, base, own, parent), |done|, rest, base)
    ensures |AddRule(done, k, base, own, parent)| == |done| + |own|
  {
    JoinRule(done, k, own, rest, base, parent);
  }

  lemma {:induction false} ProgressEnds(whole: seq<Rec>, done: seq<Rec>, k: nat, base: nat)
    requires Progress(whole, done, k, [], base)
    ensures done == whole
  {
    if done != [] {
      assert done[k := done[k].(next := None)] + [] == done;
    }
  }

  lemma {:induction false} BuildBodyUnfold(stmts: seq<Stmt>, i: nat, base: nat, parent: Option<nat>)
    requires i < |stmts|
    ensures BuildBody(stmts[i..], base, parent)
            == if stmts[i].Comment? then BuildBody(stmts[i + 1..], base, parent)
               else var own := BuildRule(stmts[i], base);
                    ConsRule(own, BuildBody(stmts[i + 1..], base + |own|, parent), base + |own|, parent)
  {
    assert stmts[i..][0] == stmts[i] && stmts[i..][1..] == stmts[i + 1..];
  }

  lemma {:induction false} MatchesExtend(n: RuleNode, rec: Rec, nodes: seq<RuleNode>, more: seq<RuleNode>)
    requires Matches(n, rec, nodes)
    ensures Matches(n, rec, nodes + more)
  {
    forall i | 0 <= i < |n.children|
      ensures Leads(n.children[i].child, rec.children[i].child, nodes + more)
    {
      assert Leads(n.children[i].child, rec.children[i].child, nodes);
    }
  }

  /** Two stretches of nodes made one after the other. */
  lemma {:induction false} SegmentAppend(before: seq<RuleNode>, made: seq<RuleNode>, recs: seq<Rec>, inner: seq<RuleNode>, own: seq<Rec>)
    requires Segment(before, made, recs) && Segment(before + made, inner, own)
    requires forall i, j :: 0 <= i < |made| && 0 <= j < |inner| ==> made[i] != inner[j]
    ensures Segment(before, made + inner, recs + own)
  {
    var all := made + inner;
    assert before + all == (before + made) + inner;
    forall i | 0 <= i < |all|
      ensures Matches(all[i], (recs + own)[i], before + all)
    {
      if i < |made| {
        MatchesExtend(made[i], recs[i], before + made, inner);
      } else {
        assert Matches(inner[i - |made|], own[i - |made|], before + made + inner);
      }
    }
  }

  /** Change the parent of the first node of a stretch. */
  method Adopt(node: RuleNode, parent: RuleNode?, ghost before: seq<RuleNode>, ghost made: seq<RuleNode>,
               ghost recs: seq<Rec>, ghost parentAt: Option<nat>)
    requires Segment(before, made, recs) && made != [] && node == made[0] && Leads(parent, parentAt, before)
    modifies node
    ensures Segment(before, made, SetParent(recs, parentAt))
  {
    assert forall i :: 0 <= i < |made| ==> Matches(made[i], recs[i], before + made);
    node.SetParentNode(parent);
    forall i | 0 <= i < |made|
      ensures Matches(made[i], SetParent(recs, parentAt)[i], before + made)
    {
      assert Leads(made[i].next, recs[i].next, before + made);
      assert LeadAll(made[i].children, recs[i].children, before + made);
    }
  }

  /** Link one node of a stretch to a later one. */
  method Link(prevNode: RuleNode, node: RuleNode, ghost before: seq<RuleNode>, ghost made: seq<RuleNode>,
              ghost recs: seq<Rec>, ghost k: nat, ghost at: nat)
    requires Segment(before, made, recs) && k < |made| && prevNode == made[k]
    requires |before| <= at < |before| + |made| && node == made[at - |before|]
    modifies prevNode
    ensures Segment(before, made, SetNext(recs, k, at))
  {
    assert forall i :: 0 <= i < |made| ==> Matches(made[i], recs[i], before + made);
    prevNode.SetNextNode(node);
    forall i | 0 <= i < |made|
      ensures Matches(made[i], SetNext(recs, k, at)[i], before + made)
    {
      assert Leads(made[i].parent, recs[i].parent, before + made);
      assert LeadAll(made[i].children, recs[i].children, before + made);
    }
  }

  /** The records of a stretch with one more child for the node at its head. */
  function WithChild(recs: seq<Rec>, link: ChildLink): seq<Rec>
    requires recs != []
  {
    [recs[0].(children := recs[0].children + [link])] + recs[1..]
  }

  /** A control node with the children it has so far, and the nodes of their bodies. */
  function Headed(own: Rec, links: seq<ChildLink>, recs: seq<Rec>): seq<Rec> {
    [own.(children := links)] + recs
  }

  lemma {:induction false} WithChildHeaded(own: Rec, links: seq<ChildLink>, recs: seq<Rec>, body: seq<Rec>, link: ChildLink)
    ensures WithChild(Headed(own, links, recs) + body, link) == Headed(own, links + [link], recs + body)
  {
    assert (Headed(own, links, recs) + body)[1..] == recs + body;
  }

  lemma {:induction false} HeadedLoop(s: Stmt, base: nat)
    requires s.Loop?
    ensures var body := BuildBody(s.body, base + 1, Some(base));
            BuildRule(s, base)
            == Headed(Rec(LabelOf(s), None, None, []), [] + [ChildLink(["true"], FirstOf(body, base + 1))], [] + body)
  {
    var body := BuildBody(s.body, base + 1, Some(base));
    assert [] + [ChildLink(["true"], FirstOf(body, base + 1))] == [ChildLink(["true"], FirstOf(body, base + 1))];
    assert [] + body == body;
  }

  /** Give the control node at the head of a stretch a child. */
  method AddChild(node: RuleNode, key: seq<string>, child: RuleNode?, ghost before: seq<RuleNode>,
                  ghost made: seq<RuleNode>, ghost recs: seq<Rec>, ghost childAt: Option<nat>)
    requires Segment(before, made, recs) && made != [] && node == made[0] && Leads(child, childAt, before + made)
    modifies node
    ensures Segment(before, made, WithChild(recs, ChildLink(key, childAt)))
  {
    assert forall i :: 0 <= i < |made| ==> Matches(made[i], recs[i], before + made);
    node.SetChildren(key, child);
    var recs' := WithChild(recs, ChildLink(key, childAt));
    forall i | 0 <= i < |made|
      ensures Matches(made[i], recs'[i], before + made)
    {
      assert Leads(made[i].parent, recs[i].parent, before + made);
      assert Leads(made[i].next, recs[i].next, before + made);
    }
  }

  ghost predicate Disjoint(made: seq<RuleNode>, inner: seq<RuleNode>) {
    forall i, j :: 0 <= i < |made| && 0 <= j < |inner| ==> made[i] != inner[j]
  }

  /** One expression compiled into a list of its own. */
  method Compile(n: Node) returns (tokens: seq<string>)
    ensures tokens == Flatten(n)
  {
    var parser := new ExpressionParser();
    parser.ParseExpression(n);
    tokens := parser.expressionList;
  }

  /** The first `count` arguments, each compiled into an entry of the list. */
  method CompileAll(ns: seq<Node>) returns (list: seq<seq<string>>)
    ensures |list| == |ns| && forall i :: 0 <= i < |ns| ==> list[i] == Flatten(ns[i])
  {
    list := [];
    for i := 0 to |ns|
      invariant |list| == i && forall j :: 0 <= j < i ==> list[j] == Flatten(ns[j])
    {
      var tokens := Compile(ns[i]);
      list := list + [tokens];
    }
  }

  method ParseTask(args: TaskArgs) returns (node: RuleNode)
    ensures fresh(node) && node.tag == LabelOf(Task(args)) && Carries(node.tag, Task(args))
    ensures node.next == null && node.parent == null && node.children == []
  {
    var data: seq<seq<string>> := [];
    match args {
      case Extend =>
      case Discard =>
      case Shuffle =>
      case Reverse =>
      case Sort(list, key) => data := CompileAll([list, key]);
      case Deal(count, list) => data := CompileAll([count, list]);
      case Message(receivers, text) => data := CompileAll([receivers, text]);
      case Assignment(target, value) =>
        data := CompileAll([target, value]);
        data := data[0 := Quoted(data[0])];
      case InputChoice(player, prompt, choices, target, timeout) =>
        data := CompileAll([player, prompt, choices, target, timeout]);
        data := data[0 := WithId(data[0])];
        data := data[3 := Quoted(data[3])];
      case Scores(keys) => data := CompileAll([keys]);
    }
    assert [[TypeName(args)]] + data == TaskData(args);
    LabelCarries(Task(args));
    node := new RuleNode(Label(TaskRule(TypeName(args)), [[TypeName(args)]] + data));
  }

  method ParseRule(s: Stmt, ghost before: seq<RuleNode>) returns (node: RuleNode, ghost made: seq<RuleNode>)
    requires !s.Comment?
    ensures made != [] && node == made[0] && fresh(made) && Carries(node.tag, s)
    ensures Segment(before, made, BuildRule(s, |before|))
    decreases s, 0
  {
    match s
    case Task(args) =>
      node := ParseTask(args);
      made := [node];
    case Loop(_, _, _, _) =>
      node, made := ParseForRule(s, before);
    case Match(_, _) =>
      node, made := ParseMatchRule(s, before);
  }

  /** A loop's node, with the tokens of its variable and of its list. */
  method NewLoop(s: Stmt) returns (node: RuleNode)
    requires s.Loop?
    ensures fresh(node) && node.tag == LabelOf(s)
    ensures node.tag.data == [Flatten(s.element), Flatten(s.list)]
    ensures node.next == null && node.parent == null && node.children == []
  {
    var element := Compile(s.element);
    var list := Compile(s.list);
    node := new RuleNode(Label(if s.isParallel then ParallelRule else ForRule, [element, list]));
  }

  method NewMatch(s: Stmt) returns (node: RuleNode)
    requires s.Match?
    ensures fresh(node) && node.tag == LabelOf(s) && node.tag.data == [Flatten(s.target)]
    ensures node.next == null && node.parent == null && node.children == []
  {
    var target := Compile(s.target);
    node := new RuleNode(Label(MatchRule, [target]));
  }

  method ParseForRule(s: Stmt, ghost before: seq<RuleNode>) returns (node: RuleNode, ghost made: seq<RuleNode>)
    requires s.Loop?
    ensures made != [] && node == made[0] && fresh(made) && Carries(node.tag, s)
    ensures Segment(before, made, BuildRule(s, |before|))
    decreases s.body, 5
  {
    node := NewLoop(s);
    LabelCarries(s);
    ghost var own := Rec(LabelOf(s), None, None, []);
    assert Headed(own, [], []) == [own];
    ghost var inner := ParseChildBody(["true"], s.body, node, before, [node], own, [], []);
    made := [node] + inner;
    HeadedLoop(s, |before|);
  }

  /** With the first `i` alternatives done, their links and nodes and those to come make up the match. */
  ghost predicate EntriesProgress(entries: seq<Entry>, i: nat, base: nat, links: seq<ChildLink>, recs: seq<Rec>)
    requires i <= |entries|
  {
    && EntryLinks(entries, base + 1, base) == links + EntryLinks(entries[i..], base + 1 + |recs|, base)
    && BuildEntries(entries, base + 1, base) == recs + BuildEntries(entries[i..], base + 1 + |recs|, base)
  }

  lemma {:induction false} EntriesStep(entries: seq<Entry>, i: nat, base: nat, links: seq<ChildLink>, recs: seq<Rec>)
    requires i < |entries| && EntriesProgress(entries, i, base, links, recs)
    ensures var at := base + 1 + |recs|;
            var body := BuildBody(entries[i].body, at, Some(base));
            EntriesProgress(entries, i + 1, base, links + [ChildLink(Flatten(entries[i].guard), FirstOf(body, at))], recs + body)
  {
    var rest := entries[i..];
    assert rest[0] == entries[i] && rest[1..] == entries[i + 1..];
    var at := base + 1 + |recs|;
    var body := BuildBody(entries[i].body, at, Some(base));
    var link := ChildLink(Flatten(entries[i].guard), FirstOf(body, at));
    var links', recs' := EntryLinks(rest[1..], at + |body|, base), BuildEntries(rest[1..], at + |body|, base);
    assert links + ([link] + links') == (links + [link]) + links';
    assert recs + (body + recs') == (recs + body) + recs';
  }

  /** The loop state of a match: `made` realises the match node and the first `i` alternatives. */
  ghost predicate MatchState(s: Stmt, i: nat, before: seq<RuleNode>, made: seq<RuleNode>, links: seq<ChildLink>, recs: seq<Rec>)
    requires s.Match? && i <= |s.entries|
    reads made
  {
    && made != [] && Segment(before, made, Headed(Rec(LabelOf(s), None, None, []), links, recs))
    && EntriesProgress(s.entries, i, |before|, links, recs)
  }

  method ParseMatchRule(s: Stmt, ghost before: seq<RuleNode>) returns (node: RuleNode, ghost made: seq<RuleNode>)
    requires s.Match?
    ensures made != [] && node == made[0] && fresh(made) && Carries(node.tag, s)
    ensures Segment(before, made, BuildRule(s, |before|))
    decreases s.entries, 5
  {
    node := NewMatch(s);
    LabelCarries(s);
    made := [node];
    ghost var links: seq<ChildLink>, recs: seq<Rec> := [], [];
    assert Headed(Rec(LabelOf(s), None, None, []), links, recs) == [Rec(LabelOf(s), None, None, [])];
    for i := 0 to |s.entries|
      invariant fresh(made) && MatchState(s, i, before, made, links, recs) && node == made[0]
    {
      ghost var inner;
      inner, links, recs := ParseEntry(s, i, node, before, made, links, recs);
      made := made + inner;
    }
    EntriesEnd(s, |before|, links, recs);
  }

  lemma {:induction false} EntriesEnd(s: Stmt, base: nat, links: seq<ChildLink>, recs: seq<Rec>)
    requires s.Match? && EntriesProgress(s.entries, |s.entries|, base, links, recs)
    ensures BuildRule(s, base) == Headed(Rec(LabelOf(s), None, None, []), links, recs)
  {
    assert s.entries[|s.entries|..] == [];
    assert links + [] == links && recs + [] == recs;
  }

  /** One alternative of a match: its body becomes a child of the match node under its guard. */
  method ParseEntry(s: Stmt, i: nat, node: RuleNode, ghost before: seq<RuleNode>, ghost made: seq<RuleNode>,
                    ghost links: seq<ChildLink>, ghost recs: seq<Rec>)
    returns (ghost inner: seq<RuleNode>, ghost links': seq<ChildLink>, ghost recs': seq<Rec>)
    requires s.Match? && i < |s.entries| && MatchState(s, i, before, made, links, recs) && node == made[0]
    modifies node
    ensures fresh(inner) && MatchState(s, i + 1, before, made + inner, links', recs')
    decreases s.entries, 4
  {
    var entry := s.entries[i];
    ghost var at := |before| + |made|;
    ghost var body := BuildBody(entry.body, at, Some(|before|));
    var guard := Compile(entry.guard);
    links', recs' := links + [ChildLink(guard, FirstOf(body, at))], recs + body;
    EntriesStep(s.entries, i, |before|, links, recs);
    inner := ParseChildBody(guard, entry.body, node, before, made, Rec(LabelOf(s), None, None, []), links, recs);
  }

  /** Parse a body of a control node and make its first statement a child of the node. */
  method ParseChildBody(key: seq<string>, stmts: seq<Stmt>, node: RuleNode, ghost before: seq<RuleNode>,
                        ghost made: seq<RuleNode>, ghost own: Rec, ghost links: seq<ChildLink>, ghost recs: seq<Rec>)
    returns (ghost inner: seq<RuleNode>)
    requires made != [] && made[0] == node && Segment(before, made, Headed(own, links, recs))
    modifies node
    ensures fresh(inner)
    ensures var at := |before| + |made|;
            var body := BuildBody(stmts, at, Some(|before|));
            Segment(before, made + inner, Headed(own, links + [ChildLink(key, FirstOf(body, at))], recs + body))
    decreases stmts, 4
  {
    ghost var at := |before| + |made|;
    ghost var body := BuildBody(stmts, at, Some(|before|));
    assert (before + made)[|before|] == node;
    var first;
    first, inner := ParseControlBody(stmts, node, before + made, Some(|before|));
    assert Disjoint(made, inner);
    AttachBody(key, first, node, before, made, own, links, recs, inner, body);
  }

  /** Make the first node of a parsed body a child of its control node. */
  method AttachBody(key: seq<string>, first: RuleNode?, node: RuleNode, ghost before: seq<RuleNode>,
                    ghost made: seq<RuleNode>, ghost own: Rec, ghost links: seq<ChildLink>, ghost recs: seq<Rec>,
                    ghost inner: seq<RuleNode>, ghost body: seq<Rec>)
    requires made != [] && made[0] == node && Segment(before, made, Headed(own, links, recs))
    requires Segment(before + made, inner, body) && Disjoint(made, inner)
    requires first == (if inner == [] then null else inner[0])
    modifies node
    ensures Segment(before, made + inner,
                    Headed(own, links + [ChildLink(key, FirstOf(body, |before| + |made|))], recs + body))
  {
    ghost var head := Headed(own, links, recs);
    ghost var at := FirstOf(body, |before| + |made|);
    SegmentAppend(before, made, head, inner, body);
    FirstLeads(first, before, made, inner, body);
    AddChild(node, key, first, before, made + inner, head + body, at);
    WithChildHeaded(own, links, recs, body, ChildLink(key, at));
  }

  /** The first node of a body is where its records start. */
  lemma {:induction false} FirstLeads(first: RuleNode?, before: seq<RuleNode>, made: seq<RuleNode>, inner: seq<RuleNode>, body: seq<Rec>)
    requires first == (if inner == [] then null else inner[0]) && |inner| == |body|
    ensures Leads(first, FirstOf(body, |before| + |made|), before + (made + inner))
  {
  }

  /** The next statement of a body: its nodes, pointing to the control node around the body. */
  method ParseNext(s: Stmt, parent: RuleNode?, ghost before: seq<RuleNode>, ghost made: seq<RuleNode>,
                   ghost done: seq<Rec>, ghost parentAt: Option<nat>)
    returns (node: RuleNode, ghost inner: seq<RuleNode>)
    requires !s.Comment? && Segment(before, made, done) && Leads(parent, parentAt, before)
    ensures inner != [] && node == inner[0] && fresh(inner)
    ensures Segment(before, made + inner, done + SetParent(BuildRule(s, |before| + |done|), parentAt))
    decreases s, 1
  {
    ghost var own := BuildRule(s, |before| + |done|);
    node, inner := ParseRule(s, before + made);
    assert Disjoint(made, inner) && node !in made;
    Adopt(node, parent, before + made, inner, own, parentAt);
    SegmentAppend(before, made, done, inner, SetParent(own, parentAt));
  }

  /** The same, and the statement before it linked to it. */
  method ParseAndLink(s: Stmt, prevNode: RuleNode?, parent: RuleNode?, ghost before: seq<RuleNode>,
                      ghost made: seq<RuleNode>, ghost done: seq<Rec>, ghost k: nat, ghost parentAt: Option<nat>)
    returns (node: RuleNode, ghost inner: seq<RuleNode>)
    requires !s.Comment? && Segment(before, made, done) && Leads(parent, parentAt, before)
    requires if made == [] then prevNode == null else k < |made| && prevNode == made[k]
    modifies prevNode
    ensures inner != [] && node == inner[0] && fresh(inner)
    ensures Segment(before, made + inner, AddRule(done, k, |before|, BuildRule(s, |before| + |done|), parentAt))
    decreases s, 2
  {
    node, inner := ParseNext(s, parent, before, made, done, parentAt);
    if prevNode != null {
      ghost var all := done + SetParent(BuildRule(s, |before| + |done|), parentAt);
      Link(prevNode, node, before, made + inner, all, k, |before| + |done|);
    }
  }

  /** The parser's two pointers: the first node of a body so far, and that of its last statement. */
  predicate PointersAt(firstNode: RuleNode?, prevNode: RuleNode?, made: seq<RuleNode>, k: nat) {
    if made == [] then firstNode == null && prevNode == null
    else firstNode == made[0] && k < |made| && prevNode == made[k]
  }

  lemma {:induction false} PointersMove(firstNode: RuleNode?, prevNode: RuleNode?, made: seq<RuleNode>, k: nat, inner: seq<RuleNode>)
    requires PointersAt(firstNode, prevNode, made, k) && inner != []
    ensures PointersAt(if prevNode == null then inner[0] else firstNode, inner[0], made + inner, |made|)
  {
  }

  /** After `i` of the statements: what is done and what is still to come make up the body. */
  ghost predicate BodyProgress(whole: seq<Rec>, stmts: seq<Stmt>, i: nat, base: nat, parent: Option<nat>, done: seq<Rec>, k: nat)
    requires i <= |stmts|
  {
    Progress(whole, done, k, BuildBody(stmts[i..], base + |done|, parent), base)
  }

  /** One round of the loop below: parse a statement, link it, and move its nodes to what is done. */
  method ParseStatement(stmts: seq<Stmt>, i: nat, firstNode: RuleNode?, prevNode: RuleNode?, parent: RuleNode?,
                        ghost before: seq<RuleNode>, ghost parentAt: Option<nat>, ghost made: seq<RuleNode>,
                        ghost done: seq<Rec>, ghost k: nat, ghost whole: seq<Rec>)
    returns (first: RuleNode, node: RuleNode, ghost inner: seq<RuleNode>, ghost done': seq<Rec>)
    requires i < |stmts| && !stmts[i].Comment? && Leads(parent, parentAt, before)
    requires Segment(before, made, done) && PointersAt(firstNode, prevNode, made, k)
    requires BodyProgress(whole, stmts, i, |before|, parentAt, done, k)
    modifies prevNode
    ensures fresh(inner)
    ensures Segment(before, made + inner, done') && PointersAt(first, node, made + inner, |made|)
    ensures BodyProgress(whole, stmts, i + 1, |before|, parentAt, done', |made|)
    decreases stmts, 2
  {
    done' := AddRule(done, k, |before|, BuildRule(stmts[i], |before| + |done|), parentAt);
    ProgressStatement(whole, stmts, i, |before|, parentAt, done, k);
    node, inner := ParseAndLink(stmts[i], prevNode, parent, before, made, done, k, parentAt);
    first := if prevNode == null then node else firstNode;
    PointersMove(firstNode, prevNode, made, k, inner);
  }

  lemma {:induction false} ProgressStatement(whole: seq<Rec>, stmts: seq<Stmt>, i: nat, base: nat, parent: Option<nat>,
                                             done: seq<Rec>, k: nat)
    requires i < |stmts| && !stmts[i].Comment? && BodyProgress(whole, stmts, i, base, parent, done, k)
    ensures var done' := AddRule(done, k, base, BuildRule(stmts[i], base + |done|), parent);
            BodyProgress(whole, stmts, i + 1, base, parent, done', |done|) && |done| < |done'|
  {
    var own := BuildRule(stmts[i], base + |done|);
    var rest := BuildBody(stmts[i + 1..], base + |AddRule(done, k, base, own, parent)|, parent);
    NextIsRule(stmts, i, base, done, k, parent);
    ProgressRule(whole, done, k, own, rest, base, parent);
  }

  /** What is still to come begins with the next statement's nodes. */
  lemma {:induction false} NextIsRule(stmts: seq<Stmt>, i: nat, base: nat, done: seq<Rec>, k: nat, parent: Option<nat>)
    requires i < |stmts| && !stmts[i].Comment? && (done != [] ==> k < |done|)
    ensures var mid := base + |done|;
            var own := BuildRule(stmts[i], mid);
            var rest := BuildBody(stmts[i + 1..], base + |AddRule(done, k, base, own, parent)|, parent);
            BuildBody(stmts[i..], mid, parent) == ConsRule(own, rest, mid + |own|, parent)
  {
    AddRuleLength(done, k, base, BuildRule(stmts[i], base + |done|), parent);
    BuildBodyUnfold(stmts, i, base + |done|, parent);
  }

  lemma {:induction false} AddRuleLength(done: seq<Rec>, k: nat, base: nat, own: seq<Rec>, parent: Option<nat>)
    requires own != [] && (done != [] ==> k < |done|)
    ensures base + |AddRule(done, k, base, own, parent)| == base + |done| + |own|
  {
  }

  /** The statements of a body: links each node to the one before it and to the control node around it. */
  method ParseControlBody(stmts: seq<Stmt>, parent: RuleNode?, ghost before: seq<RuleNode>, ghost parentAt: Option<nat>)
    returns (firstNode: RuleNode?, ghost made: seq<RuleNode>)
    requires Leads(parent, parentAt, before)
    ensures fresh(made) && firstNode == (if made == [] then null else made[0])
    ensures Segment(before, made, BuildBody(stmts, |before|, parentAt))
    decreases stmts, 3
  {
    firstNode, made := null, [];
    var prevNode: RuleNode? := null;
    ghost var whole := BuildBody(stmts, |before|, parentAt);
    ghost var done: seq<Rec> := [];
    ghost var k: nat := 0;
    for i := 0 to |stmts|
      invariant fresh(made)
      invariant Segment(before, made, done) && PointersAt(firstNode, prevNode, made, k)
      invariant BodyProgress(whole, stmts, i, |before|, parentAt, done, k)
    {
      if stmts[i].Comment? {
        BuildBodyUnfold(stmts, i, |before| + |done|, parentAt);
        continue;
      }
      ghost var inner;
      ghost var done';
      firstNode, prevNode, inner, done' :=
        ParseStatement(stmts, i, firstNode, prevNode, parent, before, parentAt, made, done, k, whole);
      done, k := done', |made|;
      made := made + inner;
    }
    ProgressEnds(whole, done, k, |before|);
  }
}
