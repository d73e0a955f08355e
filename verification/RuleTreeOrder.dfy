/**
 The shape of the rule tree: which way its links go, what its chains of next-pointers list, and
 the order in which printRuleTreeRecursively visits it.
 */
module RuleTreeOrder {
  import opened Wrappers
  import opened ExpressionSyntax
  import opened RuleTrees

  // -------------------------------------------------------------------- links go forward

  predicate ForwardChild(link: ChildLink, from: int, limit: int) {
    link.child.Some? ==> from < link.child.value < limit
  }

  /** The links of the node at `at` lead to later nodes below `limit`, its parent pointer to an earlier node. */
  ghost predicate ForwardRec(rec: Rec, at: int, limit: int) {
    && (rec.next.Some? ==> at < rec.next.value < limit)
    && (rec.parent.Some? ==> rec.parent.value < at)
    && forall c :: 0 <= c < |rec.children| ==> ForwardChild(rec.children[c], at, limit)
  }

  /** The nodes from `base` on link forward, within themselves. */
  ghost predicate Forward(recs: seq<Rec>, base: nat) {
    forall k :: 0 <= k < |recs| ==> ForwardRec(recs[k], base + k, base + |recs|)
  }

  lemma {:induction false} ForwardAppend(a: seq<Rec>, b: seq<Rec>, base: nat)
    requires Forward(a, base) && Forward(b, base + |a|)
    ensures Forward(a + b, base)
  {
    var all := a + b;
    forall k | 0 <= k < |all|
      ensures ForwardRec(all[k], base + k, base + |all|)
    {
      if k < |a| {
        assert ForwardRec(a[k], base + k, base + |a|);
      } else {
        assert ForwardRec(b[k - |a|], base + |a| + (k - |a|), base + |a| + |b|);
      }
    }
  }

  lemma {:induction false} BuildBodyForward(stmts: seq<Stmt>, base: nat, parent: Option<nat>)
    requires parent.Some? ==> parent.value < base
    ensures Forward(BuildBody(stmts, base, parent), base)
    decreases stmts, 1
  {
    if stmts != [] {
      if stmts[0].Comment? {
        BuildBodyForward(stmts[1..], base, parent);
      } else {
        var own := BuildRule(stmts[0], base);
        var rest := BuildBody(stmts[1..], base + |own|, parent);
        BuildRuleForward(stmts[0], base);
        BuildBodyForward(stmts[1..], base + |own|, parent);
        ForwardCons(own, rest, base, parent);
      }
    }
  }

  lemma {:induction false} ForwardCons(own: seq<Rec>, rest: seq<Rec>, base: nat, parent: Option<nat>)
    requires own != [] && Forward(own, base) && Forward(rest, base + |own|)
    requires parent.Some? ==> parent.value < base
    ensures Forward(ConsRule(own, rest, base + |own|, parent), base)
  {
    ForwardAppend(own, rest, base);
    var all := ConsRule(own, rest, base + |own|, parent);
    forall k | 0 <= k < |all|
      ensures ForwardRec(all[k], base + k, base + |all|)
    {
      assert ForwardRec((own + rest)[k], base + k, base + |own + rest|);
    }
  }

  lemma {:induction false} BuildRuleForward(s: Stmt, base: nat)
    requires !s.Comment?
    ensures Forward(BuildRule(s, base), base)
    decreases s, 0
  {
    match s
    case Task(_) =>
    case Loop(_, _, _, body) =>
      BuildBodyForward(body, base + 1, Some(base));
      var inner := BuildBody(body, base + 1, Some(base));
      ForwardHead(LabelOf(s), [ChildLink(["true"], FirstOf(inner, base + 1))], inner, base);
    case Match(_, entries) =>
      BuildEntriesForward(entries, base + 1, base);
      ForwardHead(LabelOf(s), EntryLinks(entries, base + 1, base), BuildEntries(entries, base + 1, base), base);
  }

  lemma {:induction false} ForwardHead(tag: Label, links: seq<ChildLink>, inner: seq<Rec>, base: nat)
    requires Forward(inner, base + 1)
    requires forall c :: 0 <= c < |links| ==> ForwardChild(links[c], base, base + 1 + |inner|)
    ensures Forward([Rec(tag, None, None, links)] + inner, base)
  {
    var all := [Rec(tag, None, None, links)] + inner;
    forall k | 0 <= k < |all|
      ensures ForwardRec(all[k], base + k, base + |all|)
    {
      if k > 0 {
        assert ForwardRec(inner[k - 1], base + 1 + (k - 1), base + 1 + |inner|);
      }
    }
  }

  lemma {:induction false} BuildEntriesForward(entries: seq<Entry>, base: nat, parent: nat)
    requires parent < base
    ensures Forward(BuildEntries(entries, base, parent), base)
    ensures forall c :: 0 <= c < |EntryLinks(entries, base, parent)| ==>
              ForwardChild(EntryLinks(entries, base, parent)[c], parent, base + |BuildEntries(entries, base, parent)|)
    decreases entries, 1
  {
    if entries != [] {
      var body := BuildBody(entries[0].body, base, Some(parent));
      var rest := BuildEntries(entries[1..], base + |body|, parent);
      EntriesUnfold(entries, base, parent);
      BuildBodyForward(entries[0].body, base, Some(parent));
      BuildEntriesForward(entries[1..], base + |body|, parent);
      ForwardAppend(body, rest, base);
      var links, more := EntryLinks(entries, base, parent), EntryLinks(entries[1..], base + |body|, parent);
      forall c | 0 <= c < |links|
        ensures ForwardChild(links[c], parent, base + |body + rest|)
      {
        if c > 0 {
          assert ForwardChild(more[c - 1], parent, base + |body| + |rest|);
        }
      }
    }
  }

  /** The nodes and the links of the first alternative, and those of the others. */
  lemma {:induction false} EntriesUnfold(entries: seq<Entry>, base: nat, parent: nat)
    requires entries != []
    ensures var body := BuildBody(entries[0].body, base, Some(parent));
            && BuildEntries(entries, base, parent) == body + BuildEntries(entries[1..], base + |body|, parent)
            && EntryLinks(entries, base, parent)
               == [ChildLink(Flatten(entries[0].guard), FirstOf(body, base))] + EntryLinks(entries[1..], base + |body|, parent)
  {
  }

  // -------------------------------------------------------------------- chains of next-pointers

  /** The nodes from one on along the next-pointers. */
  function Chain(recs: seq<Rec>, first: Option<nat>): seq<nat>
    decreases if first.Some? && first.value < |recs| then |recs| - first.value else 0
  {
    if first.None? || first.value >= |recs| then []
    else
      var next := recs[first.value].next;
      [first.value] + (if next.Some? && next.value > first.value then Chain(recs, next) else [])
  }

  /** A stretch of the nodes. */
  ghost predicate At(all: seq<Rec>, base: nat, part: seq<Rec>) {
    base + |part| <= |all| && all[base..base + |part|] == part
  }

  lemma {:induction false} AtSplit(all: seq<Rec>, base: nat, a: seq<Rec>, b: seq<Rec>)
    requires At(all, base, a + b)
    ensures At(all, base, a) && At(all, base + |a|, b)
  {
    assert (a + b)[..|a|] == a && (a + b)[|a|..] == b;
  }

  /** The chain of a body: its statements without comments, in order, all below the same control node. */
  ghost predicate ListsBody(all: seq<Rec>, chain: seq<nat>, rules: seq<Stmt>, parent: Option<nat>) {
    && |chain| == |rules|
    && forall j :: 0 <= j < |chain| ==>
         chain[j] < |all| && !rules[j].Comment? && all[chain[j]].tag == LabelOf(rules[j]) && all[chain[j]].parent == parent
  }

  lemma {:induction false} ChainListsBody(all: seq<Rec>, stmts: seq<Stmt>, base: nat, parent: Option<nat>)
    requires At(all, base, BuildBody(stmts, base, parent))
    ensures ListsBody(all, Chain(all, FirstOf(BuildBody(stmts, base, parent), base)), Rules(stmts), parent)
    decreases stmts
  {
    if stmts != [] {
      if stmts[0].Comment? {
        ChainListsBody(all, stmts[1..], base, parent);
      } else {
        var own := BuildRule(stmts[0], base);
        var mid := base + |own|;
        var rest := BuildBody(stmts[1..], mid, parent);
        SplitBody(all, own, rest, base, parent);
        RuleTag(stmts[0], base);
        ChainListsBody(all, stmts[1..], mid, parent);
        ChainCons(all, base, FirstOf(rest, mid));
        ListsCons(all, base, stmts[0], Chain(all, FirstOf(rest, mid)), Rules(stmts[1..]), parent);
      }
    }
  }

  lemma {:induction false} ChainCons(all: seq<Rec>, i: nat, next: Option<nat>)
    requires i < |all| && all[i].next == next && (next.Some? ==> next.value > i)
    ensures Chain(all, Some(i)) == [i] + Chain(all, next)
  {
  }

  lemma {:induction false} ListsCons(all: seq<Rec>, i: nat, s: Stmt, chain: seq<nat>, rules: seq<Stmt>, parent: Option<nat>)
    requires ListsBody(all, chain, rules, parent)
    requires i < |all| && !s.Comment? && all[i].tag == LabelOf(s) && all[i].parent == parent
    ensures ListsBody(all, [i] + chain, [s] + rules, parent)
  {
  }

  lemma {:induction false} RuleTag(s: Stmt, base: nat)
    requires !s.Comment?
    ensures BuildRule(s, base)[0].tag == LabelOf(s)
  {
  }

  /** The body of a loop hangs below its node under the key "true", each statement with the loop as parent. */
  lemma {:induction false} LoopBodyBelowLoop(all: seq<Rec>, s: Stmt, base: nat)
    requires s.Loop? && At(all, base + 1, BuildBody(s.body, base + 1, Some(base)))
    ensures var link := BuildRule(s, base)[0].children;
            && |link| == 1 && link[0].key == ["true"]
            && ListsBody(all, Chain(all, link[0].child), Rules(s.body), Some(base))
  {
    ChainListsBody(all, s.body, base + 1, Some(base));
  }

  // -------------------------------------------------------------------- the tree is the source

  /**
   From a node on, the next-pointers list these statements without their comments and end there,
   each node has the given parent, and below each the same holds of its own bodies.
   */
  ghost predicate Realises(all: seq<Rec>, first: Option<nat>, stmts: seq<Stmt>, parent: Option<nat>)
    decreases stmts, 1
  {
    if stmts == [] then first.None?
    else if stmts[0].Comment? then Realises(all, first, stmts[1..], parent)
    else
      && first.Some? && first.value < |all|
      && var n := all[first.value];
         && Carries(n.tag, stmts[0]) && n.parent == parent
         && RealisesRule(all, first.value, stmts[0])
         && Realises(all, n.next, stmts[1..], parent)
  }

  /** A loop has its body below it under the key "true", a match each alternative's under its guard. */
  ghost predicate RealisesRule(all: seq<Rec>, i: nat, s: Stmt)
    requires i < |all|
    decreases s, 0
  {
    match s
    case Comment => false
    case Task(_) => all[i].children == []
    case Loop(_, _, _, body) =>
      |all[i].children| == 1 && all[i].children[0].key == ["true"]
      && Realises(all, all[i].children[0].child, body, Some(i))
    case Match(_, entries) => RealisesEntries(all, i, all[i].children, entries)
  }

  ghost predicate RealisesEntries(all: seq<Rec>, i: nat, links: seq<ChildLink>, entries: seq<Entry>)
    decreases entries, 1
  {
    if entries == [] then links == []
    else
      links != [] && links[0].key == Flatten(entries[0].guard)
      && Realises(all, links[0].child, entries[0].body, Some(i))
      && RealisesEntries(all, i, links[1..], entries[1..])
  }

  lemma {:induction false} BodyRealised(all: seq<Rec>, stmts: seq<Stmt>, base: nat, parent: Option<nat>)
    requires At(all, base, BuildBody(stmts, base, parent))
    ensures Realises(all, FirstOf(BuildBody(stmts, base, parent), base), stmts, parent)
    decreases stmts, 1
  {
    if stmts != [] {
      if stmts[0].Comment? {
        BodyRealised(all, stmts[1..], base, parent);
      } else {
        var own := BuildRule(stmts[0], base);
        var mid := base + |own|;
        SplitBody(all, own, BuildBody(stmts[1..], mid, parent), base, parent);
        RuleTag(stmts[0], base);
        LabelCarries(stmts[0]);
        RuleRealised(all, stmts[0], base);
        BodyRealised(all, stmts[1..], mid, parent);
      }
    }
  }

  lemma {:induction false} RuleRealised(all: seq<Rec>, s: Stmt, base: nat)
    requires !s.Comment? && base < |all| && all[base].children == BuildRule(s, base)[0].children
    requires At(all, base + 1, BuildRule(s, base)[1..])
    ensures RealisesRule(all, base, s)
    decreases s, 0
  {
    match s
    case Task(_) =>
    case Loop(_, _, _, body) =>
      assert BuildRule(s, base)[1..] == BuildBody(body, base + 1, Some(base));
      BodyRealised(all, body, base + 1, Some(base));
    case Match(_, entries) =>
      assert BuildRule(s, base)[1..] == BuildEntries(entries, base + 1, base);
      EntriesRealised(all, entries, base + 1, base);
  }

  lemma {:induction false} EntriesRealised(all: seq<Rec>, entries: seq<Entry>, base: nat, parent: nat)
    requires At(all, base, BuildEntries(entries, base, parent))
    ensures RealisesEntries(all, parent, EntryLinks(entries, base, parent), entries)
    decreases entries, 1
  {
    if entries != [] {
      var body := BuildBody(entries[0].body, base, Some(parent));
      EntriesUnfold(entries, base, parent);
      AtSplit(all, base, body, BuildEntries(entries[1..], base + |body|, parent));
      BodyRealised(all, entries[0].body, base, Some(parent));
      EntriesRealised(all, entries[1..], base + |body|, parent);
      var links, more := EntryLinks(entries, base, parent), EntryLinks(entries[1..], base + |body|, parent);
      assert links[1..] == more;
    }
  }

  /** The tree built for a game's rules has the structure of the source, at every depth. */
  lemma {:induction false} TreeIsSource(stmts: seq<Stmt>)
    ensures var all := BuildBody(stmts, 0, None);
            Realises(all, FirstOf(all, 0), stmts, None) && Forward(all, 0)
  {
    var all := BuildBody(stmts, 0, None);
    assert all[0..0 + |all|] == all;
    BodyRealised(all, stmts, 0, None);
    BuildBodyForward(stmts, 0, None);
  }

  /** Parse a game's rules: the linked nodes are such a tree. */
  method ParseRules(stmts: seq<Stmt>) returns (firstNode: RuleNode?, ghost made: seq<RuleNode>, ghost all: seq<Rec>)
    ensures fresh(made) && firstNode == (if made == [] then null else made[0])
    ensures Segment([], made, all) && Realises(all, FirstOf(all, 0), stmts, None) && Forward(all, 0)
  {
    all := BuildBody(stmts, 0, None);
    firstNode, made := ParseControlBody(stmts, null, [], None);
    TreeIsSource(stmts);
  }

  // -------------------------------------------------------------------- the visiting order

  function Then(a: Option<seq<Label>>, b: Option<seq<Label>>): Option<seq<Label>> {
    if a.Some? && b.Some? then Some(a.value + b.value) else None
  }

  /** What is printed from a node on: the node, its children's chains, the rest of its own chain; `None` at a null child. */
  function Walk(recs: seq<Rec>, i: nat): Option<seq<Label>>
    requires i < |recs|
    decreases |recs| - i, 1, 0
  {
    Then(Then(Some([recs[i].tag]), WalkChildren(recs, i, recs[i].children)), WalkNext(recs, i, recs[i].next))
  }

  function WalkNext(recs: seq<Rec>, i: nat, next: Option<nat>): Option<seq<Label>>
    decreases |recs| - i, 0, 0
  {
    if next.None? then Some([]) else if i < next.value < |recs| then Walk(recs, next.value) else None
  }

  function WalkChildren(recs: seq<Rec>, i: nat, links: seq<ChildLink>): Option<seq<Label>>
    decreases |recs| - i, 0, |links|
  {
    if links == [] then Some([])
    else Then(WalkChild(recs, i, links[0].child), WalkChildren(recs, i, links[1..]))
  }

  function WalkChild(recs: seq<Rec>, i: nat, child: Option<nat>): Option<seq<Label>>
    decreases |recs| - i, 0, 0
  {
    if child.Some? && i < child.value < |recs| then Walk(recs, child.value) else None
  }

  /** Every body inside these statements has a statement. */
  predicate Printable(stmts: seq<Stmt>)
    decreases stmts, 1
  {
    stmts == [] || (PrintableOne(stmts[0]) && Printable(stmts[1..]))
  }

  predicate PrintableOne(s: Stmt)
    decreases s, 0
  {
    match s
    case Comment => true
    case Task(_) => true
    case Loop(_, _, _, body) => Rules(body) != [] && Printable(body)
    case Match(_, entries) => PrintableEntries(entries)
  }

  predicate PrintableEntries(entries: seq<Entry>)
    decreases entries, 1
  {
    entries == [] || (Rules(entries[0].body) != [] && Printable(entries[0].body) && PrintableEntries(entries[1..]))
  }

  function Printed(ok: bool, labels: seq<Label>): Option<seq<Label>> { if ok then Some(labels) else None }

  lemma {:induction false} EmptyBody(stmts: seq<Stmt>, base: nat, parent: Option<nat>)
    ensures BuildBody(stmts, base, parent) == [] <==> Rules(stmts) == []
    ensures Rules(stmts) == [] ==> Printable(stmts) && Preorder(stmts) == []
    decreases stmts
  {
    if stmts != [] && stmts[0].Comment? {
      EmptyBody(stmts[1..], base, parent);
    }
  }

  /** Walking a body from its first node visits its statements in source order, unless some body inside is empty. */
  lemma {:induction false} WalkBody(all: seq<Rec>, stmts: seq<Stmt>, base: nat, parent: Option<nat>)
    requires At(all, base, BuildBody(stmts, base, parent)) && BuildBody(stmts, base, parent) != []
    ensures Walk(all, base) == Printed(Printable(stmts), Preorder(stmts))
    decreases stmts, 1
  {
    if stmts[0].Comment? {
      WalkBody(all, stmts[1..], base, parent);
      assert Preorder(stmts) == Preorder(stmts[1..]);
    } else {
      var own := BuildRule(stmts[0], base);
      var mid := base + |own|;
      var rest := BuildBody(stmts[1..], mid, parent);
      SplitBody(all, own, rest, base, parent);
      RuleTag(stmts[0], base);
      WalkRule(all, stmts[0], base);
      EmptyBody(stmts[1..], mid, parent);
      if rest != [] {
        WalkBody(all, stmts[1..], mid, parent);
      }
      PreorderHead(stmts[0]);
      assert Walk(all, base) == Then(Printed(PrintableOne(stmts[0]), PreorderOne(stmts[0])),
                                     Printed(Printable(stmts[1..]), Preorder(stmts[1..])));
    }
  }

  lemma {:induction false} SplitBody(all: seq<Rec>, own: seq<Rec>, rest: seq<Rec>, base: nat, parent: Option<nat>)
    requires own != [] && At(all, base, ConsRule(own, rest, base + |own|, parent))
    ensures base < |all| && all[base] == own[0].(parent := parent, next := FirstOf(rest, base + |own|))
    ensures At(all, base + 1, own[1..]) && At(all, base + |own|, rest)
  {
    var head := own[0].(parent := parent, next := FirstOf(rest, base + |own|));
    assert ConsRule(own, rest, base + |own|, parent) == ([head] + own[1..]) + rest;
    AtSplit(all, base, [head] + own[1..], rest);
    AtSplit(all, base, [head], own[1..]);
    assert all[base] == all[base..base + 1][0];
  }

  lemma {:induction false} PreorderHead(s: Stmt)
    requires !s.Comment?
    ensures PreorderOne(s) == [LabelOf(s)] + PreorderOne(s)[1..]
  {
  }

  /** What is printed below a statement's own node. */
  lemma {:induction false} WalkRule(all: seq<Rec>, s: Stmt, base: nat)
    requires !s.Comment? && At(all, base + 1, BuildRule(s, base)[1..])
    ensures WalkChildren(all, base, BuildRule(s, base)[0].children) == Printed(PrintableOne(s), PreorderOne(s)[1..])
    decreases s, 0
  {
    match s
    case Task(_) =>
      assert PreorderOne(s)[1..] == [];
    case Loop(_, _, _, body) =>
      var inner := BuildBody(body, base + 1, Some(base));
      assert BuildRule(s, base)[1..] == inner;
      EmptyBody(body, base + 1, Some(base));
      if inner != [] {
        WalkBody(all, body, base + 1, Some(base));
      }
      OneChild(all, base, ChildLink(["true"], FirstOf(inner, base + 1)));
      assert PreorderOne(s)[1..] == Preorder(body);
    case Match(_, entries) =>
      assert BuildRule(s, base)[1..] == BuildEntries(entries, base + 1, base);
      WalkEntries(all, entries, base + 1, base);
      assert PreorderOne(s)[1..] == PreorderEntries(entries);
  }

  lemma {:induction false} OneChild(all: seq<Rec>, i: nat, link: ChildLink)
    ensures WalkChildren(all, i, [link]) == WalkChild(all, i, link.child)
  {
    assert [link][1..] == [];
    assert WalkChildren(all, i, []) == Some([]);
    assert WalkChildren(all, i, [link]) == Then(WalkChild(all, i, link.child), Some([]));
    if WalkChild(all, i, link.child).Some? {
      assert WalkChild(all, i, link.child).value + [] == WalkChild(all, i, link.child).value;
    }
  }

  lemma {:induction false} WalkEntries(all: seq<Rec>, entries: seq<Entry>, base: nat, parent: nat)
    requires parent < base && At(all, base, BuildEntries(entries, base, parent))
    ensures WalkChildren(all, parent, EntryLinks(entries, base, parent))
            == Printed(PrintableEntries(entries), PreorderEntries(entries))
    decreases entries, 1
  {
    if entries != [] {
      var stmts := entries[0].body;
      var body := BuildBody(stmts, base, Some(parent));
      AtSplit(all, base, body, BuildEntries(entries[1..], base + |body|, parent));
      EmptyBody(stmts, base, Some(parent));
      if body != [] {
        WalkBody(all, stmts, base, Some(parent));
      }
      WalkEntries(all, entries[1..], base + |body|, parent);
      var links := EntryLinks(entries, base, parent);
      assert links[1..] == EntryLinks(entries[1..], base + |body|, parent);
    }
  }

  // -------------------------------------------------------------------- printing the tree itself

  /** The recursive print over the linked nodes; not ok when a null pointer is followed. */
  method PrintRuleTree(node: RuleNode?, ghost nodes: seq<RuleNode>, ghost recs: seq<Rec>, ghost i: nat)
    returns (ok: bool, out: seq<Label>)
    requires Segment([], nodes, recs) && Forward(recs, 0)
    requires node == null || (i < |nodes| && node == nodes[i])
    ensures Printed(ok, out) == if node == null then None else Walk(recs, i)
    decreases node != null, |nodes| - i, 2
  {
    if node == null {
      return false, [];
    }
    NodeMatches(nodes, recs, i);
    ghost var rec := recs[i];
    ghost var children, rest := WalkChildren(recs, i, rec.children), WalkNext(recs, i, rec.next);
    assert Walk(recs, i) == Then(Then(Some([rec.tag]), children), rest);
    var inside;
    ok, inside := PrintChildren(node, nodes, recs, i);
    out := [node.tag] + inside;
    if !ok {
      return;
    }
    if node.next == null {
      ThenNil(Some(out));
      return;
    }
    var others;
    ok, others := PrintRuleTree(node.next, nodes, recs, rec.next.value);
    out := out + others;
  }

  lemma {:induction false} NodeMatches(nodes: seq<RuleNode>, recs: seq<Rec>, i: nat)
    requires Segment([], nodes, recs) && Forward(recs, 0) && i < |nodes|
    ensures Matches(nodes[i], recs[i], nodes) && ForwardRec(recs[i], i, |recs|)
  {
    assert [] + nodes == nodes;
    assert ForwardRec(recs[i], 0 + i, 0 + |recs|);
  }

  /** The chains of a node's children, one after the other. */
  method PrintChildren(node: RuleNode, ghost nodes: seq<RuleNode>, ghost recs: seq<Rec>, ghost i: nat)
    returns (ok: bool, out: seq<Label>)
    requires Segment([], nodes, recs) && Forward(recs, 0) && i < |nodes| && node == nodes[i]
    ensures Printed(ok, out) == WalkChildren(recs, i, recs[i].children)
    decreases true, |nodes| - i, 1
  {
    NodeMatches(nodes, recs, i);
    ghost var links := recs[i].children;
    ok, out := true, [];
    assert links[0..] == links;
    ThenNil(WalkChildren(recs, i, links));
    for c := 0 to |node.children|
      invariant ok && WalkChildren(recs, i, links) == Then(Some(out), WalkChildren(recs, i, links[c..]))
    {
      assert links[c..][0] == links[c] && links[c..][1..] == links[c + 1..];
      ghost var child := links[c].child;
      assert Leads(node.children[c].child, child, nodes) && ForwardChild(links[c], i, |recs|);
      var inside;
      ok, inside := PrintRuleTree(node.children[c].child, nodes, recs, if child.Some? then child.value else 0);
      if !ok {
        return false, [];
      }
      ThenTwice(out, inside, WalkChildren(recs, i, links[c + 1..]));
      out := out + inside;
    }
    assert links[|links|..] == [];
    ThenNil(Some(out));
  }

  lemma {:induction false} ThenNil(a: Option<seq<Label>>)
    ensures Then(Some([]), a) == a && Then(a, Some([])) == a
  {
    if a.Some? {
      assert [] + a.value == a.value && a.value + [] == a.value;
    }
  }

  lemma {:induction false} ThenTwice(a: seq<Label>, b: seq<Label>, c: Option<seq<Label>>)
    ensures Then(Some(a), Then(Some(b), c)) == Then(Some(a + b), c)
  {
    if c.Some? {
      assert a + (b + c.value) == (a + b) + c.value;
    }
  }

  /**
   Parsing a game's rules and printing the tree: the statements come out in the order of the
   source, and no null pointer is followed exactly if there is a rule and no body is empty.
   */
  method ParseAndPrint(stmts: seq<Stmt>) returns (ok: bool, out: seq<Label>)
    ensures ok <==> Rules(stmts) != [] && Printable(stmts)
    ensures ok ==> out == Preorder(stmts)
  {
    var first, made := ParseControlBody(stmts, null, [], None);
    ghost var recs := BuildBody(stmts, 0, None);
    BuildBodyForward(stmts, 0, None);
    EmptyBody(stmts, 0, None);
    if recs != [] {
      assert recs[0..|recs|] == recs;
      WalkBody(recs, stmts, 0, None);
    }
    ok, out := PrintRuleTree(first, made, recs, 0);
  }
}
