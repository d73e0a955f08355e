/**
 Loops of the environment manager.  A loop is driven from outside: the interpreter enters the
 loop node, runs the body, leaves the scope, and goes where the manager tells it, which is back
 to the loop node or on to its sibling.
 */
module EnvironmentLoops {
  import opened Wrappers
  import opened Values
  import opened Environment
  import opened EnvironmentInvariants

  // -------------------------------------------------------------------- runs of a loop

  /**
   What a loop body may do: anything that ends on the scopes it began with, keeps the loop's
   list, and does not bind the loop variable outside the loop's own scope.
   */
  ghost predicate Balanced(before: State, after: State) {
    && Valid(after) && |after.scopes| == |before.scopes| && before.scopes != []
    && before.Top().ctrl.Some? && before.Top().ctrl.value.range.Some?
    && var ctrl := before.Top().ctrl.value;
       && (forall i :: 0 <= i < |before.scopes| ==>
             after.scopes[i].ctrl == before.scopes[i].ctrl && after.scopes[i].timerId == before.scopes[i].timerId)
       && (forall i :: 0 <= i < |before.scopes| - 1 ==> ctrl.loopVar !in after.scopes[i].vars)
       && ctrl.range.value < |before.heap| <= |after.heap|
       && after.heap[ctrl.range.value] == before.heap[ctrl.range.value]
  }

  /** One pass through the body: the state it starts in, the state it ends in, and the timers expired by then. */
  datatype Pass = Pass(start: State, end: State, expired: set<int>)

  /** The passes of a loop whose first starts in `start`, and what leaving the scope for good returns. */
  ghost predicate LoopRun(start: State, node: RuleNode, passes: seq<Pass>, final: ExitResult)
    decreases passes
  {
    && passes != [] && passes[0].start == start && Balanced(start, passes[0].end)
    && var exit := Exit(passes[0].end, passes[0].expired, false);
       && exit.Exited?
       && if exit.next == Some(node)
          then CanEnter(exit.st, node) && LoopRun(Enter(exit.st, node), node, passes[1..], final)
          else |passes| == 1 && exit == final
  }

  // -------------------------------------------------------------------- one loop, from the inside

  /** The innermost scope is the loop's, and `left` is still to come. */
  ghost predicate Inside(st: State, node: RuleNode, v: string, r: Ref, left: seq<Ref>) {
    && Valid(st) && |st.scopes| > 1
    && st.Top().ctrl == Some(ControlFlow(node, v, Some(r), left == []))
    && r < |st.heap| && st.heap[r] == List(left)
    && forall i :: 0 <= i < |st.scopes| - 1 ==> v !in st.scopes[i].vars
  }

  lemma {:induction false} BodyStaysInside(before: State, after: State, node: RuleNode, v: string, r: Ref, left: seq<Ref>)
    requires Inside(before, node, v, r, left) && Balanced(before, after)
    ensures Inside(after, node, v, r, left)
  {
  }

  /** The timers when the innermost scope is left, and whether its end has to wait for one. */
  predicate TimerReleased(before: State, exit: ExitResult, expired: set<int>)
    requires before.scopes != [] && exit.Exited?
  {
    var id := before.Top().timerId;
    && exit.st.timers == ReleaseTimer(before.timers, id, expired)
    && (exit.shouldBlock <==> id in before.timers && PadRunning(before.timers[id], expired))
  }

  /** With nothing left, leaving the scope ends the loop. */
  lemma {:induction false} LastExit(st: State, node: RuleNode, v: string, r: Ref, expired: set<int>)
    requires Inside(st, node, v, r, [])
    ensures var exit := Exit(st, expired, false);
            && exit.Exited? && exit.next == node.next && exit.st.scopes == st.scopes[..|st.scopes| - 1]
            && exit.st.heap == st.heap && TimerReleased(st, exit, expired)
            && ValueOf(exit.st, v) == None && Valid(exit.st)
  {
    ExitKeepsValid(st, expired, false);
  }

  /** With items left, leaving the scope leads back to the loop node with an empty scope. */
  lemma {:induction false} ExitAgain(st: State, node: RuleNode, v: string, r: Ref, left: seq<Ref>, expired: set<int>)
    requires Inside(st, node, v, r, left) && left != []
    ensures var exit := Exit(st, expired, false);
            && exit.Exited? && exit.next == Some(node)
            && Inside(exit.st, node, v, r, left) && |exit.st.scopes| == |st.scopes| && exit.st.heap == st.heap
            && TimerReleased(st, exit, expired) && v !in exit.st.Top().vars
  {
    ExitKeepsValid(st, expired, false);
  }

  /** Entering the node again takes the next item. */
  lemma {:induction false} EnterAgain(st: State, node: RuleNode, v: string, r: Ref, left: seq<Ref>)
    requires Inside(st, node, v, r, left) && left != [] && v !in st.Top().vars
    ensures CanEnter(st, node) && left[0] < |st.heap|
    ensures var st' := Enter(st, node);
            && Inside(st', node, v, r, left[1..]) && |st'.scopes| == |st.scopes| && st'.timers == st.timers
            && ValueOf(st', v) == Some(st.heap[left[0]])
  {
    assert RefsBelow(st.heap[r], |st.heap|);
    TakeItem(st, node, v, r, left);
  }

  lemma {:induction false} TakeItem(st: State, node: RuleNode, v: string, r: Ref, left: seq<Ref>)
    requires Valid(st) && |st.scopes| > 1 && left != []
    requires st.Top().ctrl.Some? && st.Top().ctrl.value.(exiting := false) == ControlFlow(node, v, Some(r), false)
    requires r < |st.heap| && st.heap[r] == List(left)
    requires forall i :: 0 <= i < |st.scopes| ==> v !in st.scopes[i].vars
    ensures HasRange(st) && left[0] < |st.heap|
    ensures var st' := UpdateLoop(st);
            && Inside(st', node, v, r, left[1..]) && |st'.scopes| == |st.scopes| && st'.timers == st.timers
            && ValueOf(st', v) == Some(st.heap[left[0]])
  {
    assert RefsBelow(st.heap[r], |st.heap|);
    UpdateLoopKeepsValid(st);
    var val := st.heap[left[0]];
    var st1 := SetVariable(st, v, val);
    SetVariableLookup(st, v, val, v);
    assert Holder(st.scopes, v).None?;
    assert st1.scopes == st.scopes[|st.scopes| - 1 := st.Top().(vars := st.Top().vars[v := |st.heap|])];
    var st' := UpdateLoop(st);
    var top := |st.scopes| - 1;
    assert st'.scopes[top].vars == st1.scopes[top].vars;
    assert st'.heap == (st.heap + [val])[r := List(left[1..])];
    assert Holder(st'.scopes, v) == Some(top);
  }

  /** Each pass starts with the next item in `v`: the value the item has when the pass begins. */
  ghost predicate TakesInOrder(before: State, passes: seq<Pass>, items: seq<Ref>, v: string)
    decreases passes
  {
    && |passes| == |items|
    && (items != [] ==>
          && items[0] < |before.heap| && ValueOf(passes[0].start, v) == Some(before.heap[items[0]])
          && TakesInOrder(passes[0].end, passes[1..], items[1..], v))
  }

  /** The passes after one that starts with `left` still to come. */
  lemma {:induction false} RemainingPasses(start: State, node: RuleNode, v: string, r: Ref, left: seq<Ref>,
                                           passes: seq<Pass>, final: ExitResult)
    requires Inside(start, node, v, r, left) && LoopRun(start, node, passes, final)
    ensures TakesInOrder(passes[0].end, passes[1..], left, v)
    ensures final.Exited? && final.next == node.next && Valid(final.st)
    ensures |final.st.scopes| == |start.scopes| - 1 && ValueOf(final.st, v) == None
    ensures r < |final.st.heap| && final.st.heap[r] == List([])
    decreases passes
  {
    var end := passes[0].end;
    BodyStaysInside(start, end, node, v, r, left);
    if left == [] {
      LastExit(end, node, v, r, passes[0].expired);
    } else {
      ExitAgain(end, node, v, r, left, passes[0].expired);
      var again := Exit(end, passes[0].expired, false).st;
      EnterAgain(again, node, v, r, left);
      RemainingPasses(Enter(again, node), node, v, r, left[1..], passes[1..], final);
    }
  }

  // -------------------------------------------------------------------- the loop theorem

  /** A loop node that is entered anew over a list, with a loop variable nobody else uses. */
  ghost predicate FreshLoop(st: State, node: RuleNode, items: seq<Ref>) {
    && Valid(st) && (node.kind == For || node.kind == Parallel) && node.header.Some? && !Resumes(st, node)
    && Holder(st.scopes, node.header.value.variable).None?
    && ValueOf(st, node.header.value.range) == Some(List(items))
  }

  lemma {:induction false} FirstEntry(st: State, node: RuleNode, items: seq<Ref>)
    requires FreshLoop(st, node, items)
    ensures CanEnter(st, node)
    ensures var start := Enter(st, node);
            var r := GetVariable(st, node.header.value.range).value;
            && |start.scopes| == |st.scopes| + 1
            && Inside(start, node, node.header.value.variable, r, if items == [] then [] else items[1..])
            && (items != [] ==>
                  items[0] < |st.heap| && ValueOf(start, node.header.value.variable) == Some(st.heap[items[0]]))
  {
    var pushed := PushScope(st, node);
    var r := GetVariable(st, node.header.value.range).value;
    NewControlFlowRefs(st, node, map[], NO_TIMER);
    PushKeepsValid(st, Scope(map[], NO_TIMER, Some(NewControlFlow(st, node))));
    assert RefsBelow(st.heap[r], |st.heap|);
    var v := node.header.value.variable;
    assert forall i :: 0 <= i < |pushed.scopes| ==> v !in pushed.scopes[i].vars;
    if items != [] {
      TakeItem(pushed, node, v, r, items);
    }
  }

  /**
   A loop over n >= 1 items runs its body n times, each time with the next item in the loop
   variable, and then goes on to its sibling with the stack as deep as before, the loop variable
   unbound and the list used up.  Over an empty list the body runs once all the same.
   */
  lemma {:induction false} LoopRunsOncePerItem(st: State, node: RuleNode, items: seq<Ref>, passes: seq<Pass>, final: ExitResult)
    requires FreshLoop(st, node, items) && CanEnter(st, node)
    requires LoopRun(Enter(st, node), node, passes, final)
    ensures if items == [] then |passes| == 1
            else TakesInOrder(st, passes, items, node.header.value.variable)
    ensures final.Exited? && final.next == node.next && final.st.Depth() == st.Depth() && Valid(final.st)
    ensures ValueOf(final.st, node.header.value.variable) == None
    ensures var r := GetVariable(st, node.header.value.range).value;
            r < |final.st.heap| && final.st.heap[r] == List([])
  {
    FirstEntry(st, node, items);
    var v := node.header.value.variable;
    var r := GetVariable(st, node.header.value.range).value;
    var left := if items == [] then [] else items[1..];
    RemainingPasses(Enter(st, node), node, v, r, left, passes, final);
  }

  /** The body runs exactly as often as there are items if and only if there is an item. */
  lemma {:induction false} PassesMatchItemsIff(st: State, node: RuleNode, items: seq<Ref>, passes: seq<Pass>, final: ExitResult)
    requires FreshLoop(st, node, items) && CanEnter(st, node)
    requires LoopRun(Enter(st, node), node, passes, final)
    ensures |passes| == |items| <==> items != []
  {
    LoopRunsOncePerItem(st, node, items, passes, final);
  }

  // -------------------------------------------------------------------- every loop ends

  /** A loop body as a function: balanced wherever in the loop it starts.  `expired` are the timers that will have expired at its end. */
  datatype Body = Body(effect: State -> State, expired: State -> set<int>)

  ghost predicate BodyOf(body: Body, node: RuleNode, v: string, r: Ref) {
    forall s, left :: Inside(s, node, v, r, left) ==> Balanced(s, body.effect(s))
  }

  /** The passes are the body's own. */
  ghost predicate PassesOf(passes: seq<Pass>, body: Body) {
    forall i :: 0 <= i < |passes| ==>
      passes[i].end == body.effect(passes[i].start) && passes[i].expired == body.expired(passes[i].start)
  }

  /** A pass that leads back to the loop node, in front of the others. */
  lemma {:induction false} OnePassMore(pass: Pass, node: RuleNode, rest: seq<Pass>, final: ExitResult)
    requires Balanced(pass.start, pass.end)
    requires var exit := Exit(pass.end, pass.expired, false);
             && exit.Exited? && exit.next == Some(node) && CanEnter(exit.st, node)
             && LoopRun(Enter(exit.st, node), node, rest, final)
    ensures LoopRun(pass.start, node, [pass] + rest, final)
  {
    assert ([pass] + rest)[1..] == rest;
  }

  lemma {:induction false} PassesOfMore(pass: Pass, rest: seq<Pass>, body: Body)
    requires pass.end == body.effect(pass.start) && pass.expired == body.expired(pass.start) && PassesOf(rest, body)
    ensures PassesOf([pass] + rest, body)
  {
  }

  /** From any point of a loop, and with any body, the run ends: each pass shortens the list. */
  lemma {:induction false} PassesEnd(start: State, node: RuleNode, v: string, r: Ref, left: seq<Ref>, body: Body)
    returns (passes: seq<Pass>, final: ExitResult)
    requires Inside(start, node, v, r, left) && BodyOf(body, node, v, r)
    ensures LoopRun(start, node, passes, final) && PassesOf(passes, body)
    decreases |left|
  {
    var end := body.effect(start);
    var pass := Pass(start, end, body.expired(start));
    BodyStaysInside(start, end, node, v, r, left);
    final := Exit(end, pass.expired, false);
    if left == [] {
      LastExit(end, node, v, r, pass.expired);
      passes := [pass];
    } else {
      ExitAgain(end, node, v, r, left, pass.expired);
      EnterAgain(final.st, node, v, r, left);
      var rest, last := PassesEnd(Enter(final.st, node), node, v, r, left[1..], body);
      OnePassMore(pass, node, rest, last);
      PassesOfMore(pass, rest, body);
      passes, final := [pass] + rest, last;
    }
  }

  /** The loop theorem without a run given: every loop with any balanced body ends, one pass per item. */
  lemma {:induction false} LoopEnds(st: State, node: RuleNode, items: seq<Ref>, body: Body)
    returns (passes: seq<Pass>, final: ExitResult)
    requires FreshLoop(st, node, items)
    requires BodyOf(body, node, node.header.value.variable, GetVariable(st, node.header.value.range).value)
    ensures CanEnter(st, node) && LoopRun(Enter(st, node), node, passes, final) && PassesOf(passes, body)
    ensures if items == [] then |passes| == 1
            else TakesInOrder(st, passes, items, node.header.value.variable)
    ensures final.Exited? && final.next == node.next && final.st.Depth() == st.Depth() && Valid(final.st)
  {
    FirstEntry(st, node, items);
    var v, r := node.header.value.variable, GetVariable(st, node.header.value.range).value;
    passes, final := PassesEnd(Enter(st, node), node, v, r, if items == [] then [] else items[1..], body);
    LoopRunsOncePerItem(st, node, items, passes, final);
  }

  // -------------------------------------------------------------------- loops under a timer

  /** A loop entered under a timer, and then entered itself, whose timer's flag is not the loop variable. */
  ghost predicate FreshTimedLoop(st: State, node: RuleNode, items: seq<Ref>, timer: Timer) {
    FreshLoop(st, node, items) && timer.id != NO_TIMER && timer.flag != node.header.value.variable
  }

  lemma {:induction false} TimedEntry(st: State, node: RuleNode, items: seq<Ref>, timer: Timer)
    requires FreshTimedLoop(st, node, items, timer)
    ensures HeaderBound(st, node)
    ensures var st1 := EnterTimed(st, node, timer);
            var r := GetVariable(st, node.header.value.range).value;
            var v := node.header.value.variable;
            && Resumes(st1, node) && CanEnter(st1, node) && |st1.scopes| == |st.scopes| + 1
            && st.heap <= st1.heap && |Enter(st1, node).scopes| == |st1.scopes|
            && Inside(Enter(st1, node), node, v, r, if items == [] then [] else items[1..])
            && (items != [] ==>
                  items[0] < |st1.heap| && ValueOf(Enter(st1, node), v) == Some(st1.heap[items[0]]))
  {
    EnterTimedKeepsValid(st, node, timer);
    var st1 := EnterTimed(st, node, timer);
    var v := node.header.value.variable;
    var r := GetVariable(st, node.header.value.range).value;
    assert st1.Top() == Scope(map[], timer.id, Some(ControlFlow(node, v, Some(r), true)));
    assert forall i :: 0 <= i < |st1.scopes| ==> v !in st1.scopes[i].vars;
    assert RefsBelow(st1.heap[r], |st1.heap|);
    if items != [] {
      TakeItem(st1, node, v, r, items);
    }
  }

  /** Under a timer too, a loop runs once per item. */
  lemma {:induction false} TimedLoopRunsOncePerItem(st: State, node: RuleNode, items: seq<Ref>, timer: Timer,
                                                    passes: seq<Pass>, final: ExitResult)
    requires FreshTimedLoop(st, node, items, timer)
    requires var st1 := (TimedEntry(st, node, items, timer); EnterTimed(st, node, timer));
             LoopRun(Enter(st1, node), node, passes, final)
    ensures if items == [] then |passes| == 1
            else TakesInOrder(EnterTimed(st, node, timer), passes, items, node.header.value.variable)
    ensures final.Exited? && final.next == node.next && final.st.Depth() == st.Depth() && Valid(final.st)
    ensures ValueOf(final.st, node.header.value.variable) == None
  {
    TimedEntry(st, node, items, timer);
    var v := node.header.value.variable;
    var r := GetVariable(st, node.header.value.range).value;
    var left := if items == [] then [] else items[1..];
    RemainingPasses(Enter(EnterTimed(st, node, timer), node), node, v, r, left, passes, final);
  }

  /** And it ends, with any balanced body. */
  lemma {:induction false} TimedLoopEnds(st: State, node: RuleNode, items: seq<Ref>, timer: Timer, body: Body)
    returns (passes: seq<Pass>, final: ExitResult)
    requires FreshTimedLoop(st, node, items, timer)
    requires BodyOf(body, node, node.header.value.variable, GetVariable(st, node.header.value.range).value)
    ensures HeaderBound(st, node) && CanEnter(EnterTimed(st, node, timer), node)
    ensures LoopRun(Enter(EnterTimed(st, node, timer), node), node, passes, final) && PassesOf(passes, body)
    ensures final.Exited? && final.next == node.next && final.st.Depth() == st.Depth() && Valid(final.st)
  {
    TimedEntry(st, node, items, timer);
    var st1 := EnterTimed(st, node, timer);
    var v, r := node.header.value.variable, GetVariable(st, node.header.value.range).value;
    passes, final := PassesEnd(Enter(st1, node), node, v, r, if items == [] then [] else items[1..], body);
    TimedLoopRunsOncePerItem(st, node, items, timer, passes, final);
  }

  /**
   But a timed loop loses its timer when a pass ends, although it goes on: it keeps it exactly if
   the timer has a flag or is a pad still running.  A stop timer without flag never stops a second pass.
   */
  lemma {:induction false} GoingOnKeepsTimerIff(st: State, node: RuleNode, v: string, r: Ref, left: seq<Ref>, expired: set<int>)
    requires Inside(st, node, v, r, left) && left != [] && st.Top().timerId in st.timers
    ensures var exit := Exit(st, expired, false);
            var id := st.Top().timerId;
            && exit.Exited? && exit.next == Some(node) && exit.st.Depth() == st.Depth() && exit.st.Top().timerId == id
            && (id in exit.st.timers <==> st.timers[id].HasFlag() || PadRunning(st.timers[id], expired))
  {
    ExitAgain(st, node, v, r, left, expired);
  }
}
