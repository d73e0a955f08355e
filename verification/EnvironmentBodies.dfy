/**
 Bodies of scopes as runs of the environment manager's own operations.  A run that never ends the
 scope it began in leaves that scope's control flow and those around it alone, whatever else it
 does: nested loops, timers and timer firings included.  If the scope is a loop's and the run
 consumes no loop over the same list, it is a balanced loop body.
 */
module EnvironmentBodies {
  import opened Wrappers
  import opened Values
  import opened Environment
  import opened EnvironmentInvariants
  import opened EnvironmentTimers
  import opened EnvironmentLoops
  import opened EnvironmentSteps

  /** The state a body starts in: the innermost scope is a node's. */
  ghost predicate InScope(st: State) { Valid(st) && st.Top().ctrl.Some? }

  /** In particular, a loop's over a list. */
  ghost predicate InLoop(st: State) {
    && InScope(st) && st.Top().ctrl.value.range.Some?
    && forall i :: 0 <= i < |st.scopes| - 1 ==> st.Top().ctrl.value.loopVar !in st.scopes[i].vars
  }

  function LoopVar(before: State): string
    requires before.scopes != [] && before.Top().ctrl.Some?
  {
    before.Top().ctrl.value.loopVar
  }

  function RangeOf(before: State): Ref
    requires before.scopes != [] && before.Top().ctrl.Some? && before.Top().ctrl.value.range.Some?
  {
    before.Top().ctrl.value.range.value
  }

  /** The scope and those around it belong to the same nodes and timers; a loop's list and its variable's place are kept. */
  ghost predicate Around(before: State, now: State)
    requires InScope(before)
  {
    && |before.scopes| <= |now.scopes|
    && (forall i :: 0 <= i < |before.scopes| ==>
          now.scopes[i].ctrl == before.scopes[i].ctrl && now.scopes[i].timerId == before.scopes[i].timerId)
    && |before.heap| <= |now.heap|
    && (InLoop(before) ==> LoopKept(before, now))
  }

  ghost predicate LoopKept(before: State, now: State)
    requires InLoop(before) && |before.scopes| <= |now.scopes| && |before.heap| <= |now.heap|
  {
    && (forall i :: 0 <= i < |before.scopes| - 1 ==> LoopVar(before) !in now.scopes[i].vars)
    && RangeOf(before) < |before.heap| && now.heap[RangeOf(before)] == before.heap[RangeOf(before)]
  }

  // -------------------------------------------------------------------- one operation of a body

  lemma {:induction false} BindStaysAround(before: State, now: State, name: string, ref: Ref)
    requires InScope(before) && Around(before, now)
    ensures Around(before, Bind(now, name, ref))
  {
    BindKeepsFrames(now, name, ref);
  }

  lemma {:induction false} SetStaysAround(before: State, now: State, name: string, v: Value)
    requires InScope(before) && Around(before, now)
    ensures Around(before, SetVariable(now, name, v))
  {
    BindStaysAround(before, now.(heap := now.heap + [v]), name, |now.heap|);
  }

  /** A nested loop takes an item off another list. */
  lemma {:induction false} UpdateStaysAround(before: State, now: State)
    requires InScope(before) && Around(before, now) && HasRange(now)
    requires |now.scopes| > |before.scopes| && now.Top().ctrl.value.range != before.Top().ctrl.value.range
    ensures Around(before, UpdateLoop(now))
  {
    var ctrl := now.Top().ctrl.value;
    var items := now.heap[ctrl.range.value].items;
    if items != [] {
      var v := now.heap[items[0]];
      SetStaysAround(before, now, ctrl.loopVar, v);
      BindKeepsFrames(now.(heap := now.heap + [v]), ctrl.loopVar, |now.heap|);
    }
  }

  lemma {:induction false} ExitStaysAround(before: State, now: State, expired: set<int>, force: bool)
    requires InScope(before) && Around(before, now) && Valid(now) && |now.scopes| > |before.scopes|
    ensures Exit(now, expired, force).Exited? && Around(before, Exit(now, expired, force).st)
  {
    ExitKeepsValid(now, expired, force);
  }

  lemma {:induction false} FireOneStaysAround(before: State, now: State, t: Timer, expired: set<int>)
    requires InScope(before) && Around(before, now) && (t.kind == Stop ==> CanUnwind(now, t.scopeid))
    requires |before.scopes| <= |FireOne(now, t, expired).scopes|
    ensures Around(before, FireOne(now, t, expired))
  {
    RaiseFlagKeepsFrames(now, t);
    if t.HasFlag() {
      SetStaysAround(before, now, t.flag, Bool(true));
    }
  }

  lemma {:induction false} FireAllStaysAround(before: State, f: Firing, batch: seq<Timer>, expired: set<int>)
    requires InScope(before) && Around(before, f.st) && Unwindable(f.st, batch) && f.lastExit == |f.st.scopes|
    requires |before.scopes| <= |FireAll(f, batch, expired).st.scopes|
    ensures Around(before, FireAll(f, batch, expired).st)
    decreases batch
  {
    if batch != [] {
      FireOneKeepsUnwindable(f.st, batch, expired);
      FireNextSettles(f, batch[0], expired);
      var g := FireNext(f, batch[0], expired);
      FireAllSettles(g, batch[1..], expired);
      FireOneStaysAround(before, f.st, batch[0], expired);
      FireAllStaysAround(before, g, batch[1..], expired);
    }
  }

  // -------------------------------------------------------------------- runs of a body

  /**
   What a body may do next: it does not leave or resume its own scope, by itself or by a timer,
   and does not take items off a loop's list.
   */
  ghost predicate BodyOp(before: State, now: State, op: Op)
    requires InScope(before) && Valid(now) && Legal(now, op)
  {
    match op
    case SetVar(_, _) => true
    case ShareVar(_, _) => true
    case EnterTimedNode(_, _) => true
    case EnterNode(node) =>
      if Resumes(now, node) then
        |now.scopes| > |before.scopes| && now.Top().ctrl.value.range != before.Top().ctrl.value.range
      else IsLoop(node) ==> PushScope(now, node).Top().ctrl.value.range != before.Top().ctrl.value.range
    case ExitNode(_, _) => |now.scopes| > |before.scopes|
    case Tick(_, _) => |before.scopes| <= |Apply(now, op).scopes|
  }

  lemma {:induction false} EnterStaysAround(before: State, now: State, node: RuleNode)
    requires InScope(before) && Valid(now) && Legal(now, EnterNode(node))
    requires Around(before, now) && BodyOp(before, now, EnterNode(node))
    ensures Around(before, Enter(now, node))
  {
    if Resumes(now, node) {
      UpdateStaysAround(before, now);
    } else {
      assert Around(before, PushScope(now, node));
      if IsLoop(node) {
        UpdateStaysAround(before, PushScope(now, node));
      }
    }
  }

  lemma {:induction false} EnterTimedStaysAround(before: State, now: State, node: RuleNode, timer: Timer)
    requires InScope(before) && Valid(now) && HeaderBound(now, node) && Around(before, now)
    ensures Around(before, EnterTimed(now, node, timer))
  {
    if timer.HasFlag() {
      SetStaysAround(before, now.(timers := now.timers[timer.id := timer.(scopeid := |now.scopes|)]), timer.flag, Bool(false));
    }
  }

  lemma {:induction false} BodyOpStaysAround(before: State, now: State, op: Op)
    requires InScope(before) && Valid(now) && Legal(now, op) && Around(before, now) && BodyOp(before, now, op)
    ensures Around(before, Apply(now, op))
  {
    match op
    case SetVar(name, v) => SetStaysAround(before, now, name, v);
    case ShareVar(name, ref) => BindStaysAround(before, now, name, ref);
    case EnterTimedNode(node, timer) =>
      EnterTimedStaysAround(before, now, node, timer);
    case EnterNode(node) => EnterStaysAround(before, now, node);
    case ExitNode(expired, force) => ExitStaysAround(before, now, expired, force);
    case Tick(fired, expired) =>
      ValidCanFire(now, fired);
      FireAllStaysAround(before, Firing(WithoutTimers(now, fired), |now.scopes|, None), FiredBatch(now, fired), expired);
  }

  ghost predicate BodyRun(before: State, now: State, ops: seq<Op>)
    requires InScope(before) && Valid(now)
    decreases ops
  {
    ops == [] ||
    (Legal(now, ops[0]) && BodyOp(before, now, ops[0])
     && (ApplyKeepsValid(now, ops[0]); BodyRun(before, Apply(now, ops[0]), ops[1..])))
  }

  lemma {:induction false} BodyRunStaysAround(before: State, now: State, ops: seq<Op>)
    requires InScope(before) && Valid(now) && Around(before, now) && BodyRun(before, now, ops)
    ensures LegalRun(now, ops) && Valid(Run(now, ops)) && Around(before, Run(now, ops))
    decreases ops
  {
    if ops != [] {
      ApplyKeepsValid(now, ops[0]);
      BodyOpStaysAround(before, now, ops[0]);
      BodyRunStaysAround(before, Apply(now, ops[0]), ops[1..]);
    }
  }

  /** Every run of operations that is a body, and ends as deep as it began, is balanced. */
  lemma {:induction false} BodyRunIsBalanced(before: State, ops: seq<Op>)
    requires InLoop(before) && BodyRun(before, before, ops)
    ensures LegalRun(before, ops)
    ensures Balanced(before, Run(before, ops)) <==> Run(before, ops).Depth() == before.Depth()
  {
    BodyRunStaysAround(before, before, ops);
  }

  /**
   A node that is no loop: whatever its body does, leaving its scope leads to its sibling, with the
   depth as it was and every scope around it still its own node's.
   */
  lemma {:induction false} NodeRunEnds(st: State, node: RuleNode, ops: seq<Op>, expired: set<int>)
    requires Valid(st) && CanEnter(st, node) && node.kind == Other && !Resumes(st, node)
    requires (EnterKeepsValid(st, node); EnterOrdinary(st, node); BodyRun(Enter(st, node), Enter(st, node), ops))
    ensures var start := (EnterKeepsValid(st, node); EnterOrdinary(st, node); Enter(st, node));
            && LegalRun(start, ops)
            && var end := Run(start, ops);
               var exit := Exit(end, expired, false);
               && st.Depth() < end.Depth()
               && (end.Depth() == st.Depth() + 1 ==>
                     && exit.Exited? && exit.next == node.next && exit.st.Depth() == st.Depth() && Valid(exit.st)
                     && forall i :: 0 <= i < st.Depth() ==>
                          exit.st.scopes[i].ctrl == st.scopes[i].ctrl && exit.st.scopes[i].timerId == st.scopes[i].timerId)
  {
    EnterKeepsValid(st, node);
    EnterOrdinary(st, node);
    var start := Enter(st, node);
    BodyRunStaysAround(start, start, ops);
    var end := Run(start, ops);
    assert start.Top() == start.scopes[st.Depth()];
    assert forall i :: 0 <= i < st.Depth() ==> start.scopes[i] == start.scopes[..st.Depth()][i];
    if end.Depth() == st.Depth() + 1 {
      assert end.Top().ctrl == start.Top().ctrl;
      ExitEnds(end, expired, false);
      ExitKeepsValid(end, expired, false);
    }
  }

  /** A pass as the interpreter drives it: the operations of the body, and the timers expired at its end. */
  datatype Lap = Lap(ops: seq<Op>, expired: set<int>)

  /** A body that ends as deep as it began. */
  ghost predicate Closed(start: State, ops: seq<Op>) {
    && InLoop(start) && BodyRun(start, start, ops)
    && (BodyRunIsBalanced(start, ops); Run(start, ops).Depth() == start.Depth())
  }

  ghost function AfterBody(start: State, ops: seq<Op>): State
    requires Closed(start, ops)
  {
    BodyRunIsBalanced(start, ops);
    Run(start, ops)
  }

  /** A loop whose bodies are runs of operations. */
  ghost predicate LoopOfRuns(start: State, node: RuleNode, laps: seq<Lap>, final: ExitResult)
    decreases laps
  {
    && laps != [] && Closed(start, laps[0].ops)
    && var exit := Exit(AfterBody(start, laps[0].ops), laps[0].expired, false);
       && exit.Exited?
       && if exit.next == Some(node)
          then CanEnter(exit.st, node) && LoopOfRuns(Enter(exit.st, node), node, laps[1..], final)
          else |laps| == 1 && exit == final
  }

  /** The passes do what the laps say. */
  ghost predicate PassesOfLaps(passes: seq<Pass>, laps: seq<Lap>) {
    && |passes| == |laps|
    && forall i :: 0 <= i < |laps| ==>
         Closed(passes[i].start, laps[i].ops) && passes[i].end == AfterBody(passes[i].start, laps[i].ops)
  }

  lemma {:induction false} OneLapMore(pass: Pass, rest: seq<Pass>, laps: seq<Lap>)
    requires laps != [] && Closed(pass.start, laps[0].ops) && pass.end == AfterBody(pass.start, laps[0].ops)
    requires PassesOfLaps(rest, laps[1..])
    ensures PassesOfLaps([pass] + rest, laps)
  {
    var passes := [pass] + rest;
    forall i | 0 <= i < |laps|
      ensures Closed(passes[i].start, laps[i].ops) && passes[i].end == AfterBody(passes[i].start, laps[i].ops)
    {
      if i > 0 {
        assert passes[i] == rest[i - 1] && laps[i] == laps[1..][i - 1];
      }
    }
  }

  lemma {:induction false} RunsArePasses(start: State, node: RuleNode, laps: seq<Lap>, final: ExitResult)
    returns (passes: seq<Pass>)
    requires LoopOfRuns(start, node, laps, final)
    ensures LoopRun(start, node, passes, final) && PassesOfLaps(passes, laps)
    decreases laps
  {
    BodyRunIsBalanced(start, laps[0].ops);
    var end := AfterBody(start, laps[0].ops);
    var exit := Exit(end, laps[0].expired, false);
    var pass := Pass(start, end, laps[0].expired);
    passes := [pass];
    if exit.next == Some(node) {
      var rest := RunsArePasses(Enter(exit.st, node), node, laps[1..], final);
      OnePassMore(pass, node, rest, final);
      OneLapMore(pass, rest, laps);
      passes := [pass] + rest;
    }
  }

  /** Whatever its bodies do with the manager, a loop takes the items in order, once each, and ends as it should. */
  lemma {:induction false} LoopOfRunsEnds(st: State, node: RuleNode, items: seq<Ref>, laps: seq<Lap>, final: ExitResult)
    returns (passes: seq<Pass>)
    requires FreshLoop(st, node, items) && CanEnter(st, node) && LoopOfRuns(Enter(st, node), node, laps, final)
    ensures PassesOfLaps(passes, laps) && LoopRun(Enter(st, node), node, passes, final)
    ensures |laps| == if items == [] then 1 else |items|
    ensures items != [] ==> TakesInOrder(st, passes, items, node.header.value.variable)
    ensures final.Exited? && final.next == node.next && final.st.Depth() == st.Depth() && Valid(final.st)
    ensures ValueOf(final.st, node.header.value.variable) == None
    ensures var r := GetVariable(st, node.header.value.range).value;
            r < |final.st.heap| && final.st.heap[r] == List([])
  {
    passes := RunsArePasses(Enter(st, node), node, laps, final);
    LoopRunsOncePerItem(st, node, items, passes, final);
  }

  /** An interpreter: the lap it takes in a given state, closed wherever in the loop it starts. */
  ghost predicate Drives(interpreter: State -> Lap, node: RuleNode, v: string, r: Ref) {
    forall s, left :: Inside(s, node, v, r, left) ==> Closed(s, interpreter(s).ops)
  }

  /** What the interpreter's body does, as a function. */
  ghost function BodyOfDriver(interpreter: State -> Lap): Body {
    Body(s => if Closed(s, interpreter(s).ops) then AfterBody(s, interpreter(s).ops) else s,
         s => interpreter(s).expired)
  }

  lemma {:induction false} DriverIsBody(interpreter: State -> Lap, node: RuleNode, v: string, r: Ref)
    requires Drives(interpreter, node, v, r)
    ensures BodyOf(BodyOfDriver(interpreter), node, v, r)
  {
    forall s, left | Inside(s, node, v, r, left)
      ensures Balanced(s, BodyOfDriver(interpreter).effect(s))
    {
      BodyRunIsBalanced(s, interpreter(s).ops);
    }
  }

  /** Such a loop always ends, whatever operations the interpreter chooses, having taken every item in order. */
  lemma {:induction false} DrivenLoopEnds(st: State, node: RuleNode, items: seq<Ref>, interpreter: State -> Lap)
    returns (passes: seq<Pass>, final: ExitResult)
    requires FreshLoop(st, node, items)
    requires Drives(interpreter, node, node.header.value.variable, GetVariable(st, node.header.value.range).value)
    ensures CanEnter(st, node) && LoopRun(Enter(st, node), node, passes, final)
    ensures PassesOf(passes, BodyOfDriver(interpreter))
    ensures if items == [] then |passes| == 1
            else TakesInOrder(st, passes, items, node.header.value.variable)
    ensures final.Exited? && final.next == node.next && final.st.Depth() == st.Depth() && Valid(final.st)
  {
    DriverIsBody(interpreter, node, node.header.value.variable, GetVariable(st, node.header.value.range).value);
    passes, final := LoopEnds(st, node, items, BodyOfDriver(interpreter));
  }
}
