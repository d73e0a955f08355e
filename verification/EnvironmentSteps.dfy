/**
 Each operation of the environment manager by itself, in full: the node it leads to, the scopes,
 the timers and the variables it leaves, and the law a timer's flag follows over a run.
 */
module EnvironmentSteps {
  import opened Wrappers
  import opened Values
  import opened Environment
  import opened EnvironmentInvariants
  import opened EnvironmentTimers

  /** Every variable but one means the same in two states. */
  ghost predicate OthersKept(before: State, after: State, name: string) {
    forall other :: other != name ==>
      GetVariable(after, other) == GetVariable(before, other) && ValueOf(after, other) == ValueOf(before, other)
  }

  // -------------------------------------------------------------------- leaving a scope

  /** What leaving the innermost scope does to the timers, and whether it has to wait. */
  predicate TimersLeft(before: State, after: State, shouldBlock: bool, expired: set<int>)
    requires before.scopes != []
  {
    var own := before.Top().timerId;
    && (shouldBlock <==> own in before.timers && before.timers[own].kind == Pad && own !in expired)
    && (forall id :: id in after.timers ==> id in before.timers && after.timers[id] == before.timers[id])
    && (forall id :: id in before.timers && id != own ==> id in after.timers)
    && (own in before.timers ==>
          (own in after.timers <==> shouldBlock || before.timers[own].flag != ""))
  }

  lemma {:induction false} ExitReleases(st: State, expired: set<int>, force: bool)
    requires Valid(st)
    ensures var exit := Exit(st, expired, force);
            exit.Exited? && exit.st.heap == st.heap && TimersLeft(st, exit.st, exit.shouldBlock, expired)
  {
  }

  /** A scope that is done, or left by force, is popped, and the way leads to its node's own sibling. */
  lemma {:induction false} ExitEnds(st: State, expired: set<int>, force: bool)
    requires Valid(st) && st.Depth() > 1 && (force || st.Top().ctrl.value.exiting)
    ensures var exit := Exit(st, expired, force);
            && exit.Exited? && exit.next == st.Top().ctrl.value.node.next
            && exit.st.scopes == st.scopes[..st.Depth() - 1] && exit.st.heap == st.heap
            && TimersLeft(st, exit.st, exit.shouldBlock, expired)
  {
    ExitReleases(st, expired, force);
  }

  /** The scope of a loop that goes on stays, with nothing in it, and the way leads back to the loop. */
  lemma {:induction false} ExitGoesOn(st: State, expired: set<int>)
    requires Valid(st) && st.Depth() > 1 && !st.Top().ctrl.value.exiting
    ensures var exit := Exit(st, expired, false);
            && exit.Exited? && exit.next == Some(st.Top().ctrl.value.node)
            && exit.st.Depth() == st.Depth() && exit.st.scopes[..st.Depth() - 1] == st.scopes[..st.Depth() - 1]
            && exit.st.Top().vars == map[] && exit.st.Top().ctrl == st.Top().ctrl
            && exit.st.Top().timerId == st.Top().timerId
            && exit.st.heap == st.heap && TimersLeft(st, exit.st, exit.shouldBlock, expired)
  {
    ExitReleases(st, expired, false);
  }

  /** Either way exactly the variables of the scope are gone: a name is bound afterwards if it was bound further out. */
  lemma {:induction false} ExitUnbinds(st: State, expired: set<int>, force: bool, name: string)
    requires Valid(st) && st.Depth() > 1
    ensures var after := Exit(st, expired, force).st;
            && GetVariable(after, name) == (if name in st.Top().vars then None else GetVariable(st, name))
            && ValueOf(after, name) == (if name in st.Top().vars then None else ValueOf(st, name))
  {
    var outer := st.(scopes := st.scopes[..st.Depth() - 1]);
    var exit := Exit(st, expired, force);
    OuterVariable(st, name);
    if force || st.Top().ctrl.value.exiting {
      ExitEnds(st, expired, force);
    } else {
      ExitGoesOn(st, expired);
      OuterVariable(exit.st, name);
    }
    assert GetVariable(exit.st, name) == GetVariable(outer, name);
    if name in st.Top().vars {
      assert forall i :: 0 <= i < |outer.scopes| ==> name !in st.scopes[i].vars;
      assert Holder(outer.scopes, name).None?;
    }
  }

  /** A name the innermost scope does not bind is looked up further out. */
  lemma {:induction false} OuterVariable(st: State, name: string)
    requires st.scopes != []
    ensures name !in st.Top().vars ==>
              GetVariable(st, name) == GetVariable(st.(scopes := st.scopes[..|st.scopes| - 1]), name)
  {
  }

  /** The base scope cannot be left: nothing happens, and there is nowhere to go. */
  lemma {:induction false} ExitOfBase(st: State, expired: set<int>, force: bool)
    requires Valid(st) && st.Depth() == 1
    ensures Exit(st, expired, force) == Exited(st, None, false)
  {
  }

  // -------------------------------------------------------------------- entering

  /** A node that is no loop gets an empty scope of its own, done after one pass; all else is as it was. */
  lemma {:induction false} EnterOrdinary(st: State, node: RuleNode)
    requires Valid(st) && CanEnter(st, node) && node.kind == Other && !Resumes(st, node)
    ensures var after := Enter(st, node);
            && after.Depth() == st.Depth() + 1 && after.scopes[..st.Depth()] == st.scopes
            && after.Top().vars == map[] && after.Top().timerId == -1
            && after.Top().ctrl.Some? && after.Top().ctrl.value.node == node && after.Top().ctrl.value.exiting
            && after.timers == st.timers && after.heap == st.heap
            && OthersKept(st, after, "") && GetVariable(after, "") == GetVariable(st, "")
  {
    var after := Enter(st, node);
    assert after.scopes[..|after.scopes| - 1] == st.scopes;
  }

  /** A timed node gets an empty scope that carries the timer, and the timer the index of that scope. */
  lemma {:induction false} EnterTimedExactly(st: State, node: RuleNode, timer: Timer)
    requires Valid(st) && HeaderBound(st, node) && timer.id != -1
    ensures var after := EnterTimed(st, node, timer);
            && after.Depth() == st.Depth() + 1
            && after.Top().vars == map[] && after.Top().timerId == timer.id
            && after.Top().ctrl.Some? && after.Top().ctrl.value.node == node && after.Top().ctrl.value.exiting
            && timer.id in after.timers
            && after.timers[timer.id] == Timer(timer.id, timer.next, timer.kind, timer.flag, st.Depth())
            && forall id :: id != timer.id ==>
                 (id in after.timers <==> id in st.timers) && (id in st.timers ==> after.timers[id] == st.timers[id])
  {
  }

  /** The flag of the timer is false then, and bound outside the new scope; all other variables are as they were. */
  lemma {:induction false} EnterTimedFlag(st: State, node: RuleNode, timer: Timer)
    requires Valid(st) && HeaderBound(st, node) && timer.id != -1
    ensures var after := EnterTimed(st, node, timer);
            && OthersKept(st, after, timer.flag)
            && (timer.flag == "" ==> GetVariable(after, "") == GetVariable(st, "") && ValueOf(after, "") == ValueOf(st, ""))
            && (timer.flag != "" ==>
                  && ValueOf(after, timer.flag) == Some(Bool(false))
                  && Holder(after.scopes, timer.flag)
                     == (if Holder(st.scopes, timer.flag).Some? then Holder(st.scopes, timer.flag) else Some(st.Depth() - 1)))
  {
    var after := EnterTimed(st, node, timer);
    var flagged := if timer.HasFlag() then SetVariable(st, timer.flag, Bool(false)) else st;
    assert after.scopes[..|after.scopes| - 1] == flagged.scopes;
    assert after.heap == flagged.heap;
    forall other
      ensures GetVariable(after, other) == GetVariable(flagged, other) && ValueOf(after, other) == ValueOf(flagged, other)
    {
      assert Holder(after.scopes, other) == Holder(flagged.scopes, other);
    }
    if timer.HasFlag() {
      forall other
        ensures other != timer.flag ==>
                  GetVariable(flagged, other) == GetVariable(st, other) && ValueOf(flagged, other) == ValueOf(st, other)
      {
        SetVariableLookup(st, timer.flag, Bool(false), other);
      }
      SetVariableLookup(st, timer.flag, Bool(false), timer.flag);
      HolderAfterSet(st, timer.flag, Bool(false));
    }
  }

  /** A variable is set where it was bound, or else in the innermost scope. */
  lemma {:induction false} HolderAfterSet(st: State, name: string, v: Value)
    requires Valid(st)
    ensures Holder(SetVariable(st, name, v).scopes, name)
            == if Holder(st.scopes, name).Some? then Holder(st.scopes, name) else Some(st.Depth() - 1)
  {
    var k := if Holder(st.scopes, name).Some? then Holder(st.scopes, name).value else st.Depth() - 1;
    var scopes' := SetVariable(st, name, v).scopes;
    assert name in scopes'[k].vars;
    assert forall i :: k < i < |scopes'| ==> scopes'[i] == st.scopes[i];
  }

  // -------------------------------------------------------------------- the loop step

  /** A loop step changes the loop variable and the loop's list, and no other variable, object or timer. */
  lemma {:induction false} UpdateLoopKeepsOthers(st: State, name: string)
    requires Valid(st) && HasRange(st) && name != st.Top().ctrl.value.loopVar
    ensures var after := UpdateLoop(st);
            var r := st.Top().ctrl.value.range.value;
            && GetVariable(after, name) == GetVariable(st, name) && after.timers == st.timers
            && |st.heap| <= |after.heap| && (forall k :: 0 <= k < |st.heap| && k != r ==> after.heap[k] == st.heap[k])
            && (GetVariable(st, name) != Some(r) ==> ValueOf(after, name) == ValueOf(st, name))
  {
    var ctrl := st.Top().ctrl.value;
    var items := st.heap[ctrl.range.value].items;
    if items != [] {
      SetVariableLookup(st, ctrl.loopVar, st.heap[items[0]], name);
      UpdateLoopShape(st);
      SameVariables(SetVariable(st, ctrl.loopVar, st.heap[items[0]]), UpdateLoop(st), name);
      if GetVariable(st, name).Some? {
        assert ScopeRefsOk(st.scopes[Holder(st.scopes, name).value], st.heap);
      }
    }
  }

  /** A loop step sets the loop variable, and then only shortens the list and notes whether it is used up. */
  lemma {:induction false} UpdateLoopShape(st: State)
    requires Valid(st) && HasRange(st) && st.heap[st.Top().ctrl.value.range.value].items != []
    ensures var ctrl := st.Top().ctrl.value;
            var items := st.heap[ctrl.range.value].items;
            var v := st.heap[items[0]];
            var set', after := SetVariable(st, ctrl.loopVar, v), UpdateLoop(st);
            && after.heap == (st.heap + [v])[ctrl.range.value := List(items[1..])] && after.timers == st.timers
            && |after.scopes| == |set'.scopes| && forall i :: 0 <= i < |set'.scopes| ==> after.scopes[i].vars == set'.scopes[i].vars
  {
    var ctrl := st.Top().ctrl.value;
    var v := st.heap[st.heap[ctrl.range.value].items[0]];
    BindKeepsFrames(st.(heap := st.heap + [v]), ctrl.loopVar, |st.heap|);
  }

  /** Entering a loop anew opens a scope for it and takes the first item: other variables keep their meaning. */
  lemma {:induction false} EnterLoopKeepsOthers(st: State, node: RuleNode, name: string)
    requires Valid(st) && CanEnter(st, node) && (node.kind == For || node.kind == Parallel) && !Resumes(st, node)
    requires node.header.Some? && name != node.header.value.variable
    ensures var after := Enter(st, node);
            var r := GetVariable(st, node.header.value.range);
            && after.Depth() == st.Depth() + 1 && after.Top().timerId == -1 && after.timers == st.timers
            && r.Some? && GetVariable(after, name) == GetVariable(st, name)
            && (GetVariable(st, name) != r ==> ValueOf(after, name) == ValueOf(st, name))
  {
    var pushed := PushScope(st, node);
    assert pushed.scopes[..|pushed.scopes| - 1] == st.scopes;
    assert GetVariable(pushed, name) == GetVariable(st, name);
    NewControlFlowRefs(st, node, map[], NO_TIMER);
    PushKeepsValid(st, Scope(map[], NO_TIMER, Some(NewControlFlow(st, node))));
    UpdateLoopKeepsOthers(pushed, name);
    UpdateLoopKeepsDepth(pushed);
  }

  lemma {:induction false} UpdateLoopKeepsDepth(st: State)
    requires Valid(st) && HasRange(st)
    ensures UpdateLoop(st).Depth() == st.Depth() && UpdateLoop(st).Top().timerId == st.Top().timerId
  {
    if st.heap[st.Top().ctrl.value.range.value].items != [] {
      var v := st.heap[st.heap[st.Top().ctrl.value.range.value].items[0]];
      BindKeepsFrames(st.(heap := st.heap + [v]), st.Top().ctrl.value.loopVar, |st.heap|);
    }
  }

  lemma {:induction false} SameVariables(a: State, b: State, name: string)
    requires |a.scopes| == |b.scopes| && forall i :: 0 <= i < |a.scopes| ==> a.scopes[i].vars == b.scopes[i].vars
    ensures GetVariable(a, name) == GetVariable(b, name)
  {
    SameBindingSameVariable(a, b, name);
  }

  // -------------------------------------------------------------------- timers that do not go off

  /** A timer outlives the end of the scopes from `depth` on: it has a flag, is a pad still running, or belongs to none of them. */
  predicate Survives(st: State, id: int, depth: nat, expired: set<int>)
    requires id in st.timers
  {
    || st.timers[id].flag != ""
    || (st.timers[id].kind == Pad && id !in expired)
    || forall i :: depth <= i < st.Depth() ==> st.scopes[i].timerId != id
  }

  /** The timers left are exactly those that have not fired and survive what was unwound, all unchanged. */
  lemma {:induction false} UnfiredTimersStayIff(st: State, fired: seq<int>, expired: set<int>, id: int)
    requires Valid(st) && IsFired(st, fired)
    ensures CanFire(st, fired)
    ensures var after := UpdateTimers(st, fired, expired).st;
            && (id in after.timers ==> id in st.timers && after.timers[id] == st.timers[id])
            && (id in after.timers <==> id in st.timers && id !in fired && Survives(st, id, after.Depth(), expired))
  {
    UpdateTimersExact(st, fired, expired);
    var f := Firing(WithoutTimers(st, fired), |st.scopes|, None);
    FireAllReleases(f, FiredBatch(st, fired), expired, id);
    assert id in f.st.timers <==> id in st.timers && id !in fired;
  }

  /** Between two states, a timer is left exactly if it survives the scopes that were ended. */
  ghost predicate TimerLeftIff(before: State, after: State, id: int, expired: set<int>) {
    && after.Depth() <= before.Depth()
    && (forall i :: 0 <= i < after.Depth() ==> after.scopes[i].timerId == before.scopes[i].timerId)
    && (id in after.timers ==> id in before.timers && after.timers[id] == before.timers[id])
    && (id in after.timers <==> id in before.timers && Survives(before, id, after.Depth(), expired))
  }

  lemma {:induction false} TimerLeftTwice(a: State, b: State, c: State, id: int, expired: set<int>)
    requires TimerLeftIff(a, b, id, expired) && TimerLeftIff(b, c, id, expired)
    ensures TimerLeftIff(a, c, id, expired)
  {
    assert forall i :: c.Depth() <= i < b.Depth() ==> b.scopes[i].timerId == a.scopes[i].timerId;
  }

  lemma {:induction false} UnwindReleases(st: State, target: int, expired: set<int>, id: int)
    requires CanUnwind(st, target) && (id in st.timers ==> st.timers[id].id == id)
    ensures TimerLeftIff(st, Unwind(st, target, expired), id, expired)
    decreases |st.scopes|
  {
    if target < |st.scopes| {
      var next := Exit(st, expired, true).st;
      assert TimerLeftIff(st, next, id, expired);
      UnwindReleases(next, target, expired, id);
      TimerLeftTwice(st, next, Unwind(st, target, expired), id, expired);
    }
  }

  lemma {:induction false} FireOneReleases(st: State, t: Timer, expired: set<int>, id: int)
    requires (t.kind == Stop ==> CanUnwind(st, t.scopeid)) && (id in st.timers ==> st.timers[id].id == id)
    ensures TimerLeftIff(st, FireOne(st, t, expired), id, expired)
  {
    RaiseFlagKeepsFrames(st, t);
    var raised := RaiseFlag(st, t);
    assert TimerLeftIff(st, raised, id, expired);
    if t.kind == Stop {
      UnwindReleases(raised, t.scopeid, expired, id);
      TimerLeftTwice(st, raised, FireOne(st, t, expired), id, expired);
    }
  }

  lemma {:induction false} FireAllReleases(f: Firing, batch: seq<Timer>, expired: set<int>, id: int)
    requires Unwindable(f.st, batch) && (id in f.st.timers ==> f.st.timers[id].id == id)
    ensures TimerLeftIff(f.st, FireAll(f, batch, expired).st, id, expired)
    decreases batch
  {
    if batch != [] {
      FireOneKeepsUnwindable(f.st, batch, expired);
      FireOneReleases(f.st, batch[0], expired, id);
      var g := FireNext(f, batch[0], expired);
      FireAllReleases(g, batch[1..], expired, id);
      TimerLeftTwice(f.st, g.st, FireAll(g, batch[1..], expired).st, id, expired);
    }
  }

  // -------------------------------------------------------------------- the life of a flag

  /** A flag that is bound is false. */
  predicate FalseIfBound(st: State, flag: string) {
    GetVariable(st, flag).Some? ==> ValueOf(st, flag) == Some(Bool(false))
  }

  /** The operation is not one that sets the flag: no assignment, no loop over it, no firing of a timer that has it. */
  ghost predicate LeavesFlag(st: State, op: Op, flag: string)
    requires Legal(st, op)
  {
    match op
    case SetVar(name, _) => name != flag
    case ShareVar(name, _) => name != flag
    case EnterNode(node) =>
      if Resumes(st, node) then st.Top().ctrl.value.loopVar != flag
      else IsLoop(node) ==> PushScope(st, node).Top().ctrl.value.loopVar != flag
    case EnterTimedNode(_, _) => true
    case ExitNode(_, _) => true
    case Tick(fired, _) => forall i :: 0 <= i < |fired| ==> st.timers[fired[i]].flag != flag
  }

  lemma {:induction false} LoopStepLeavesFlag(st: State, flag: string)
    requires Valid(st) && HasRange(st) && FalseIfBound(st, flag) && st.Top().ctrl.value.loopVar != flag
    ensures FalseIfBound(UpdateLoop(st), flag)
  {
    UpdateLoopKeepsOthers(st, flag);
  }

  lemma {:induction false} EnterLeavesFlag(st: State, node: RuleNode, flag: string)
    requires Valid(st) && FalseIfBound(st, flag) && Legal(st, EnterNode(node)) && LeavesFlag(st, EnterNode(node), flag)
    ensures FalseIfBound(Enter(st, node), flag)
  {
    if Resumes(st, node) {
      LoopStepLeavesFlag(st, flag);
    } else {
      var pushed := PushScope(st, node);
      assert pushed.scopes[..|pushed.scopes| - 1] == st.scopes;
      assert Holder(pushed.scopes, flag) == Holder(st.scopes, flag);
      assert FalseIfBound(pushed, flag);
      if IsLoop(node) {
        NewControlFlowRefs(st, node, map[], NO_TIMER);
        PushKeepsValid(st, Scope(map[], NO_TIMER, Some(NewControlFlow(st, node))));
        LoopStepLeavesFlag(pushed, flag);
      }
    }
  }

  lemma {:induction false} TickLeavesFlag(st: State, fired: seq<int>, expired: set<int>, flag: string)
    requires Valid(st) && IsFired(st, fired) && FalseIfBound(st, flag)
    requires forall i :: 0 <= i < |fired| ==> st.timers[fired[i]].flag != flag
    ensures CanFire(st, fired) && FalseIfBound(UpdateTimers(st, fired, expired).st, flag)
  {
    UpdateTimersKeepsOthers(st, fired, expired, flag);
    var after := UpdateTimers(st, fired, expired).st;
    var cut := Cut(st, after.Depth());
    UpdateTimersKeepsValid(st, fired, expired);
    if GetVariable(after, flag).Some? {
      assert ScopeRefsOk(after.scopes[Holder(after.scopes, flag).value], after.heap);
      var i := Holder(cut.scopes, flag).value;
      assert flag in st.scopes[i].vars;
      assert Holder(st.scopes, flag) == Some(i);
    }
  }

  lemma {:induction false} StepLeavesFlag(st: State, op: Op, flag: string)
    requires Valid(st) && Legal(st, op) && FalseIfBound(st, flag) && LeavesFlag(st, op, flag)
    ensures FalseIfBound(Apply(st, op), flag)
  {
    match op
    case SetVar(name, v) => SetVariableLookup(st, name, v, flag);
    case ShareVar(name, ref) => BindLookup(st, name, ref, flag);
    case EnterNode(node) => EnterLeavesFlag(st, node, flag);
    case EnterTimedNode(node, timer) => EnterTimedFlag(st, node, timer);
    case ExitNode(expired, force) =>
      if st.Depth() > 1 {
        ExitUnbinds(st, expired, force, flag);
      } else {
        ExitOfBase(st, expired, force);
      }
    case Tick(fired, expired) => TickLeavesFlag(st, fired, expired, flag);
  }

  ghost predicate RunLeavesFlag(st: State, ops: seq<Op>, flag: string)
    requires Valid(st)
    decreases ops
  {
    ops == [] ||
    (Legal(st, ops[0]) && LeavesFlag(st, ops[0], flag)
     && (ApplyKeepsValid(st, ops[0]); RunLeavesFlag(Apply(st, ops[0]), ops[1..], flag)))
  }

  lemma {:induction false} FlagStaysFalse(st: State, ops: seq<Op>, flag: string)
    requires Valid(st) && FalseIfBound(st, flag) && RunLeavesFlag(st, ops, flag)
    ensures LegalRun(st, ops) && Valid(Run(st, ops)) && FalseIfBound(Run(st, ops), flag)
    decreases ops
  {
    if ops != [] {
      ApplyKeepsValid(st, ops[0]);
      StepLeavesFlag(st, ops[0], flag);
      FlagStaysFalse(Apply(st, ops[0]), ops[1..], flag);
    }
  }

  /**
   The law of flags: from entering a node under a flagged timer on, whatever is run that does not
   set the flag itself, the flag is false as long as it is bound; and the batch in which a timer
   with that flag fires makes it true.
   */
  lemma {:induction false} FlagTellsFiring(st: State, node: RuleNode, timer: Timer, ops: seq<Op>, fired: seq<int>, k: nat, expired: set<int>)
    requires Valid(st) && HeaderBound(st, node) && timer.id != -1 && timer.flag != ""
    requires (EnterTimedKeepsValid(st, node, timer); RunLeavesFlag(EnterTimed(st, node, timer), ops, timer.flag))
    ensures var entered := (EnterTimedKeepsValid(st, node, timer); EnterTimed(st, node, timer));
            && ValueOf(entered, timer.flag) == Some(Bool(false))
            && LegalRun(entered, ops)
            && var now := Run(entered, ops);
               && Valid(now) && FalseIfBound(now, timer.flag)
               && (IsFired(now, fired) && k < |fired| && now.timers[fired[k]].flag == timer.flag ==>
                     CanFire(now, fired) && TrueIfBound(UpdateTimers(now, fired, expired).st, timer.flag))
  {
    EnterTimedKeepsValid(st, node, timer);
    EnterTimedFlag(st, node, timer);
    var entered := EnterTimed(st, node, timer);
    FlagStaysFalse(entered, ops, timer.flag);
    var now := Run(entered, ops);
    if IsFired(now, fired) && k < |fired| && now.timers[fired[k]].flag == timer.flag {
      UpdateTimersRaisesFlags(now, fired, expired, k);
    }
  }
}
