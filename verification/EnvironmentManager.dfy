/** The EnvironmentManager object: its fields, and methods that change them as `Environment` says. */
module EnvironmentManagerObject {
  import opened Wrappers
  import opened Values
  import opened Environment
  import opened EnvironmentInvariants

  class EnvironmentManager {
    var scopes: seq<Scope>
    var timers: map<int, Timer>
    var heap: seq<Value>

    function View(): State
      reads this
    {
      State(scopes, timers, heap)
    }

    constructor ()
      ensures View() == INITIAL && Valid(View())
    {
      scopes := [Scope(map[], NO_TIMER, None)];
      timers := map[];
      heap := [];
    }

    /** The innermost scope that binds a name. */
    method HasVar(name: string) returns (r: Option<nat>)
      ensures r == Holder(scopes, name)
    {
      var i: int := |scopes|;
      assert scopes[..i] == scopes;
      while i > 0
        invariant 0 <= i <= |scopes|
        invariant Holder(scopes, name) == Holder(scopes[..i], name)
      {
        i := i - 1;
        if name in scopes[i].vars {
          return Some(i);
        }
        assert scopes[..i + 1][..i] == scopes[..i];
      }
      r := None;
    }

    method GetVar(name: string) returns (r: Option<Ref>)
      ensures r == GetVariable(View(), name)
    {
      var i := HasVar(name);
      if i.None? {
        return None;
      }
      r := Some(scopes[i.value].vars[name]);
    }

    /** Bind a name to an existing object: the overload that takes a shared pointer. */
    method ShareVar(name: string, ref: Ref)
      requires Valid(View()) && ref < |heap|
      modifies this
      ensures Valid(View()) && View() == Bind(old(View()), name, ref)
    {
      BindKeepsValid(View(), name, ref);
      var holder := HasVar(name);
      var i := |scopes| - 1;
      if holder.Some? {
        i := holder.value;
      }
      scopes := scopes[i := scopes[i].(vars := scopes[i].vars[name := ref])];
    }

    method SetVar(name: string, v: Value)
      requires Valid(View()) && RefsBelow(v, |heap|)
      modifies this
      ensures Valid(View()) && View() == SetVariable(old(View()), name, v)
    {
      AllocKeepsValid(View(), v);
      heap := heap + [v];
      ShareVar(name, |heap| - 1);
    }

    /** The scope of a node under a timer. */
    method EnterTimedScope(node: RuleNode, timer: Timer)
      requires Valid(View()) && HeaderBound(View(), node) && timer.id != NO_TIMER
      modifies this
      ensures Valid(View()) && View() == EnterTimed(old(View()), node, timer)
    {
      EnterTimedKeepsValid(View(), node, timer);
      var newScope := Scope(map[], timer.id, Some(NewControlFlow(View(), node)));
      var scopeid := |scopes|;
      if timer.HasFlag() {
        SetVar(timer.flag, Bool(false));
      }
      timers := timers[timer.id := timer.(scopeid := scopeid)];
      scopes := scopes + [newScope];
    }

    /** Advance the innermost loop; returns the node to go to. */
    method UpdateInnermostLoop() returns (next: Option<RuleNode>)
      requires Valid(View()) && HasRange(View())
      modifies this
      ensures Valid(View()) && View() == UpdateLoop(old(View()))
      ensures next == GetNext(old(View()).Top().ctrl.value.node)
    {
      UpdateLoopKeepsValid(View());
      var top := |scopes| - 1;
      var ctrl := scopes[top].ctrl.value;
      var range := ctrl.range.value;
      if |heap[range].items| != 0 {
        ghost var before := View();
        var items := heap[range].items;
        assert RefsBelow(heap[range], |heap|) && RefsBelow(heap[items[0]], |heap|);
        BindKeepsFrames(before.(heap := heap + [heap[items[0]]]), ctrl.loopVar, |heap|);
        SetVar(ctrl.loopVar, heap[items[0]]);
        heap := heap[range := List(items[1..])];
        scopes := scopes[..top] + [scopes[top].(ctrl := Some(ctrl.(exiting := |heap[range].items| == 0)))];
      }
      next := GetNext(ctrl.node);
    }

    /** Enter a node; returns the node to go to. */
    method EnterScope(node: RuleNode) returns (next: Option<RuleNode>)
      requires Valid(View()) && CanEnter(View(), node)
      modifies this
      ensures Valid(View()) && View() == Enter(old(View()), node)
      ensures next == if node.kind == For || node.kind == Parallel then node.body else None
    {
      if scopes[|scopes| - 1].ctrl.Some? && scopes[|scopes| - 1].ctrl.value.node == node {
        next := UpdateInnermostLoop();
        return;
      }
      EnterKeepsValid(View(), node);
      NewControlFlowRefs(View(), node, map[], NO_TIMER);
      PushKeepsValid(View(), Scope(map[], NO_TIMER, Some(NewControlFlow(View(), node))));
      scopes := scopes + [Scope(map[], NO_TIMER, Some(NewControlFlow(View(), node)))];
      next := None;
      if IsLoop(node) {
        next := UpdateInnermostLoop();
      }
    }

    /** Leave the innermost scope; returns the node to go to and whether a running pad timer blocks. */
    method ExitScope(expired: set<int>, force: bool) returns (next: Option<RuleNode>, shouldBlock: bool)
      requires Valid(View())
      modifies this
      ensures Valid(View()) && Exit(old(View()), expired, force) == Exited(View(), next, shouldBlock)
    {
      ExitKeepsValid(View(), expired, force);
      shouldBlock := false;
      var toDelete := scopes[|scopes| - 1];
      if toDelete.timerId in timers {
        var timer := timers[toDelete.timerId];
        if timer.kind == Pad && timer.id !in expired {
          shouldBlock := true;
        } else if !timer.HasFlag() {
          timers := timers - {toDelete.timerId};
        }
      }
      if toDelete.ctrl.None? {
        return None, shouldBlock;
      }
      if !force && !toDelete.ctrl.value.exiting {
        scopes := scopes[..|scopes| - 1] + [toDelete.(vars := map[])];
        return Some(toDelete.ctrl.value.node), shouldBlock;
      }
      next := toDelete.ctrl.value.node.next;
      scopes := scopes[..|scopes| - 1];
    }

    /** Let the fired timers go off; returns the node to jump to, if any. */
    method UpdateTimers(fired: seq<int>, expired: set<int>) returns (next: Option<RuleNode>)
      requires Valid(View()) && IsFired(View(), fired)
      modifies this
      ensures CanFire(old(View()), fired) && Valid(View())
      ensures Environment.UpdateTimers(old(View()), fired, expired).st == View()
      ensures Environment.UpdateTimers(old(View()), fired, expired).next == next
    {
      ValidCanFire(View(), fired);
      ghost var start := View();
      var batch := FiredBatch(View(), fired);
      timers := timers - IdsOf(fired);
      assert Valid(View()) by {
        UnfiredStayOwned(start, fired);
      }
      var lastExit := |scopes|;
      next := None;
      var i := 0;
      while i < |batch|
        invariant 0 <= i <= |batch| && Valid(View()) && Unwindable(View(), batch[i..])
        invariant FireAll(Firing(View(), lastExit, next), batch[i..], expired)
                  == Environment.UpdateTimers(start, fired, expired)
      {
        var timer := batch[i];
        ghost var f := Firing(View(), lastExit, next);
        assert batch[i..][0] == timer && batch[i..][1..] == batch[i + 1..];
        FireOneKeepsUnwindable(View(), batch[i..], expired);
        FireOneKeepsValid(View(), timer, expired);
        if timer.HasFlag() {
          SetVar(timer.flag, Bool(true));
        }
        if timer.kind == Stop {
          UnwindScopes(timer.scopeid, expired);
          if lastExit > timer.scopeid {
            next := timer.next;
            lastExit := timer.scopeid;
          }
        }
        assert Firing(View(), lastExit, next) == FireNext(f, timer, expired);
        i := i + 1;
      }
    }

    /** The inner loop of the above: leave scopes by force until the timer's own is gone. */
    method UnwindScopes(scopeid: int, expired: set<int>)
      requires Valid(View()) && scopeid >= 1
      modifies this
      ensures CanUnwind(old(View()), scopeid) && Valid(View())
      ensures View() == Unwind(old(View()), scopeid, expired)
    {
      ghost var before := View();
      while scopeid < |scopes|
        invariant Valid(View()) && CanUnwind(View(), scopeid)
        invariant Unwind(View(), scopeid, expired) == Unwind(before, scopeid, expired)
        decreases |scopes|
      {
        var _, _ := ExitScope(expired, true);
      }
    }
  }
}
