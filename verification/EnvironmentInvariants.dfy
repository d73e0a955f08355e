/**
 What holds in every reachable state of the environment manager: the base scope stays, timers
 belong to scopes, names do not shadow each other, pointers point somewhere.
 */
module EnvironmentInvariants {
  import opened Wrappers
  import opened Values
  import opened Environment

  // -------------------------------------------------------------------- the invariant

  /** Exactly the base scope has no control flow. */
  predicate FramesOk(scopes: seq<Scope>) {
    && scopes != [] && scopes[0].ctrl.None? && scopes[0].timerId == NO_TIMER
    && forall i :: 1 <= i < |scopes| ==> scopes[i].ctrl.Some?
  }

  /** Each name is bound in at most one scope. */
  predicate NoShadowing(scopes: seq<Scope>) {
    forall i, j, name :: 0 <= i < j < |scopes| && name in scopes[i].vars ==> name !in scopes[j].vars
  }

  /** A timer without flag that does not block its scope's end is the timer of the scope at its index. */
  predicate Owned(t: Timer, scopes: seq<Scope>) {
    !t.HasFlag() && t.kind != Pad ==> 0 <= t.scopeid < |scopes| && scopes[t.scopeid].timerId == t.id
  }

  predicate TimersOk(timers: map<int, Timer>, scopes: seq<Scope>) {
    && NO_TIMER !in timers
    && forall id :: id in timers ==> timers[id].id == id && timers[id].scopeid >= 1 && Owned(timers[id], scopes)
  }

  predicate RefsBelow(v: Value, n: nat) {
    && (v.List? ==> forall i :: 0 <= i < |v.items| ==> v.items[i] < n)
    && (v.Map? ==> forall k :: k in v.entries ==> v.entries[k] < n)
    && (v.VarMap? ==> forall k :: k in v.fields ==> v.fields[k] < n)
    && (v.Pointer? ==> v.target < n)
  }

  predicate HeapOk(heap: seq<Value>) {
    forall i :: 0 <= i < |heap| ==> RefsBelow(heap[i], |heap|)
  }

  predicate ScopeRefsOk(s: Scope, heap: seq<Value>) {
    && (forall name :: name in s.vars ==> s.vars[name] < |heap|)
    && (s.ctrl.Some? && s.ctrl.value.range.Some? ==>
          s.ctrl.value.range.value < |heap| && heap[s.ctrl.value.range.value].List?)
  }

  predicate RefsOk(scopes: seq<Scope>, heap: seq<Value>) {
    HeapOk(heap) && forall i :: 0 <= i < |scopes| ==> ScopeRefsOk(scopes[i], heap)
  }

  predicate Valid(st: State) {
    && FramesOk(st.scopes)
    && NoShadowing(st.scopes)
    && TimersOk(st.timers, st.scopes)
    && RefsOk(st.scopes, st.heap)
  }

  // -------------------------------------------------------------------- operations and runs

  datatype Op =
    | SetVar(name: string, v: Value)
    | ShareVar(name: string, ref: Ref)
    | EnterNode(node: RuleNode)
    | EnterTimedNode(node: RuleNode, timer: Timer)
    | ExitNode(expired: set<int>, force: bool)
    | Tick(fired: seq<int>, stillExpired: set<int>)

  /** What the source asks of a caller: values and pointers that exist, real timer ids, no null dereference. */
  predicate Legal(st: State, op: Op) {
    match op
    case SetVar(_, v) => RefsBelow(v, |st.heap|)
    case ShareVar(_, ref) => ref < |st.heap|
    case EnterNode(node) => CanEnter(st, node)
    case EnterTimedNode(node, timer) => HeaderBound(st, node) && timer.id != NO_TIMER
    case ExitNode(_, _) => true
    case Tick(fired, _) => IsFired(st, fired)
  }

  /** The state after one operation; a thrown GameOverException leaves it alone. */
  function Apply(st: State, op: Op): State
    requires Valid(st) && Legal(st, op)
  {
    match op
    case SetVar(name, v) => SetVariable(st, name, v)
    case ShareVar(name, ref) => Bind(st, name, ref)
    case EnterNode(node) => Enter(st, node)
    case EnterTimedNode(node, timer) => EnterTimed(st, node, timer)
    case ExitNode(expired, force) =>
      (match Exit(st, expired, force)
       case GameOver => st
       case Exited(after, _, _) => after)
    case Tick(fired, stillExpired) => UpdateTimers(st, fired, stillExpired).st
  }

  // -------------------------------------------------------------------- variables

  lemma {:induction false} BindKeepsFrames(st: State, name: string, ref: Ref)
    ensures var st' := Bind(st, name, ref);
            && |st'.scopes| == |st.scopes| && st'.timers == st.timers && st'.heap == st.heap
            && forall i :: 0 <= i < |st.scopes| ==>
                 st'.scopes[i].ctrl == st.scopes[i].ctrl && st'.scopes[i].timerId == st.scopes[i].timerId
  {
  }

  lemma {:induction false} BindKeepsNoShadowing(st: State, name: string, ref: Ref)
    requires NoShadowing(st.scopes)
    ensures NoShadowing(Bind(st, name, ref).scopes)
  {
    var scopes, scopes' := st.scopes, Bind(st, name, ref).scopes;
    forall i, j, n | 0 <= i < j < |scopes'| && n in scopes'[i].vars
      ensures n !in scopes'[j].vars
    {
      assert n != name ==> (n in scopes[i].vars && (n in scopes'[j].vars <==> n in scopes[j].vars));
    }
  }

  lemma {:induction false} BindKeepsValid(st: State, name: string, ref: Ref)
    requires Valid(st) && ref < |st.heap|
    ensures Valid(Bind(st, name, ref))
  {
    BindKeepsFrames(st, name, ref);
    BindKeepsNoShadowing(st, name, ref);
    var scopes' := Bind(st, name, ref).scopes;
    forall i | 0 <= i < |scopes'|
      ensures ScopeRefsOk(scopes'[i], st.heap)
    {
      assert ScopeRefsOk(st.scopes[i], st.heap);
    }
    TimersFollowFrames(st.timers, st.scopes, scopes');
  }

  /** Ownership only looks at timer ids. */
  lemma {:induction false} TimersFollowFrames(timers: map<int, Timer>, scopes: seq<Scope>, scopes': seq<Scope>)
    requires TimersOk(timers, scopes) && |scopes| <= |scopes'|
    requires forall i :: 0 <= i < |scopes| ==> scopes'[i].timerId == scopes[i].timerId
    ensures TimersOk(timers, scopes')
  {
    forall id | id in timers
      ensures Owned(timers[id], scopes')
    {
      assert Owned(timers[id], scopes);
    }
  }

  lemma {:induction false} AllocKeepsValid(st: State, v: Value)
    requires Valid(st) && RefsBelow(v, |st.heap|)
    ensures Valid(st.(heap := st.heap + [v]))
  {
    var heap' := st.heap + [v];
    forall i | 0 <= i < |heap'|
      ensures RefsBelow(heap'[i], |heap'|)
    {
      assert i < |st.heap| ==> RefsBelow(st.heap[i], |st.heap|);
    }
    forall i | 0 <= i < |st.scopes|
      ensures ScopeRefsOk(st.scopes[i], heap')
    {
      assert ScopeRefsOk(st.scopes[i], st.heap);
    }
  }

  lemma {:induction false} SetVariableKeepsValid(st: State, name: string, v: Value)
    requires Valid(st) && RefsBelow(v, |st.heap|)
    ensures Valid(SetVariable(st, name, v))
  {
    AllocKeepsValid(st, v);
    BindKeepsValid(st.(heap := st.heap + [v]), name, |st.heap|);
  }

  // -------------------------------------------------------------------- entering

  lemma {:induction false} PushKeepsValid(st: State, scope: Scope)
    requires Valid(st) && scope.vars == map[] && scope.ctrl.Some? && ScopeRefsOk(scope, st.heap)
    ensures Valid(st.(scopes := st.scopes + [scope]))
  {
    TimersFollowFrames(st.timers, st.scopes, st.scopes + [scope]);
  }

  lemma {:induction false} NewControlFlowRefs(st: State, node: RuleNode, vars: map<string, Ref>, id: int)
    requires Valid(st) && HeaderBound(st, node) && vars == map[]
    ensures ScopeRefsOk(Scope(vars, id, Some(NewControlFlow(st, node))), st.heap)
  {
  }

  lemma {:induction false} UpdateLoopKeepsValid(st: State)
    requires Valid(st) && HasRange(st)
    ensures Valid(UpdateLoop(st)) && |UpdateLoop(st).scopes| == |st.scopes|
  {
    var ctrl := st.Top().ctrl.value;
    var r := ctrl.range.value;
    var items := st.heap[r].items;
    if items != [] {
      var v := st.heap[items[0]];
      assert RefsBelow(v, |st.heap|) && RefsBelow(st.heap[r], |st.heap|);
      SetVariableKeepsValid(st, ctrl.loopVar, v);
      var st1 := SetVariable(st, ctrl.loopVar, v);
      BindKeepsFrames(st.(heap := st.heap + [v]), ctrl.loopVar, |st.heap|);
      ShrinkKeepsValid(st1, r, items[1..]);
      var st2 := st1.(heap := st1.heap[r := List(items[1..])]);
      ExitingKeepsValid(st2, |items| == 1);
    }
  }

  lemma {:induction false} ShrinkKeepsValid(st: State, r: Ref, items: seq<Ref>)
    requires Valid(st) && r < |st.heap| && RefsBelow(List(items), |st.heap|)
    ensures Valid(st.(heap := st.heap[r := List(items)]))
  {
    var heap' := st.heap[r := List(items)];
    forall i | 0 <= i < |st.scopes|
      ensures ScopeRefsOk(st.scopes[i], heap')
    {
      assert ScopeRefsOk(st.scopes[i], st.heap);
    }
  }

  lemma {:induction false} ExitingKeepsValid(st: State, exiting: bool)
    requires Valid(st) && st.Top().ctrl.Some?
    ensures Valid(st.WithTop(st.Top().(ctrl := Some(st.Top().ctrl.value.(exiting := exiting)))))
  {
    var top := st.Top();
    var st' := st.WithTop(top.(ctrl := Some(top.ctrl.value.(exiting := exiting))));
    assert ScopeRefsOk(top, st.heap);
    TimersFollowFrames(st.timers, st.scopes, st'.scopes);
  }

  lemma {:induction false} EnterKeepsValid(st: State, node: RuleNode)
    requires Valid(st) && CanEnter(st, node)
    ensures Valid(Enter(st, node))
  {
    if Resumes(st, node) {
      UpdateLoopKeepsValid(st);
    } else {
      NewControlFlowRefs(st, node, map[], NO_TIMER);
      PushKeepsValid(st, Scope(map[], NO_TIMER, Some(NewControlFlow(st, node))));
      if IsLoop(node) {
        UpdateLoopKeepsValid(PushScope(st, node));
      }
    }
  }

  lemma {:induction false} EnterTimedKeepsValid(st: State, node: RuleNode, timer: Timer)
    requires Valid(st) && HeaderBound(st, node) && timer.id != NO_TIMER
    ensures Valid(EnterTimed(st, node, timer))
  {
    var scope := Scope(map[], timer.id, Some(NewControlFlow(st, node)));
    NewControlFlowRefs(st, node, map[], timer.id);
    var flagged := if timer.HasFlag() then SetVariable(st, timer.flag, Bool(false)) else st;
    if timer.HasFlag() {
      SetVariableKeepsValid(st, timer.flag, Bool(false));
      BindKeepsFrames(st.(heap := st.heap + [Bool(false)]), timer.flag, |st.heap|);
      assert ScopeRefsOk(scope, flagged.heap);
    }
    PushKeepsValid(flagged, scope);
    var entry := timer.(scopeid := |st.scopes|);
    var st' := EnterTimed(st, node, timer);
    assert st'.scopes == flagged.scopes + [scope] && st'.heap == flagged.heap;
    assert st'.timers == st.timers[timer.id := entry];
    forall id | id in st'.timers
      ensures st'.timers[id].id == id && st'.timers[id].scopeid >= 1 && Owned(st'.timers[id], st'.scopes)
    {
      if id != timer.id {
        assert Owned(st.timers[id], flagged.scopes + [scope]);
      }
    }
  }

  // -------------------------------------------------------------------- leaving

  lemma {:induction false} PopKeepsValid(st: State, timers': map<int, Timer>)
    requires Valid(st) && |st.scopes| > 1
    requires timers'.Keys <= st.timers.Keys && forall id :: id in timers' ==> timers'[id] == st.timers[id]
    requires forall id :: id in timers' && id == st.Top().timerId ==> timers'[id].kind == Pad || timers'[id].HasFlag()
    ensures Valid(st.(scopes := st.scopes[..|st.scopes| - 1], timers := timers'))
  {
    var scopes' := st.scopes[..|st.scopes| - 1];
    forall id | id in timers'
      ensures Owned(timers'[id], scopes')
    {
      assert Owned(st.timers[id], st.scopes);
    }
  }

  /** Leaving a scope keeps the invariant, always succeeds, and ends nothing but the innermost scope. */
  lemma {:induction false} ExitKeepsValid(st: State, expired: set<int>, force: bool)
    requires Valid(st)
    ensures Exit(st, expired, force).Exited? && Valid(Exit(st, expired, force).st)
    ensures |st.scopes| - 1 <= |Exit(st, expired, force).st.scopes|
    ensures forall i :: 0 <= i < |st.scopes| - 1 ==> Exit(st, expired, force).st.scopes[i] == st.scopes[i]
  {
    var top := st.Top();
    var st1 := st.(timers := ReleaseTimer(st.timers, top.timerId, expired));
    forall id | id in st1.timers
      ensures Owned(st1.timers[id], st.scopes)
    {
      assert Owned(st.timers[id], st.scopes);
    }
    if top.ctrl.Some? {
      if !force && !top.ctrl.value.exiting {
        var scopes' := st1.WithTop(top.(vars := map[])).scopes;
        assert ScopeRefsOk(top, st.heap);
        TimersFollowFrames(st1.timers, st1.scopes, scopes');
      } else {
        PopKeepsValid(st, st1.timers);
      }
    }
  }

  // -------------------------------------------------------------------- timers

  lemma {:induction false} UnwindKeepsValid(st: State, target: int, expired: set<int>)
    requires Valid(st) && target >= 1 && CanUnwind(st, target)
    ensures Valid(Unwind(st, target, expired))
    decreases |st.scopes|
  {
    if target < |st.scopes| {
      ExitKeepsValid(st, expired, true);
      UnwindKeepsValid(Exit(st, expired, true).st, target, expired);
    }
  }

  lemma {:induction false} FireOneKeepsValid(st: State, t: Timer, expired: set<int>)
    requires Valid(st) && (t.kind == Stop ==> t.scopeid >= 1)
    ensures t.kind == Stop ==> CanUnwind(st, t.scopeid)
    ensures Valid(FireOne(st, t, expired))
  {
    RaiseFlagKeepsFrames(st, t);
    if t.HasFlag() {
      SetVariableKeepsValid(st, t.flag, Bool(true));
    }
    if t.kind == Stop {
      UnwindKeepsValid(RaiseFlag(st, t), t.scopeid, expired);
    }
  }

  lemma {:induction false} FireAllKeepsValid(f: Firing, batch: seq<Timer>, expired: set<int>)
    requires Valid(f.st) && Unwindable(f.st, batch)
    ensures Valid(FireAll(f, batch, expired).st)
    decreases batch
  {
    if batch != [] {
      FireOneKeepsUnwindable(f.st, batch, expired);
      FireOneKeepsValid(f.st, batch[0], expired);
      FireAllKeepsValid(FireNext(f, batch[0], expired), batch[1..], expired);
    }
  }

  /** Timers can always be fired from a valid state, so the unwinding loop always ends. */
  lemma {:induction false} ValidCanFire(st: State, fired: seq<int>)
    requires Valid(st) && IsFired(st, fired)
    ensures CanFire(st, fired)
  {
  }

  lemma {:induction false} UnfiredStayOwned(st: State, fired: seq<int>)
    requires Valid(st)
    ensures Valid(WithoutTimers(st, fired))
  {
    forall id | id in WithoutTimers(st, fired).timers
      ensures Owned(WithoutTimers(st, fired).timers[id], st.scopes)
    {
      assert Owned(st.timers[id], st.scopes);
    }
  }

  lemma {:induction false} UpdateTimersKeepsValid(st: State, fired: seq<int>, expired: set<int>)
    requires Valid(st) && IsFired(st, fired)
    ensures CanFire(st, fired) && Valid(UpdateTimers(st, fired, expired).st)
  {
    ValidCanFire(st, fired);
    UnfiredStayOwned(st, fired);
    FireAllKeepsValid(Firing(WithoutTimers(st, fired), |st.scopes|, None), FiredBatch(st, fired), expired);
  }

  // -------------------------------------------------------------------- every run

  lemma {:induction false} ApplyKeepsValid(st: State, op: Op)
    requires Valid(st) && Legal(st, op)
    ensures Valid(Apply(st, op))
  {
    match op
    case SetVar(name, v) => SetVariableKeepsValid(st, name, v);
    case ShareVar(name, ref) => BindKeepsValid(st, name, ref);
    case EnterNode(node) => EnterKeepsValid(st, node);
    case EnterTimedNode(node, timer) => EnterTimedKeepsValid(st, node, timer);
    case ExitNode(expired, force) => ExitKeepsValid(st, expired, force);
    case Tick(fired, stillExpired) => UpdateTimersKeepsValid(st, fired, stillExpired);
  }

  ghost predicate LegalRun(st: State, ops: seq<Op>)
    requires Valid(st)
    decreases ops
  {
    ops == [] ||
    (Legal(st, ops[0]) && (ApplyKeepsValid(st, ops[0]); LegalRun(Apply(st, ops[0]), ops[1..])))
  }

  ghost function Run(st: State, ops: seq<Op>): State
    requires Valid(st) && LegalRun(st, ops)
    decreases ops
  {
    if ops == [] then st
    else
      ApplyKeepsValid(st, ops[0]);
      Run(Apply(st, ops[0]), ops[1..])
  }

  lemma {:induction false} RunCons(st: State, op: Op, ops: seq<Op>)
    requires Valid(st) && Legal(st, op)
    ensures Valid(Apply(st, op))
    ensures LegalRun(st, [op] + ops) <==> LegalRun(Apply(st, op), ops)
    ensures LegalRun(Apply(st, op), ops) ==> Run(st, [op] + ops) == Run(Apply(st, op), ops)
  {
    ApplyKeepsValid(st, op);
    assert ([op] + ops)[1..] == ops;
  }

  /** The invariant holds in every reachable state. */
  lemma {:induction false} RunKeepsValid(st: State, ops: seq<Op>)
    requires Valid(st) && LegalRun(st, ops)
    ensures Valid(Run(st, ops))
    decreases ops
  {
    if ops != [] {
      ApplyKeepsValid(st, ops[0]);
      RunKeepsValid(Apply(st, ops[0]), ops[1..]);
    }
  }

  lemma {:induction false} InitialIsValid()
    ensures Valid(INITIAL)
  {
  }

  /** The base scope is never removed: no run of exits empties the stack or ends the game. */
  lemma {:induction false} BaseScopeStays(ops: seq<Op>, expired: set<int>, force: bool)
    requires (InitialIsValid(); LegalRun(INITIAL, ops))
    ensures var st := Run(INITIAL, ops);
            && st.Depth() >= 1 && st.scopes[0].ctrl.None?
            && !Exit(st, expired, force).GameOver?
            && forall id :: id in st.timers ==> st.timers[id].scopeid >= 1
  {
    RunKeepsValid(INITIAL, ops);
    ExitKeepsValid(Run(INITIAL, ops), expired, force);
  }

  // -------------------------------------------------------------------- the stack as one flat map

  /** All bindings in one map, an outer scope winning over an inner one. */
  function Flat(scopes: seq<Scope>): map<string, Ref> {
    if scopes == [] then map[] else scopes[|scopes| - 1].vars + Flat(scopes[..|scopes| - 1])
  }

  lemma {:induction false} FlatBinds(scopes: seq<Scope>, name: string)
    requires NoShadowing(scopes)
    ensures Holder(scopes, name).Some? <==> name in Flat(scopes)
    ensures Holder(scopes, name).Some? ==> Flat(scopes)[name] == scopes[Holder(scopes, name).value].vars[name]
  {
    if scopes != [] {
      var outer := scopes[..|scopes| - 1];
      FlatBinds(outer, name);
    }
  }

  /** Without shadowing, searching from the innermost scope outwards finds what the flat map says. */
  lemma {:induction false} LookupIsFlat(st: State, name: string)
    requires Valid(st)
    ensures GetVariable(st, name) == if name in Flat(st.scopes) then Some(Flat(st.scopes)[name]) else None
  {
    FlatBinds(st.scopes, name);
  }

  lemma {:induction false} BindLookup(st: State, name: string, ref: Ref, other: string)
    requires st.scopes != [] && NoShadowing(st.scopes)
    ensures GetVariable(Bind(st, name, ref), other) == if other == name then Some(ref) else GetVariable(st, other)
  {
    BindKeepsNoShadowing(st, name, ref);
    var i := match Holder(st.scopes, name) case Some(i) => i case None => |st.scopes| - 1;
    var scopes' := Bind(st, name, ref).scopes;
    assert name in scopes'[i].vars;
    if other != name {
      assert forall k :: 0 <= k < |scopes'| ==> (other in scopes'[k].vars <==> other in st.scopes[k].vars);
    }
  }

  lemma {:induction false} SetVariableLookup(st: State, name: string, v: Value, other: string)
    requires Valid(st)
    ensures GetVariable(SetVariable(st, name, v), other) == if other == name then Some(|st.heap|) else GetVariable(st, other)
    ensures ValueOf(SetVariable(st, name, v), other) == if other == name then Some(v) else ValueOf(st, other)
  {
    var st1 := st.(heap := st.heap + [v]);
    BindLookup(st1, name, |st.heap|, other);
    BindKeepsFrames(st1, name, |st.heap|);
    if GetVariable(st, other).Some? {
      assert ScopeRefsOk(st.scopes[Holder(st.scopes, other).value], st.heap);
    }
  }

  lemma {:induction false} SetVariableFlat(st: State, name: string, v: Value, other: string)
    requires Valid(st)
    ensures var flat, flat' := Flat(st.scopes), Flat(SetVariable(st, name, v).scopes);
            && (other in flat' <==> other == name || other in flat)
            && (other in flat' ==> flat'[other] == if other == name then |st.heap| else flat[other])
  {
    SetVariableLookup(st, name, v, other);
    BindKeepsNoShadowing(st.(heap := st.heap + [v]), name, |st.heap|);
    FlatBinds(st.scopes, other);
    FlatBinds(SetVariable(st, name, v).scopes, other);
  }

  /** Setting a variable changes the flat map, and the values seen through it, at exactly one name. */
  lemma {:induction false} SetVariableIsUpdate(st: State, name: string, v: Value)
    requires Valid(st)
    ensures Flat(SetVariable(st, name, v).scopes) == Flat(st.scopes)[name := |st.heap|]
    ensures forall other :: ValueOf(SetVariable(st, name, v), other) == if other == name then Some(v) else ValueOf(st, other)
  {
    var flat, flat' := Flat(st.scopes), Flat(SetVariable(st, name, v).scopes);
    forall other
      ensures other in flat' <==> other == name || other in flat
      ensures other in flat' ==> flat'[other] == if other == name then |st.heap| else flat[other]
    {
      SetVariableFlat(st, name, v, other);
    }
    assert flat' == flat[name := |st.heap|];
    forall other
      ensures ValueOf(SetVariable(st, name, v), other) == if other == name then Some(v) else ValueOf(st, other)
    {
      SetVariableLookup(st, name, v, other);
    }
  }
}
