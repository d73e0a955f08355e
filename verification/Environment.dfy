/**
 The state of the EnvironmentManager of lib/variables/EnvironmentMgr.cpp and what each of its
 operations does to it: a stack of scopes with their variables and control flow, the running
 timers, and the shared objects that variables point to.

 The front of the C++ scope deque is the end of `scopes`, so that a timer's `scopeid` is the
 index of its scope.  Pointers are indices into `heap`: a loop and a variable can share the
 list the loop consumes.
 */
module Environment {
  import opened Wrappers
  import opened Values

  // -------------------------------------------------------------------- data

  datatype NodeType = For | Parallel | Other

  datatype LoopHeader = LoopHeader(variable: string, range: string)

  /** A rule node as the manager sees it; `id` is its identity, `body` its child under the key "true". */
  datatype RuleNode = RuleNode(id: nat, kind: NodeType, header: Option<LoopHeader>,
                               body: Option<RuleNode>, next: Option<RuleNode>)

  datatype TimerType = Pad | Stop | Regular

  datatype Timer = Timer(id: int, next: Option<RuleNode>, kind: TimerType, flag: string, scopeid: int) {
    predicate HasFlag() { flag != "" }
  }

  datatype ControlFlow = ControlFlow(node: RuleNode, loopVar: string, range: Option<Ref>, exiting: bool)

  /** Only the base scope has no control flow. */
  datatype Scope = Scope(vars: map<string, Ref>, timerId: int, ctrl: Option<ControlFlow>)

  const NO_TIMER := -1

  datatype State = State(scopes: seq<Scope>, timers: map<int, Timer>, heap: seq<Value>) {
    function Depth(): nat { |scopes| }

    function Top(): Scope
      requires scopes != []
    {
      scopes[|scopes| - 1]
    }

    function WithTop(s: Scope): State
      requires scopes != []
    {
      this.(scopes := scopes[..|scopes| - 1] + [s])
    }
  }

  const INITIAL := State([Scope(map[], NO_TIMER, None)], map[], [])

  // -------------------------------------------------------------------- variables

  /** The index of the innermost scope that binds a name. */
  function Holder(scopes: seq<Scope>, name: string): (r: Option<nat>)
    ensures r.Some? ==> r.value < |scopes| && name in scopes[r.value].vars
    ensures r.Some? ==> forall i :: r.value < i < |scopes| ==> name !in scopes[i].vars
    ensures r.None? ==> forall i :: 0 <= i < |scopes| ==> name !in scopes[i].vars
  {
    if scopes == [] then None
    else if name in scopes[|scopes| - 1].vars then Some(|scopes| - 1)
    else Holder(scopes[..|scopes| - 1], name)
  }

  function GetVariable(st: State, name: string): Option<Ref> {
    match Holder(st.scopes, name)
    case None => None
    case Some(i) => Some(st.scopes[i].vars[name])
  }

  /** Rebind a name where it is bound already, else bind it in the innermost scope. */
  function Bind(st: State, name: string, ref: Ref): State {
    if st.scopes == [] then st
    else
      var i := match Holder(st.scopes, name) case Some(i) => i case None => |st.scopes| - 1;
      st.(scopes := st.scopes[i := st.scopes[i].(vars := st.scopes[i].vars[name := ref])])
  }

  /** Bind a name to a new object holding a value. */
  function SetVariable(st: State, name: string, v: Value): State {
    Bind(st.(heap := st.heap + [v]), name, |st.heap|)
  }

  function ValueOf(st: State, name: string): Option<Value> {
    match GetVariable(st, name)
    case Some(ref) => if ref < |st.heap| then Some(st.heap[ref]) else None
    case None => None
  }

  // -------------------------------------------------------------------- entering scopes

  predicate IsLoop(node: RuleNode) { node.kind == For || node.kind == Parallel }

  /** A loop header names a bound variable. */
  predicate HeaderBound(st: State, node: RuleNode) {
    node.header.Some? ==> ValueOf(st, node.header.value.range).Some?
  }

  /** The control flow of a new scope; the range is shared with the variable, if that is a list. */
  function NewControlFlow(st: State, node: RuleNode): ControlFlow
    requires HeaderBound(st, node)
  {
    match node.header
    case None => ControlFlow(node, "", None, true)
    case Some(LoopHeader(variable, range)) =>
      var ref := GetVariable(st, range).value;
      ControlFlow(node, variable, if st.heap[ref].List? then Some(ref) else None, true)
  }

  function EnterTimed(st: State, node: RuleNode, timer: Timer): State
    requires HeaderBound(st, node)
  {
    var scope := Scope(map[], timer.id, Some(NewControlFlow(st, node)));
    var st1 := st.(timers := st.timers[timer.id := timer.(scopeid := |st.scopes|)]);
    var st2 := if timer.HasFlag() then SetVariable(st1, timer.flag, Bool(false)) else st1;
    st2.(scopes := st2.scopes + [scope])
  }

  /** The loop in the innermost scope has a list to consume. */
  predicate HasRange(st: State) {
    && st.scopes != [] && st.Top().ctrl.Some? && st.Top().ctrl.value.range.Some?
    && var r := st.Top().ctrl.value.range.value;
       r < |st.heap| && st.heap[r].List? && forall i :: 0 <= i < |st.heap[r].items| ==> st.heap[r].items[i] < |st.heap|
  }

  /** Take the next item off the range, copy it to the loop variable and note whether it was the last. */
  function UpdateLoop(st: State): State
    requires HasRange(st)
  {
    var ctrl := st.Top().ctrl.value;
    var r := ctrl.range.value;
    var items := st.heap[r].items;
    if items == [] then st
    else
      var st1 := SetVariable(st, ctrl.loopVar, st.heap[items[0]]);
      var st2 := st1.(heap := st1.heap[r := List(items[1..])]);
      st2.WithTop(st2.Top().(ctrl := Some(ctrl.(exiting := |items| == 1))))
  }

  function GetNext(node: RuleNode): Option<RuleNode> {
    if IsLoop(node) then node.body else None
  }

  predicate Resumes(st: State, node: RuleNode) {
    st.scopes != [] && st.Top().ctrl.Some? && st.Top().ctrl.value.node == node
  }

  function PushScope(st: State, node: RuleNode): State
    requires HeaderBound(st, node)
  {
    st.(scopes := st.scopes + [Scope(map[], NO_TIMER, Some(NewControlFlow(st, node)))])
  }

  /** Where the source does not dereference a null pointer. */
  predicate CanEnter(st: State, node: RuleNode) {
    if Resumes(st, node) then HasRange(st)
    else HeaderBound(st, node) && (IsLoop(node) ==> HasRange(PushScope(st, node)))
  }

  /** Enter a node: the scope it already has is taken to its next iteration, else it gets a new one. */
  function Enter(st: State, node: RuleNode): State
    requires CanEnter(st, node)
  {
    if Resumes(st, node) then UpdateLoop(st)
    else if IsLoop(node) then UpdateLoop(PushScope(st, node))
    else PushScope(st, node)
  }

  // -------------------------------------------------------------------- leaving scopes

  datatype ExitResult = GameOver | Exited(st: State, next: Option<RuleNode>, shouldBlock: bool)

  predicate PadRunning(t: Timer, expired: set<int>) { t.kind == Pad && t.id !in expired }

  /** The timers left when a scope with this timer id ends. */
  function ReleaseTimer(timers: map<int, Timer>, id: int, expired: set<int>): map<int, Timer> {
    if id in timers && !PadRunning(timers[id], expired) && !timers[id].HasFlag() then timers - {id} else timers
  }

  function Exit(st: State, expired: set<int>, force: bool): ExitResult {
    if st.scopes == [] then GameOver
    else
      var top := st.Top();
      var blocked := top.timerId in st.timers && PadRunning(st.timers[top.timerId], expired);
      var st1 := st.(timers := ReleaseTimer(st.timers, top.timerId, expired));
      match top.ctrl
      case None => Exited(st1, None, blocked)
      case Some(ctrl) =>
        if !force && !ctrl.exiting then Exited(st1.WithTop(top.(vars := map[])), Some(ctrl.node), blocked)
        else Exited(st1.(scopes := st.scopes[..|st.scopes| - 1]), ctrl.node.next, blocked)
  }

  // -------------------------------------------------------------------- timers

  /** All scopes from `target` on can be left by force. */
  predicate CanUnwind(st: State, target: int) {
    target >= 0 && forall i :: target <= i < |st.scopes| ==> st.scopes[i].ctrl.Some?
  }

  /** Leave scopes by force until `target` of them are left. */
  function Unwind(st: State, target: int, expired: set<int>): (r: State)
    requires CanUnwind(st, target)
    ensures r.heap == st.heap && r.timers.Keys <= st.timers.Keys
    ensures forall id :: id in r.timers ==> r.timers[id] == st.timers[id]
    ensures r.scopes == if target < |st.scopes| then st.scopes[..target] else st.scopes
    decreases |st.scopes|
  {
    if target >= |st.scopes| then st
    else
      var r := Unwind(Exit(st, expired, true).st, target, expired);
      assert st.scopes[..|st.scopes| - 1][..target] == st.scopes[..target];
      r
  }

  function RaiseFlag(st: State, t: Timer): State {
    if t.HasFlag() then SetVariable(st, t.flag, Bool(true)) else st
  }

  /** The stack after raising a flag can be unwound whenever it could before. */
  lemma {:induction false} RaiseFlagKeepsFrames(st: State, t: Timer)
    ensures |RaiseFlag(st, t).scopes| == |st.scopes|
    ensures forall i :: 0 <= i < |st.scopes| ==>
              RaiseFlag(st, t).scopes[i].ctrl == st.scopes[i].ctrl
              && RaiseFlag(st, t).scopes[i].timerId == st.scopes[i].timerId
  {
  }

  /** One timer goes off: its flag is raised, and a stop timer ends the scopes from its own on. */
  function FireOne(st: State, t: Timer, expired: set<int>): State
    requires t.kind == Stop ==> CanUnwind(st, t.scopeid)
  {
    RaiseFlagKeepsFrames(st, t);
    if t.kind == Stop then Unwind(RaiseFlag(st, t), t.scopeid, expired) else RaiseFlag(st, t)
  }

  /** The outcome of a batch of timers: the state, the shallowest depth reached and where to continue. */
  datatype Firing = Firing(st: State, lastExit: int, next: Option<RuleNode>)

  function FireNext(f: Firing, t: Timer, expired: set<int>): Firing
    requires t.kind == Stop ==> CanUnwind(f.st, t.scopeid)
  {
    var st := FireOne(f.st, t, expired);
    if t.kind == Stop && f.lastExit > t.scopeid then Firing(st, t.scopeid, t.next) else f.(st := st)
  }

  /** Stop timers leave the base scope alone, and every other scope can be left. */
  predicate Unwindable(st: State, batch: seq<Timer>) {
    && st.scopes != [] && (forall i :: 1 <= i < |st.scopes| ==> st.scopes[i].ctrl.Some?)
    && forall i :: 0 <= i < |batch| && batch[i].kind == Stop ==> batch[i].scopeid >= 1
  }

  lemma {:induction false} FireOneKeepsUnwindable(st: State, batch: seq<Timer>, expired: set<int>)
    requires batch != [] && Unwindable(st, batch)
    ensures batch[0].kind == Stop ==> CanUnwind(st, batch[0].scopeid)
    ensures Unwindable(FireOne(st, batch[0], expired), batch[1..])
  {
    RaiseFlagKeepsFrames(st, batch[0]);
  }

  function FireAll(f: Firing, batch: seq<Timer>, expired: set<int>): Firing
    requires Unwindable(f.st, batch)
    decreases batch
  {
    if batch == [] then f
    else
      FireOneKeepsUnwindable(f.st, batch, expired);
      FireAll(FireNext(f, batch[0], expired), batch[1..], expired)
  }

  /** Ids of running timers in the ascending order in which a std::map visits them. */
  predicate IsFired(st: State, fired: seq<int>) {
    && (forall i :: 0 <= i < |fired| ==> fired[i] in st.timers)
    && forall i, j :: 0 <= i < j < |fired| ==> fired[i] < fired[j]
  }

  function FiredBatch(st: State, fired: seq<int>): (b: seq<Timer>)
    requires IsFired(st, fired)
    ensures |b| == |fired| && forall i :: 0 <= i < |b| ==> b[i] == st.timers[fired[i]]
  {
    seq(|fired|, i requires 0 <= i < |fired| => st.timers[fired[i]])
  }

  function IdsOf(fired: seq<int>): set<int> { set id | id in fired }

  function WithoutTimers(st: State, fired: seq<int>): State {
    st.(timers := st.timers - IdsOf(fired))
  }

  predicate CanFire(st: State, fired: seq<int>) {
    IsFired(st, fired) && Unwindable(st, FiredBatch(st, fired))
  }

  /**
   Move the fired timers out of the map and let them go off in order.  The source moves every
   timer, so `fired` lists them all; any other choice is what its comment about expiry intends.
   */
  function UpdateTimers(st: State, fired: seq<int>, expired: set<int>): Firing
    requires CanFire(st, fired)
  {
    FireAll(Firing(WithoutTimers(st, fired), |st.scopes|, None), FiredBatch(st, fired), expired)
  }
}
