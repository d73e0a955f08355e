/**
 What a batch of timers does as a whole (EnvironmentManager::updateTimers): how far it unwinds
 the scopes, where it continues, and what it leaves in the variables.
 */
module EnvironmentTimers {
  import opened Wrappers
  import opened Values
  import opened Environment
  import opened EnvironmentInvariants

  // -------------------------------------------------------------------- depth and continuation

  /** In a batch that ended at `depth`, the first stop timer for that depth says where to continue. */
  ghost predicate FirstAt(batch: seq<Timer>, i: int, depth: int, next: Option<RuleNode>) {
    && 0 <= i < |batch| && batch[i].kind == Stop && batch[i].scopeid == depth && batch[i].next == next
    && forall j :: 0 <= j < i && batch[j].kind == Stop ==> batch[j].scopeid > depth
  }

  /** The depth is the least of the start and the stop timers' scopes; `next` comes from the first to reach it. */
  ghost predicate Settled(start: int, next0: Option<RuleNode>, batch: seq<Timer>, f: Firing) {
    && f.lastExit == |f.st.scopes| <= start
    && (forall i :: 0 <= i < |batch| && batch[i].kind == Stop ==> f.lastExit <= batch[i].scopeid)
    && (if f.lastExit == start then f.next == next0
        else exists i :: FirstAt(batch, i, f.lastExit, f.next))
  }

  lemma {:induction false} FireNextSettles(f: Firing, t: Timer, expired: set<int>)
    requires f.st.scopes != [] && f.lastExit == |f.st.scopes|
    requires t.kind == Stop ==> CanUnwind(f.st, t.scopeid)
    ensures Settled(f.lastExit, f.next, [t], FireNext(f, t, expired))
  {
    RaiseFlagKeepsFrames(f.st, t);
    var g := FireNext(f, t, expired);
    if g.lastExit < f.lastExit {
      assert FirstAt([t], 0, g.lastExit, g.next);
    }
  }

  lemma {:induction false} FireAllSettles(f: Firing, batch: seq<Timer>, expired: set<int>)
    requires Unwindable(f.st, batch) && f.lastExit == |f.st.scopes|
    ensures Settled(f.lastExit, f.next, batch, FireAll(f, batch, expired))
    decreases batch
  {
    if batch != [] {
      FireOneKeepsUnwindable(f.st, batch, expired);
      FireNextSettles(f, batch[0], expired);
      var g := FireNext(f, batch[0], expired);
      var r := FireAll(g, batch[1..], expired);
      FireAllSettles(g, batch[1..], expired);
      SettledTwice(f, batch, g, r);
    }
  }

  lemma {:induction false} SettledTwice(f: Firing, batch: seq<Timer>, g: Firing, r: Firing)
    requires batch != []
    requires Settled(f.lastExit, f.next, [batch[0]], g) && Settled(g.lastExit, g.next, batch[1..], r)
    ensures Settled(f.lastExit, f.next, batch, r)
  {
    forall i | 0 <= i < |batch| && batch[i].kind == Stop
      ensures r.lastExit <= batch[i].scopeid
    {
      if i == 0 {
        assert [batch[0]][0].scopeid >= g.lastExit;
      } else {
        assert batch[1..][i - 1].scopeid >= r.lastExit;
      }
    }
    if r.lastExit < g.lastExit {
      var i :| FirstAt(batch[1..], i, r.lastExit, r.next);
      assert FirstAt(batch, i + 1, r.lastExit, r.next) by {
        assert forall j :: 1 <= j < i + 1 ==> batch[j] == batch[1..][j - 1];
        assert batch[0].kind == Stop ==> [batch[0]][0].scopeid >= g.lastExit;
      }
    } else if g.lastExit < f.lastExit {
      var i :| FirstAt([batch[0]], i, g.lastExit, g.next);
      assert FirstAt(batch, 0, r.lastExit, r.next);
    }
  }

  /** Among the fired stop timers for `depth`, the one with the least id continues at `next`. */
  ghost predicate Decides(st: State, fired: seq<int>, i: int, depth: int, next: Option<RuleNode>)
    requires IsFired(st, fired)
  {
    && 0 <= i < |fired|
    && st.timers[fired[i]].kind == Stop && st.timers[fired[i]].scopeid == depth && st.timers[fired[i]].next == next
    && forall j :: 0 <= j < |fired| && st.timers[fired[j]].kind == Stop && st.timers[fired[j]].scopeid == depth ==>
         fired[i] <= fired[j]
  }

  /**
   updateTimers unwinds to the least scope of the fired stop timers, if that is on the stack, and
   continues where the timer with that scope says, the least id deciding between several.
   */
  lemma {:induction false} UpdateTimersExact(st: State, fired: seq<int>, expired: set<int>)
    requires Valid(st) && IsFired(st, fired)
    ensures CanFire(st, fired)
    ensures var r := UpdateTimers(st, fired, expired);
            && r.st.Depth() <= st.Depth()
            && (forall i :: 0 <= i < |fired| && st.timers[fired[i]].kind == Stop ==>
                  r.st.Depth() <= st.timers[fired[i]].scopeid)
            && (if r.st.Depth() == st.Depth() then r.next == None
                else exists i :: Decides(st, fired, i, r.st.Depth(), r.next))
  {
    ValidCanFire(st, fired);
    var batch := FiredBatch(st, fired);
    var f := Firing(WithoutTimers(st, fired), |st.scopes|, None);
    FireAllSettles(f, batch, expired);
    var r := UpdateTimers(st, fired, expired);
    forall i | 0 <= i < |fired| && st.timers[fired[i]].kind == Stop
      ensures r.st.Depth() <= st.timers[fired[i]].scopeid
    {
      assert batch[i] == st.timers[fired[i]];
    }
    if r.lastExit < |st.scopes| {
      var i :| FirstAt(batch, i, r.lastExit, r.next);
      forall j | 0 <= j < |fired| && st.timers[fired[j]].kind == Stop && st.timers[fired[j]].scopeid == r.lastExit
        ensures fired[i] <= fired[j]
      {
        assert batch[j] == st.timers[fired[j]];
      }
      assert Decides(st, fired, i, r.st.Depth(), r.next);
    }
  }

  // -------------------------------------------------------------------- variables

  /** The state with only its outermost scopes. */
  function Cut(st: State, depth: nat): State
    requires depth <= |st.scopes|
  {
    st.(scopes := st.scopes[..depth])
  }

  /** Two stacks bind a name alike. */
  predicate SameBinding(a: seq<Scope>, b: seq<Scope>, name: string) {
    && |a| == |b|
    && forall i :: 0 <= i < |a| ==>
         (name in a[i].vars <==> name in b[i].vars) && (name in a[i].vars ==> a[i].vars[name] == b[i].vars[name])
  }

  lemma {:induction false} SameBindingSameVariable(a: State, b: State, name: string)
    requires SameBinding(a.scopes, b.scopes, name)
    ensures GetVariable(a, name) == GetVariable(b, name)
  {
    var i, j := Holder(a.scopes, name), Holder(b.scopes, name);
    if i.Some? {
      assert name in b.scopes[i.value].vars;
    }
    if j.Some? {
      assert name in a.scopes[j.value].vars;
    }
  }

  /** `old` and `now` agree on a name in the scopes that are left, and no old object has changed. */
  predicate Untouched(before: State, now: State, name: string) {
    && |now.scopes| <= |before.scopes| && before.heap <= now.heap
    && SameBinding(before.scopes[..|now.scopes|], now.scopes, name)
  }

  lemma {:induction false} UnwindTouchesNothing(st: State, target: int, expired: set<int>, name: string)
    requires CanUnwind(st, target)
    ensures Untouched(st, Unwind(st, target, expired), name)
  {
  }

  lemma {:induction false} RaiseFlagTouchesFlag(st: State, t: Timer, name: string)
    requires t.flag != name
    ensures Untouched(st, RaiseFlag(st, t), name)
  {
  }

  lemma {:induction false} UntouchedTwice(a: State, b: State, c: State, name: string)
    requires Untouched(a, b, name) && Untouched(b, c, name)
    ensures Untouched(a, c, name)
  {
    var n := |c.scopes|;
    assert b.scopes[..n] == b.scopes[..n];
    forall i | 0 <= i < n
      ensures name in a.scopes[..n][i].vars <==> name in c.scopes[i].vars
      ensures name in a.scopes[..n][i].vars ==> a.scopes[..n][i].vars[name] == c.scopes[i].vars[name]
    {
      assert a.scopes[..|b.scopes|][i] == a.scopes[i] && b.scopes[..n][i] == b.scopes[i];
    }
  }

  lemma {:induction false} FireAllTouchesFlags(f: Firing, batch: seq<Timer>, expired: set<int>, name: string)
    requires Unwindable(f.st, batch)
    requires forall i :: 0 <= i < |batch| ==> batch[i].flag != name
    ensures Untouched(f.st, FireAll(f, batch, expired).st, name)
    decreases batch
  {
    if batch != [] {
      var t := batch[0];
      FireOneKeepsUnwindable(f.st, batch, expired);
      RaiseFlagKeepsFrames(f.st, t);
      RaiseFlagTouchesFlag(f.st, t, name);
      if t.kind == Stop {
        UnwindTouchesNothing(RaiseFlag(f.st, t), t.scopeid, expired, name);
        UntouchedTwice(f.st, RaiseFlag(f.st, t), FireOne(f.st, t, expired), name);
      }
      var g := FireNext(f, t, expired);
      FireAllTouchesFlags(g, batch[1..], expired, name);
      UntouchedTwice(f.st, g.st, FireAll(g, batch[1..], expired).st, name);
    }
  }

  /** A variable that is no fired flag keeps the value it has in the scopes that are left. */
  lemma {:induction false} UpdateTimersKeepsOthers(st: State, fired: seq<int>, expired: set<int>, name: string)
    requires Valid(st) && IsFired(st, fired)
    requires forall i :: 0 <= i < |fired| ==> st.timers[fired[i]].flag != name
    ensures CanFire(st, fired)
    ensures var st' := UpdateTimers(st, fired, expired).st;
            st'.Depth() <= st.Depth() && ValueOf(st', name) == ValueOf(Cut(st, st'.Depth()), name)
  {
    UpdateTimersExact(st, fired, expired);
    var st' := UpdateTimers(st, fired, expired).st;
    FireAllTouchesFlags(Firing(WithoutTimers(st, fired), |st.scopes|, None), FiredBatch(st, fired), expired, name);
    var cut := Cut(st, st'.Depth());
    SameBindingSameVariable(cut, st', name);
    if GetVariable(cut, name).Some? {
      var i := Holder(cut.scopes, name).value;
      assert ScopeRefsOk(st.scopes[i], st.heap) && cut.scopes[i] == st.scopes[i];
    }
  }

  /** A flag that is bound at all is true. */
  predicate TrueIfBound(st: State, name: string) {
    GetVariable(st, name).Some? ==> ValueOf(st, name) == Some(Bool(true))
  }

  lemma {:induction false} UnwindKeepsTrue(st: State, target: int, expired: set<int>, name: string)
    requires Valid(st) && target >= 1 && CanUnwind(st, target) && TrueIfBound(st, name)
    ensures TrueIfBound(Unwind(st, target, expired), name)
  {
    var st' := Unwind(st, target, expired);
    LookupIsFlat(st, name);
    var i := Holder(st'.scopes, name);
    if i.Some? {
      assert st'.scopes[i.value] == st.scopes[i.value];
      assert Holder(st.scopes, name) == Some(i.value);
    }
  }

  lemma {:induction false} FireOneKeepsTrue(st: State, t: Timer, expired: set<int>, name: string)
    requires Valid(st) && (t.kind == Stop ==> t.scopeid >= 1)
    requires TrueIfBound(st, name) || (t.HasFlag() && t.flag == name)
    ensures (t.kind == Stop ==> CanUnwind(st, t.scopeid)) && TrueIfBound(FireOne(st, t, expired), name)
  {
    FireOneKeepsValid(st, t, expired);
    RaiseFlagKeepsFrames(st, t);
    if t.HasFlag() {
      SetVariableLookup(st, t.flag, Bool(true), name);
      SetVariableKeepsValid(st, t.flag, Bool(true));
    }
    if t.kind == Stop {
      UnwindKeepsTrue(RaiseFlag(st, t), t.scopeid, expired, name);
    }
  }

  lemma {:induction false} FireAllRaises(f: Firing, batch: seq<Timer>, expired: set<int>, name: string)
    requires Valid(f.st) && Unwindable(f.st, batch) && name != ""
    requires TrueIfBound(f.st, name) || exists i :: 0 <= i < |batch| && batch[i].flag == name
    ensures TrueIfBound(FireAll(f, batch, expired).st, name)
    decreases batch
  {
    if batch != [] {
      FireOneKeepsUnwindable(f.st, batch, expired);
      FireOneKeepsValid(f.st, batch[0], expired);
      var g := FireNext(f, batch[0], expired);
      if TrueIfBound(f.st, name) || batch[0].flag == name {
        FireOneKeepsTrue(f.st, batch[0], expired, name);
      } else {
        var i :| 0 <= i < |batch| && batch[i].flag == name;
        assert batch[1..][i - 1].flag == name;
      }
      FireAllRaises(g, batch[1..], expired, name);
    }
  }

  /** A name bound in a scope that is left stays bound. */
  predicate StaysBound(before: State, now: State, name: string) {
    |now.scopes| <= |before.scopes|
    && forall i :: 0 <= i < |now.scopes| && name in before.scopes[i].vars ==> name in now.scopes[i].vars
  }

  lemma {:induction false} FireAllKeepsBound(f: Firing, batch: seq<Timer>, expired: set<int>, name: string)
    requires Unwindable(f.st, batch)
    ensures StaysBound(f.st, FireAll(f, batch, expired).st, name)
    decreases batch
  {
    if batch != [] {
      FireOneKeepsUnwindable(f.st, batch, expired);
      RaiseFlagKeepsFrames(f.st, batch[0]);
      assert StaysBound(f.st, RaiseFlag(f.st, batch[0]), name);
      FireAllKeepsBound(FireNext(f, batch[0], expired), batch[1..], expired, name);
    }
  }

  /** The flag of a fired timer is true afterwards wherever it is bound, and it is bound if its scope is left. */
  lemma {:induction false} UpdateTimersRaisesFlags(st: State, fired: seq<int>, expired: set<int>, k: nat)
    requires Valid(st) && IsFired(st, fired) && k < |fired| && st.timers[fired[k]].HasFlag()
    ensures CanFire(st, fired)
    ensures var st' := UpdateTimers(st, fired, expired).st;
            var flag := st.timers[fired[k]].flag;
            && TrueIfBound(st', flag) && st'.Depth() <= st.Depth()
            && (GetVariable(Cut(st, st'.Depth()), flag).Some? ==> ValueOf(st', flag) == Some(Bool(true)))
  {
    UpdateTimersExact(st, fired, expired);
    var f := Firing(WithoutTimers(st, fired), |st.scopes|, None);
    var batch := FiredBatch(st, fired);
    var flag := st.timers[fired[k]].flag;
    UnfiredStayOwned(st, fired);
    assert batch[k].flag == flag;
    FireAllRaises(f, batch, expired, flag);
    FireAllKeepsBound(f, batch, expired, flag);
    var st' := UpdateTimers(st, fired, expired).st;
    var i := Holder(Cut(st, st'.Depth()).scopes, flag);
    if i.Some? {
      assert flag in st'.scopes[i.value].vars;
    }
  }

  lemma {:induction false} FireAllAddsNoTimer(f: Firing, batch: seq<Timer>, expired: set<int>)
    requires Unwindable(f.st, batch)
    ensures FireAll(f, batch, expired).st.timers.Keys <= f.st.timers.Keys
    decreases batch
  {
    if batch != [] {
      FireOneKeepsUnwindable(f.st, batch, expired);
      RaiseFlagKeepsFrames(f.st, batch[0]);
      FireAllAddsNoTimer(FireNext(f, batch[0], expired), batch[1..], expired);
    }
  }

  /** As written, updateTimers moves every timer, expired or not: none is left running. */
  lemma {:induction false} FiringAllLeavesNoTimer(st: State, fired: seq<int>, expired: set<int>)
    requires Valid(st) && IsFired(st, fired) && st.timers.Keys <= IdsOf(fired)
    ensures CanFire(st, fired) && UpdateTimers(st, fired, expired).st.timers == map[]
  {
    ValidCanFire(st, fired);
    FireAllAddsNoTimer(Firing(WithoutTimers(st, fired), |st.scopes|, None), FiredBatch(st, fired), expired);
    assert UpdateTimers(st, fired, expired).st.timers.Keys == {};
  }

  // -------------------------------------------------------------------- ownership

  /** A stop timer without flag ends its own scope and those inside it, and nothing else. */
  lemma {:induction false} StopEndsItsOwnScope(st: State, id: int, expired: set<int>)
    requires Valid(st) && id in st.timers && st.timers[id].kind == Stop && !st.timers[id].HasFlag()
    ensures var t := st.timers[id];
            && 1 <= t.scopeid < st.Depth() && st.scopes[t.scopeid].timerId == id
            && CanFire(st, [id])
            && UpdateTimers(st, [id], expired).st.scopes == st.scopes[..t.scopeid]
            && UpdateTimers(st, [id], expired).next == t.next
  {
    var t := st.timers[id];
    assert Owned(t, st.scopes);
    ValidCanFire(st, [id]);
    var batch := FiredBatch(st, [id]);
    assert batch == [t];
    var f := Firing(WithoutTimers(st, [id]), |st.scopes|, None);
    FireOneKeepsUnwindable(f.st, batch, expired);
    assert FireAll(FireNext(f, t, expired), batch[1..], expired) == FireNext(f, t, expired);
  }

  /**
   With a flag this fails: the timer outlives its scope.  A scope with a flagged stop timer is
   left, another one is entered in its place, and the timer then ends the other one.
   */
  lemma {:induction false} FlaggedStopEndsAnotherScope(a: RuleNode, b: RuleNode)
    requires a.header.None? && b.header.None? && !IsLoop(b)
    ensures var timer := Timer(1, None, Stop, "flag", 0);
            var ops := [EnterTimedNode(a, timer), ExitNode({}, false), EnterNode(b)];
            && Valid(INITIAL) && LegalRun(INITIAL, ops)
            && var st := Run(INITIAL, ops);
               && st.Depth() == 2 && st.scopes[1].timerId == NO_TIMER && 1 in st.timers && st.timers[1].scopeid == 1
               && CanFire(st, [1]) && UpdateTimers(st, [1], {}).st.Depth() == 1
  {
    var timer := Timer(1, None, Stop, "flag", 0);
    var op1, op2, op3 := EnterTimedNode(a, timer), ExitNode({}, false), EnterNode(b);
    var st1 := Apply(INITIAL, op1);
    RunCons(INITIAL, op1, [op2] + ([op3] + []));
    assert |st1.scopes| == 2 && st1.timers == map[1 := timer.(scopeid := 1)];
    assert st1.Top() == Scope(map[], 1, Some(ControlFlow(a, "", None, true)));
    var st2 := Apply(st1, op2);
    RunCons(st1, op2, [op3] + []);
    assert st2.scopes == st1.scopes[..1] && st2.timers == map[1 := timer.(scopeid := 1)];
    var st3 := Apply(st2, op3);
    RunCons(st2, op3, []);
    assert [op1, op2, op3] == [op1] + ([op2] + ([op3] + []));
    UpdateTimersExact(st3, [1], {});
  }

  /**
   A stop timer, flagged or not, unwinds to its recorded index.  The outermost scope it ends is
   its own exactly when the stack still has a scope with that timer there.
   */
  lemma {:induction false} StopEndsItsOwnScopeIff(st: State, id: int, expired: set<int>)
    requires Valid(st) && id in st.timers && st.timers[id].kind == Stop
    ensures CanFire(st, [id])
    ensures var d := UpdateTimers(st, [id], expired).st.Depth();
            var at := st.timers[id].scopeid;
            (d < st.Depth() && st.scopes[d].timerId == id) <==> (at < st.Depth() && st.scopes[at].timerId == id)
  {
    UpdateTimersExact(st, [id], expired);
    assert st.timers[[id][0]].kind == Stop;
    var r := UpdateTimers(st, [id], expired);
    if r.st.Depth() < st.Depth() {
      var i :| Decides(st, [id], i, r.st.Depth(), r.next);
    }
  }

  /** Leaving a scope for good leaves its timer behind exactly if the timer has a flag or is a pad still running. */
  lemma {:induction false} ExitOrphansTimerIff(st: State, expired: set<int>, force: bool)
    requires Valid(st) && st.Depth() > 1 && (force || st.Top().ctrl.value.exiting)
    requires st.Top().timerId in st.timers && st.timers[st.Top().timerId].scopeid == st.Depth() - 1
    ensures var id := st.Top().timerId;
            var t := st.timers[id];
            var after := Exit(st, expired, force).st;
            && (id in after.timers <==> t.HasFlag() || PadRunning(t, expired))
            && (id in after.timers ==> after.timers[id] == t && t.scopeid == after.Depth())
  {
    ExitKeepsValid(st, expired, force);
  }
}
