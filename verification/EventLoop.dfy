/**
 The event loop of lib/eventLoop/EventLoop.cpp: tasks are run in batches until one has to wait
 for the players, then input lines are read until five good ones have come in.
 */
module EventLoops {
  import opened Wrappers

  datatype TaskType = ControlFlow | Executable | ServerMsgWait | ServerMsgContinue | ServerDisplayMsg

  datatype Task = Task(kind: TaskType, id: int)

  /** An input line: nothing, something the pattern (or the number in it) rejects, or an input of a player. */
  datatype Line = Blank | Malformed | Good(player: int, key: string, value: string)

  const NEEDED_INPUT_COUNT: int := 5

  /** What the loop does, as seen from outside. */
  datatype Action = Popped(task: Task) | Took(line: Line) | GameEnd

  // -------------------------------------------------------------------- the objects

  class GameInstance {
    var taskQ: seq<Task>

    constructor (tasks: seq<Task>)
      ensures taskQ == tasks
    {
      taskQ := tasks;
    }

    method GetTask() returns (task: Option<Task>)
      modifies this
      ensures task == if old(taskQ) == [] then None else Some(old(taskQ)[0])
      ensures taskQ == if old(taskQ) == [] then [] else old(taskQ)[1..]
    {
      if |taskQ| == 0 {
        return None;
      }
      task := Some(taskQ[0]);
      taskQ := taskQ[1..];
    }
  }

  class GameInstanceManager {
    var isInactive: bool
    var inputCount: nat

    constructor ()
      ensures !isInactive && inputCount == 0
    {
      isInactive, inputCount := false, 0;
    }

    method PutGameInstanceInQueue()
      modifies this`isInactive
      ensures !isInactive
    {
      isInactive := false;
    }

    method PutGameInstanceInMap()
      modifies this`isInactive
      ensures isInactive
    {
      isInactive := true;
    }

    method PlayerInput()
      modifies this
      ensures if old(inputCount) + 1 >= NEEDED_INPUT_COUNT then !isInactive && inputCount == 0
              else isInactive == old(isInactive) && inputCount == old(inputCount) + 1
    {
      inputCount := inputCount + 1;
      if NEEDED_INPUT_COUNT <= inputCount {
        isInactive := false;
        inputCount := 0;
      }
    }
  }

  // -------------------------------------------------------------------- the trace

  /** The actions from a given state on; batches play no part in it. */
  function Trace(tasks: seq<Task>, paused: bool, count: nat, lines: seq<Line>): seq<Action>
    decreases |tasks| + |lines|
  {
    if paused then
      if lines == [] then []
      else if lines[0].Blank? then Trace(tasks, true, count, lines[1..])
      else if lines[0].Malformed? then [Took(lines[0])] + Trace(tasks, true, count, lines[1..])
      else if count + 1 >= NEEDED_INPUT_COUNT then [Took(lines[0])] + Trace(tasks, false, 0, lines[1..])
      else [Took(lines[0])] + Trace(tasks, true, count + 1, lines[1..])
    else if tasks == [] then [GameEnd]
    else [Popped(tasks[0])] + Trace(tasks[1..], tasks[0].kind == ServerMsgWait, count, lines)
  }

  function GoodLines(lines: seq<Line>): nat {
    if lines == [] then 0 else (if lines[0].Good? then 1 else 0) + GoodLines(lines[1..])
  }

  /** The good lines a list of tasks waits for. */
  function Awaited(tasks: seq<Task>): nat {
    if tasks == [] then 0
    else (if tasks[0].kind == ServerMsgWait then NEEDED_INPUT_COUNT else 0) + Awaited(tasks[1..])
  }

  /** The good lines the loop still needs. */
  function Needed(tasks: seq<Task>, paused: bool, count: nat): int {
    Awaited(tasks) + (if paused then NEEDED_INPUT_COUNT - count else 0)
  }

  /** The lines that count as a message, good or not. */
  function Messages(lines: seq<Line>): seq<Line> {
    if lines == [] then [] else (if lines[0].Blank? then [] else [lines[0]]) + Messages(lines[1..])
  }

  /** The lines taken in a trace. */
  function Taken(trace: seq<Action>): seq<Line> {
    if trace == [] then [] else (if trace[0].Took? then [trace[0].line] else []) + Taken(trace[1..])
  }

  lemma {:induction false} TakenAppend(a: seq<Action>, b: seq<Action>)
    ensures Taken(a + b) == Taken(a) + Taken(b)
  {
    if a == [] {
      assert a + b == b;
    } else {
      var head := if a[0].Took? then [a[0].line] else [];
      assert (a + b)[0] == a[0] && (a + b)[1..] == a[1..] + b;
      TakenAppend(a[1..], b);
      RejoinLines(head, Taken(a[1..]), Taken(b));
    }
  }

  lemma {:induction false} RejoinLines(a: seq<Line>, b: seq<Line>, c: seq<Line>)
    ensures (a + b) + c == a + (b + c)
  {
  }

  predicate NoneTaken(trace: seq<Action>) { forall i :: 0 <= i < |trace| ==> !trace[i].Took? }

  lemma {:induction false} NoneTakenMeans(trace: seq<Action>)
    requires NoneTaken(trace)
    ensures Taken(trace) == []
  {
    if trace != [] {
      NoneTakenMeans(trace[1..]);
    }
  }

  /** Some more actions, and the messages they take. */
  lemma {:induction false} TakenSoFar(all: seq<Line>, trace: seq<Action>, more: seq<Action>, lines: seq<Line>, rest: seq<Line>)
    requires Messages(all) == Taken(trace) + Messages(lines) && Messages(lines) == Taken(more) + Messages(rest)
    ensures Messages(all) == Taken(trace + more) + Messages(rest)
  {
    TakenAppend(trace, more);
    RejoinLines(Taken(trace), Taken(more), Messages(rest));
  }

  /** A state of the loop with enough input to come; without it the loop would read forever. */
  ghost predicate Supplied(tasks: seq<Task>, paused: bool, count: nat, lines: seq<Line>) {
    && count < NEEDED_INPUT_COUNT && (!paused ==> count == 0)
    && Needed(tasks, paused, count) <= GoodLines(lines)
  }

  lemma {:induction false} SuppliedHasLine(tasks: seq<Task>, count: nat, lines: seq<Line>)
    requires Supplied(tasks, true, count, lines)
    ensures lines != []
  {
  }

  lemma {:induction false} SuffixOfSuffix(whole: seq<Line>, part: seq<Line>, rest: seq<Line>)
    requires |rest| <= |part| <= |whole|
    requires part == whole[|whole| - |part|..] && rest == part[|part| - |rest|..]
    ensures rest == whole[|whole| - |rest|..]
  {
  }

  lemma {:induction false} Rejoin(done: seq<Action>, more: seq<Action>, rest: seq<Action>)
    ensures done + (more + rest) == (done + more) + rest
  {
  }

  // -------------------------------------------------------------------- the loop

  /** The inner loop: up to `maxProcessCount` tasks, fewer if one has to wait or none is left. */
  method ProcessTasks(instance: GameInstance, manager: GameInstanceManager, maxProcessCount: nat, ghost lines: seq<Line>)
    returns (actions: seq<Action>, exit: bool)
    requires maxProcessCount >= 1 && !manager.isInactive && manager.inputCount == 0
    modifies instance, manager
    ensures manager.inputCount == 0 && (exit ==> !manager.isInactive) && NoneTaken(actions)
    ensures exit || |instance.taskQ| < |old(instance.taskQ)|
    ensures Needed(instance.taskQ, manager.isInactive, 0) == Needed(old(instance.taskQ), false, 0)
    ensures Trace(old(instance.taskQ), false, 0, lines)
            == if exit then actions else actions + Trace(instance.taskQ, manager.isInactive, 0, lines)
  {
    actions, exit := [], false;
    var dontPushActive := false;
    for i := 0 to maxProcessCount
      invariant !manager.isInactive && !exit && !dontPushActive && manager.inputCount == 0 && NoneTaken(actions)
      invariant Needed(instance.taskQ, false, 0) == Needed(old(instance.taskQ), false, 0)
      invariant Trace(old(instance.taskQ), false, 0, lines) == actions + Trace(instance.taskQ, false, 0, lines)
      invariant if i == 0 then instance.taskQ == old(instance.taskQ) else |instance.taskQ| < |old(instance.taskQ)|
    {
      var task := instance.GetTask();
      if task.None? {
        actions := actions + [GameEnd];
        exit := true;
        break;
      }
      Rejoin(actions, [Popped(task.value)], Trace(instance.taskQ, task.value.kind == ServerMsgWait, 0, lines));
      actions := actions + [Popped(task.value)];
      if task.value.kind == ServerMsgWait {
        manager.PutGameInstanceInMap();
        dontPushActive := true;
      }
      if dontPushActive {
        break;
      }
    }
    if !dontPushActive {
      manager.PutGameInstanceInQueue();
    }
  }

  /** Read the next line that is not blank and hand a good one to the manager. */
  method ReadInput(manager: GameInstanceManager, input: seq<Line>, ghost tasks: seq<Task>)
    returns (line: Line, lines: seq<Line>)
    requires manager.isInactive && Supplied(tasks, true, manager.inputCount, input)
    modifies manager
    ensures |lines| < |input| && lines == input[|input| - |lines|..] && Messages(input) == [line] + Messages(lines)
    ensures Supplied(tasks, manager.isInactive, manager.inputCount, lines)
    ensures Trace(tasks, true, old(manager.inputCount), input)
            == [Took(line)] + Trace(tasks, manager.isInactive, manager.inputCount, lines)
  {
    lines := input;
    SuppliedHasLine(tasks, manager.inputCount, lines);
    while lines[0].Blank?
      invariant manager.isInactive && manager.inputCount == old(manager.inputCount)
      invariant Supplied(tasks, true, manager.inputCount, lines)
      invariant 0 < |lines| <= |input| && lines == input[|input| - |lines|..] && Messages(lines) == Messages(input)
      invariant Trace(tasks, true, manager.inputCount, input) == Trace(tasks, true, manager.inputCount, lines)
      decreases |lines|
    {
      lines := lines[1..];
      SuppliedHasLine(tasks, manager.inputCount, lines);
    }
    line := lines[0];
    lines := lines[1..];
    if line.Good? {
      manager.PlayerInput();
    }
  }

  /** One turn of the main loop: a batch of tasks if the game is active, then a line if it waits. */
  method Turn(instance: GameInstance, manager: GameInstanceManager, maxProcessCount: nat, input: seq<Line>)
    returns (actions: seq<Action>, exit: bool, lines: seq<Line>)
    requires maxProcessCount >= 1
    requires Supplied(instance.taskQ, manager.isInactive, manager.inputCount, input)
    modifies instance, manager
    ensures |lines| <= |input| && lines == input[|input| - |lines|..]
    ensures Messages(input) == Taken(actions) + Messages(lines)
    ensures Supplied(instance.taskQ, manager.isInactive, manager.inputCount, lines)
    ensures exit || |instance.taskQ| + |lines| < |old(instance.taskQ)| + |input|
    ensures Trace(old(instance.taskQ), old(manager.isInactive), old(manager.inputCount), input)
            == if exit then actions
               else actions + Trace(instance.taskQ, manager.isInactive, manager.inputCount, lines)
  {
    actions, exit, lines := [], false, input;
    if !manager.isInactive {
      actions, exit := ProcessTasks(instance, manager, maxProcessCount, lines);
    }
    NoneTakenMeans(actions);
    if manager.isInactive && !exit {
      var line;
      line, lines := ReadInput(manager, lines, instance.taskQ);
      Rejoin(actions, [Took(line)], Trace(instance.taskQ, manager.isInactive, manager.inputCount, lines));
      TakenAppend(actions, [Took(line)]);
      actions := actions + [Took(line)];
    }
  }

  /** The main loop: returns what it did and the lines it left unread. */
  method EventLoop(tasks: seq<Task>, input: seq<Line>, maxProcessCount: nat)
    returns (trace: seq<Action>, lines: seq<Line>)
    requires maxProcessCount >= 1 && Supplied(tasks, false, 0, input)
    ensures trace == Trace(tasks, false, 0, input)
    ensures |lines| <= |input| && lines == input[|input| - |lines|..]
    ensures Messages(input) == Taken(trace) + Messages(lines)
  {
    var manager := new GameInstanceManager();
    var instance := new GameInstance(tasks);
    trace, lines := [], input;
    var exit := false;
    while !exit
      invariant fresh(manager) && fresh(instance)
      invariant |lines| <= |input| && lines == input[|input| - |lines|..]
      invariant Messages(input) == Taken(trace) + Messages(lines)
      invariant Supplied(instance.taskQ, manager.isInactive, manager.inputCount, lines)
      invariant Trace(tasks, false, 0, input)
                == if exit then trace
                   else trace + Trace(instance.taskQ, manager.isInactive, manager.inputCount, lines)
      decreases !exit, |instance.taskQ| + |lines|
    {
      var actions, rest;
      actions, exit, rest := Turn(instance, manager, maxProcessCount, lines);
      SuffixOfSuffix(input, lines, rest);
      TakenSoFar(input, trace, actions, lines, rest);
      lines := rest;
      Rejoin(trace, actions, Trace(instance.taskQ, manager.isInactive, manager.inputCount, lines));
      trace := trace + actions;
    }
  }

  // -------------------------------------------------------------------- what every run does

  function TasksOf(trace: seq<Action>): seq<Task> {
    if trace == [] then []
    else (if trace[0].Popped? then [trace[0].task] else []) + TasksOf(trace[1..])
  }

  /** Good inputs taken, less five for every task that waits. */
  function Balance(trace: seq<Action>): int {
    if trace == [] then 0
    else
      (if trace[0].Took? && trace[0].line.Good? then 1
       else if trace[0].Popped? && trace[0].task.kind == ServerMsgWait then -5
       else 0) + Balance(trace[1..])
  }

  /** The balance a state of the loop starts from. */
  function Debt(paused: bool, count: nat): int { if paused then count - 5 else 0 }

  /** The run ends, having popped every task once and in order. */
  lemma {:induction false} RunCompletes(tasks: seq<Task>, paused: bool, count: nat, lines: seq<Line>)
    requires Supplied(tasks, paused, count, lines)
    ensures var trace := Trace(tasks, paused, count, lines);
            && TasksOf(trace) == tasks
            && trace != [] && trace[|trace| - 1] == GameEnd && GameEnd !in trace[..|trace| - 1]
            && Debt(paused, count) + Balance(trace) == 0
    decreases |tasks| + |lines|
  {
    var trace := Trace(tasks, paused, count, lines);
    if paused {
      if lines[0].Good? && count + 1 >= NEEDED_INPUT_COUNT {
        RunCompletes(tasks, false, 0, lines[1..]);
      } else {
        RunCompletes(tasks, true, if lines[0].Good? then count + 1 else count, lines[1..]);
      }
    } else if tasks != [] {
      RunCompletes(tasks[1..], tasks[0].kind == ServerMsgWait, count, lines);
    }
    if (!paused && tasks != []) || (paused && !lines[0].Blank?) {
      var rest := trace[1..];
      assert trace[..|trace| - 1] == [trace[0]] + rest[..|rest| - 1];
    }
  }

  /**
   At every moment of a run: a task is popped only when each earlier wait has had its five good
   inputs, and a line is read only while the last wait has had fewer than five.
   */
  lemma {:induction false} TurnsAreKept(tasks: seq<Task>, paused: bool, count: nat, lines: seq<Line>, k: nat)
    requires count < NEEDED_INPUT_COUNT && (!paused ==> count == 0)
    requires k < |Trace(tasks, paused, count, lines)|
    ensures var trace := Trace(tasks, paused, count, lines);
            var now := Debt(paused, count) + Balance(trace[..k]);
            && (!trace[k].Took? ==> now == 0)
            && (trace[k].Took? ==> -5 <= now < 0)
    decreases |tasks| + |lines|
  {
    var trace := Trace(tasks, paused, count, lines);
    if paused && lines[0].Blank? {
      TurnsAreKept(tasks, true, count, lines[1..], k);
    } else if k > 0 {
      var prefix := trace[..k];
      assert prefix[0] == trace[0] && prefix[1..] == trace[1..][..k - 1];
      if !paused {
        TurnsAreKept(tasks[1..], tasks[0].kind == ServerMsgWait, count, lines, k - 1);
      } else if lines[0].Good? && count + 1 >= NEEDED_INPUT_COUNT {
        TurnsAreKept(tasks, false, 0, lines[1..], k - 1);
      } else {
        TurnsAreKept(tasks, true, if lines[0].Good? then count + 1 else count, lines[1..], k - 1);
      }
    }
  }

  /** The game comes to its end exactly when the input holds every good line the tasks wait for. */
  lemma {:induction false} GameEndsIff(tasks: seq<Task>, paused: bool, count: nat, lines: seq<Line>)
    requires count < NEEDED_INPUT_COUNT && (!paused ==> count == 0)
    ensures GameEnd in Trace(tasks, paused, count, lines) <==> Needed(tasks, paused, count) <= GoodLines(lines)
    decreases |tasks| + |lines|
  {
    if paused {
      if lines != [] {
        if lines[0].Good? && count + 1 >= NEEDED_INPUT_COUNT {
          GameEndsIff(tasks, false, 0, lines[1..]);
        } else {
          GameEndsIff(tasks, true, if lines[0].Good? then count + 1 else count, lines[1..]);
        }
      }
    } else if tasks != [] {
      GameEndsIff(tasks[1..], tasks[0].kind == ServerMsgWait, count, lines);
    }
  }

  /** Whatever the batch size, the loop does the same. */
  method SameTraceForAnyBatch(tasks: seq<Task>, input: seq<Line>, batch1: nat, batch2: nat)
    returns (trace1: seq<Action>, trace2: seq<Action>)
    requires batch1 >= 1 && batch2 >= 1 && Supplied(tasks, false, 0, input)
    ensures trace1 == trace2 && TasksOf(trace1) == tasks && Balance(trace1) == 0
  {
    var unread1, unread2;
    trace1, unread1 := EventLoop(tasks, input, batch1);
    trace2, unread2 := EventLoop(tasks, input, batch2);
    RunCompletes(tasks, false, 0, input);
  }
}
