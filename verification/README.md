# Verified model of the social gaming platform

The repository is an interpreter for a small game language and the server around it. This project
models its core in Dafny and proves what the parts are for. Objects that the program updates in
place are classes whose methods are proved equal to specification functions; the properties are
lemmas about those functions, and so hold for the methods.

- `ExpressionSyntax`, `ExpressionEvaluator`, `ExpressionValues`: the compiler from syntax trees to flat token lists and
  the evaluator that runs such a list with one shared cursor and one token of lookahead. The token
  list determines the expression although it has no brackets, and evaluating it gives the tree's own
  value; for every tree, value and cursor are right exactly when no `||` is cut short.
- `Environment`, `EnvironmentInvariants`, `EnvironmentTimers`, `EnvironmentSteps`, `EnvironmentLoops`,
  `EnvironmentBodies`, `EnvironmentManagerObject`: the scope stack with variables, timers and loops. The front of the C++
  deque is the end of the sequence, so a timer's `scopeid` is an index; shared pointers are indices
  into a heap, because a loop and a variable share the list the loop uses up.
- `Channels`, `Servers`: a connection's write queue under every interleaving of sends, completions
  and errors, and the registry of connections with its callbacks and id maps.
- `Ambassadors`: a bounded queue between processes and a local buffer that act as one queue.
- `EventLoops`: the loop that runs tasks and pauses for player input.
- `RuleTrees`, `RuleTreeOrder`: the linked rule nodes the parser builds, their chains, parents and
  printing order.
- `ListUtils`, `Printing`, `TaskMessages`, `RockPaper`: lists with signed indices, values as text,
  the messages tasks queue for players, and the round of the example game.
- `Wrappers`, `Values`: an option type and the variant of values.

Where the code does not meet the property one would expect, the code is modelled as it is, and a
lemma names the failing input or the exact condition:

- `a+b` without blanks loses its operator, `a||b` keeps it; the compiler gives the tokens of the
  expression exactly when every operator has one blank before it, or none and its first character
  twice (`UnspacedOperatorIsLost`, `UnspacedOrIsKept`, `FlattenDenoteIff`).
- Comparing `true || false` with `true`, in a tree with the or as left operand of the comparison,
  gives false (`MisplacedOrFails`, `MisplacedOrRightIff`); in general value and cursor are right
  exactly without a short circuit (`ExactIffNoShortCircuit`).
- A built-in call moves the cursor by a fixed number of tokens, whatever its arguments are:
  `contains` and `upfrom` with anything but a bare name leave tokens behind, `collect` does with an
  equality and takes one too many with two bare names. A call is read exactly if and only if its
  arguments are as long as expected (`CallExactIffAligned`, `AlignedCalls`, `CollectStopsShort`).
- A loop over an empty list runs its body once (`PassesMatchItemsIff`). A loop under a stop timer
  without a flag loses the timer when its first pass ends (`GoingOnKeepsTimerIff`).
- A stop timer with a flag outlives its scope and can end another one
  (`FlaggedStopEndsAnotherScope`, `ExitOrphansTimerIff`, `StopEndsItsOwnScopeIff`).
- The active channel is not reset when it is lost, so a closed connection can be given a game
  (`ClosedChannelGetsGame`, `IdsAlwaysWithChannelsIff`).
- The printed scores of different types cannot be told apart: the number 1, the truth value and the
  text "1" print alike (`Confusions`, `ScoresRecoverableIff`).
- Printing the rule tree follows a null pointer when a body is empty (`ParseAndPrint`).
- `insert_at` is undefined between its two range errors (`InsertRange`); `remove_at` ignores an
  index out of range, while lib/variables/README.md says it throws (`AccessRange`).
- An input range with -1 as a bound is not sent (`RangeRecoverableIff`).

Points where the model reads the code's intent:

- lib/variables/EnvironmentMgr.cpp:370 dereferences a null pointer for an unbound name. The model
  takes what the two branches say: a bound name is its variable, any other name a literal.
- lib/variables/EnvironmentMgr.cpp:213-217 reads a loop's header from the second and third data
  entry, while src/RuleInterpreter.cpp:265-273 writes two entries. A loop node in the model has a
  loop variable and the name of its range.
- The comment at lib/variables/EnvironmentMgr.cpp:144 speaks of expired timers, the code below it
  moves every timer. The model takes any ascending list of fired timers; the code is the case that
  lists them all (`FiringAllLeavesNoTimer`).

## Model

| member | source | states |
|---|---|---|
| ExpressionSyntax.ExpressionParser.ParseExpression | src/RuleInterpreter.cpp:158-189 | the recursive compiler appends exactly the token list `Flatten` of its node to the shared list |
| ExpressionSyntax.ExpressionParser.ParseList | src/RuleInterpreter.cpp:159-162 | an argument list appends its expressions' tokens one after the other |
| ExpressionSyntax.OperatorTokenIsOperator | src/RuleInterpreter.cpp:172-177 | with blanks before it, the operator is found if and only if there is one blank, or none and the next character is the operator's first again, as it is for the two-character or |
| ExpressionSyntax.UnspacedOperatorIsLost | src/RuleInterpreter.cpp:172-177 | without the blank the tokens of a sum of a and b are b, a, b |
| ExpressionSyntax.UnspacedOrIsKept | src/RuleInterpreter.cpp:172-177 | an or without blanks compiles like one with blanks, for any readable operands |
| ExpressionSyntax.FlattenDenoteIff | src/RuleInterpreter.cpp:158-189 | a grammatical tree compiles to the prefix tokens of the expression it stands for if and only if all its operators are in place; their number is right in any case |
| ExpressionSyntax.FlattenDenote | src/RuleInterpreter.cpp:158-189 | so compiling any readable tree gives the tokens of its expression, spacing and the `all` shorthand gone |
| ExpressionSyntax.ReadSound | src/RuleInterpreter.cpp:158-189 | for any token list, an expression read from its front flattens back to the tokens read, and what is left over is the rest |
| ExpressionSyntax.ReadTokens | src/RuleInterpreter.cpp:158-189 | reading with one token of lookahead inverts flattening, for any continuation a trailing name does not run into |
| ExpressionSyntax.ReadTokensExactly | lib/variables/EnvironmentMgr.cpp:357-368 | an expression and its rest can be read back if and only if no bare name at its end meets a built-in name |
| ExpressionSyntax.UniqueReadability | src/RuleInterpreter.cpp:158-189 | two trees with equal tokens-and-rest stand for the same expression and have the same rest |
| ExpressionSyntax.ReadabilityNeedsLookahead | lib/variables/EnvironmentMgr.cpp:357-362 | without that condition it fails: a name followed by `size` is a call, or a name and a rest |
| ExpressionEvaluator.Evaluator.EvaluationExpression | lib/variables/EnvironmentMgr.cpp:356-380 | result and shared cursor agree with the outcome of the functional evaluator on the tokens from the cursor on; it fails exactly when that does |
| ExpressionEvaluator.Evaluator.EvaluateOperator | lib/variables/EnvironmentMgr.cpp:294-317 | the same for operators, whichever operand of `=` and `+` C++ evaluates first |
| ExpressionEvaluator.Evaluator.EvaluateBuiltIn | lib/variables/EnvironmentMgr.cpp:319-354 | the same for built-ins, the cursor moving the built-in's fixed number of tokens |
| ExpressionEvaluator.ConsumedExactly | lib/variables/EnvironmentMgr.cpp:311-314 | all of an expression's tokens are passed if and only if no or was cut short |
| ExpressionEvaluator.EvalTokens | lib/variables/EnvironmentMgr.cpp:294-380 | on an expression's tokens followed by anything, the evaluator gives the tree's value, or fails when it has none, and leaves the tokens a short circuit skipped |
| ExpressionEvaluator.ReadsExactly | lib/variables/EnvironmentMgr.cpp:294-380 | without a short circuit it gives the tree's value and stops right behind it |
| ExpressionEvaluator.OrFreeNeverSkips | lib/variables/EnvironmentMgr.cpp:297-315 | only an or can leave the cursor early |
| ExpressionEvaluator.FalseChainNeverSkips | lib/variables/EnvironmentMgr.cpp:311-314 | a chain of ors that comes out false has evaluated every operand |
| ExpressionEvaluator.PlacedIsSafe | lib/variables/EnvironmentMgr.cpp:294-317 | an or that is the root, directly below another or, or in last-operand position never skips what is still to be read |
| ExpressionEvaluator.FlatteningPreservesMeaning | lib/variables/EnvironmentMgr.cpp:294-380 | compile, then evaluate, is the tree's own value (failure only when it has none), and the cursor is exact if and only if no or is cut short |
| ExpressionEvaluator.CursorExact | lib/variables/EnvironmentMgr.cpp:356-380 | the cursor is exact for trees without or, and for chains of ors whenever the result is false |
| ExpressionEvaluator.EvalLags | lib/variables/EnvironmentMgr.cpp:294-380 | wherever an or stands, the unread part ends with all that followed the expression, preceded by whole expressions, at least one after a short circuit |
| ExpressionEvaluator.ExactIffNoShortCircuit | lib/variables/EnvironmentMgr.cpp:294-380 | for every tree, however its ors are placed: value and cursor are both right if and only if no or is cut short |
| ExpressionEvaluator.ShortCircuitStops | lib/variables/EnvironmentMgr.cpp:311-314 | a true left operand leaves the whole right operand unread |
| ExpressionEvaluator.MisplacedOr | lib/variables/EnvironmentMgr.cpp:299-314 | an or with a true left operand on the left of `=`: its right operand becomes the other side and the real one is left over |
| ExpressionEvaluator.MisplacedOrRightIff | lib/variables/EnvironmentMgr.cpp:299-314 | for every such tree, compiled from its nodes: the value is right if and only if the two compare alike with true |
| ExpressionEvaluator.MisplacedOrFails | lib/variables/EnvironmentMgr.cpp:299-314 | a concrete node, the comparison of a true or with true, whose value is true and whose evaluation is false |
| ExpressionEvaluator.UnsafeByChance | lib/variables/EnvironmentMgr.cpp:299-314 | `Safe` is not necessary for value and expected cursor: a family of trees in which two misread operands make up for each other |
| ExpressionEvaluator.CallStopsAt | lib/variables/EnvironmentMgr.cpp:319-354 | every call evaluates to its built-in's value and moves the cursor by the built-in's own number of tokens, or fails when there are fewer |
| ExpressionEvaluator.CallExactIffAligned | lib/variables/EnvironmentMgr.cpp:319-354 | every call with a value is read exactly if and only if it has as many tokens as its built-in passes |
| ExpressionEvaluator.AlignedCalls | lib/variables/EnvironmentMgr.cpp:324-351 | which calls those are, in terms of the arguments: every size, contains and upfrom with a bare name, collect with a bare name and a two-token argument |
| ExpressionEvaluator.CollectStopsShort | lib/variables/EnvironmentMgr.cpp:338-344 | the collect stub passes five of the six tokens compiled for an equality predicate |
| ExpressionEvaluator.CompileAndEvaluate | lib/variables/EnvironmentMgr.cpp:356-380 | parser object and evaluator object together return the tree's own value |
| ExpressionValues.BoundName | lib/variables/EnvironmentMgr.cpp:370-373 | a bound name evaluates to its variable, whatever its text looks like, and is one token |
| ExpressionValues.TruthValues | lib/variables/EnvironmentMgr.cpp:257-262 | unbound, the texts true and false are the truth values |
| ExpressionValues.PlainText | lib/variables/EnvironmentMgr.cpp:291 | any other unbound text that is no quotation and starts with no digit is itself |
| ExpressionValues.DigitText | lib/variables/EnvironmentMgr.cpp:280-289 | digits, and whatever follows them, are the number the digits write, or the whole text if that exceeds an int |
| ExpressionValues.NumberText | lib/variables/EnvironmentMgr.cpp:280-285 | so the decimal text of every int that is not negative evaluates to that int |
| ExpressionValues.Quotation | lib/variables/EnvironmentMgr.cpp:263-278 | in a quotation the text from the opening brace up to the closing one is the name looked up, brace included; its string replaces it and the closing brace stays |
| ExpressionValues.PlainQuotation | lib/variables/EnvironmentMgr.cpp:266-268 | a quotation without a brace fails |
| ExpressionValues.SizeCall | lib/variables/EnvironmentMgr.cpp:324-330 | size of a list or map is its number of elements, of a plain value the size of the variant; two tokens are passed |
| ExpressionValues.SizeOfUnbound | lib/variables/EnvironmentMgr.cpp:326 | size of an unbound name fails |
| ExpressionValues.StubCalls | lib/variables/EnvironmentMgr.cpp:331-351 | contains is true and passes three tokens, upfrom false and three, collect false and five |
| ExpressionValues.Negated | lib/variables/EnvironmentMgr.cpp:303-306 | `!` before tokens that evaluate to a truth value gives the other one |
| ExpressionValues.Compared | lib/variables/EnvironmentMgr.cpp:299-302 | `=` compares the values of the next two expressions |
| ExpressionValues.Added | lib/variables/EnvironmentMgr.cpp:307-310 | `+` adds two ints as long as the sum is an int |
| ExpressionValues.Either | lib/variables/EnvironmentMgr.cpp:311-314 | the or is true at a true left operand, leaving the cursor there, and else the right operand |
| ExpressionValues.OnlyTruthValuesNegated | lib/variables/EnvironmentMgr.cpp:305 | `!` of anything else fails |
| ExpressionValues.OnlyTruthValuesJoined | lib/variables/EnvironmentMgr.cpp:313 | so does the or at an operand that is no truth value, if it reads it |
| ExpressionValues.OnlyNumbersAdded | lib/variables/EnvironmentMgr.cpp:309 | so does `+` with an operand that is no int |
| ExpressionValues.OperandsInSourceOrder | src/RuleInterpreter.cpp:158-189 | compiling moves operators to the front and leaves names and built-ins in the order of the source text, `all` becoming `players` |
| Environment.Holder | lib/variables/EnvironmentMgr.cpp:190-196 | the innermost scope that binds a name; none only if no scope does |
| Environment.Unwind | lib/variables/EnvironmentMgr.cpp:161-167 | leaving scopes by force cuts the stack to the target, adds or changes no timer and leaves every object as it is |
| EnvironmentInvariants.BindKeepsValid | lib/variables/EnvironmentMgr.hpp:175-184 | binding keeps the invariant: base scope, no shadowing, timer ownership, no dangling pointers |
| EnvironmentInvariants.SetVariableKeepsValid | lib/variables/EnvironmentMgr.hpp:175-184 | so does setting a variable |
| EnvironmentInvariants.EnterKeepsValid | lib/variables/EnvironmentMgr.cpp:76-95 | so does entering a node, new or again |
| EnvironmentInvariants.EnterTimedKeepsValid | lib/variables/EnvironmentMgr.cpp:60-74 | so does entering a node under a timer |
| EnvironmentInvariants.UpdateLoopKeepsValid | lib/variables/EnvironmentMgr.cpp:243-254 | so does a loop step, which keeps the depth |
| EnvironmentInvariants.ExitKeepsValid | lib/variables/EnvironmentMgr.cpp:97-140 | so does leaving a scope, which never raises game over and touches only the innermost scope |
| EnvironmentInvariants.ValidCanFire | lib/variables/EnvironmentMgr.cpp:161-167 | in a valid state the unwinding loop of any fired timers ends above the base scope |
| EnvironmentInvariants.UpdateTimersKeepsValid | lib/variables/EnvironmentMgr.cpp:142-176 | firing any set of timers keeps the invariant |
| EnvironmentInvariants.ApplyKeepsValid | lib/variables/EnvironmentMgr.cpp:56-199 | every operation keeps the invariant |
| EnvironmentInvariants.RunKeepsValid | lib/variables/EnvironmentMgr.cpp:56-199 | every run keeps the invariant |
| EnvironmentInvariants.BaseScopeStays | lib/variables/EnvironmentMgr.cpp:57-140 | on every run from the start the base scope stays, stored timers lie above it, and leaving a scope never raises game over |
| EnvironmentInvariants.LookupIsFlat | lib/variables/EnvironmentMgr.cpp:184-196 | in valid states the search from the front equals lookup in one flat map |
| EnvironmentInvariants.BindLookup | lib/variables/EnvironmentMgr.hpp:175-184 | binding a name changes what the search finds for that name and no other |
| EnvironmentInvariants.SetVariableIsUpdate | lib/variables/EnvironmentMgr.hpp:175-184 | setVariable changes the flat map, and every value seen through it, at exactly one key |
| EnvironmentTimers.FireAllSettles | lib/variables/EnvironmentMgr.cpp:150-175 | after a batch the depth is the least of the start and the stop timers' scopes, and the continuation that of the first timer to reach it |
| EnvironmentTimers.UpdateTimersExact | lib/variables/EnvironmentMgr.cpp:142-176 | for any fired timers: final depth at most the start and every fired stop scope, equal to one of them; the node returned is that timer's, least id deciding ties, null if nothing was ended |
| EnvironmentTimers.UpdateTimersKeepsOthers | lib/variables/EnvironmentMgr.cpp:152-174 | a variable that is no fired flag keeps the value it had in the scopes that are left |
| EnvironmentTimers.UpdateTimersRaisesFlags | lib/variables/EnvironmentMgr.cpp:155-156 | a fired timer's flag is true wherever it is still bound, and still bound if its scope is left |
| EnvironmentTimers.FiringAllLeavesNoTimer | lib/variables/EnvironmentMgr.cpp:144-148 | as written, with every timer moved, none is left |
| EnvironmentTimers.StopEndsItsOwnScope | lib/variables/EnvironmentMgr.cpp:158-173 | an unflagged stop timer in a valid state ends its own scope and those inside it, nothing else, and continues at its node |
| EnvironmentTimers.StopEndsItsOwnScopeIff | lib/variables/EnvironmentMgr.cpp:161-167 | for any stop timer: the outermost scope ended carries the timer if and only if the stack still has such a scope at its index |
| EnvironmentTimers.ExitOrphansTimerIff | lib/variables/EnvironmentMgr.cpp:107-119 | leaving a scope for good leaves its timer behind, at an index past the stack, if and only if it has a flag or is a pad still running |
| EnvironmentTimers.FlaggedStopEndsAnotherScope | lib/variables/EnvironmentMgr.cpp:115-118 | a run in which a flagged stop timer ends a scope that is not its own |
| EnvironmentSteps.ExitEnds | lib/variables/EnvironmentMgr.cpp:107-139 | a scope that is done, or left by force, is popped and nothing else; the node returned is its node's own sibling; it has to wait exactly for its pad still running; exactly its own timer may go |
| EnvironmentSteps.ExitGoesOn | lib/variables/EnvironmentMgr.cpp:131-135 | the scope of a loop that goes on stays with all its variables gone, and the node returned is the loop |
| EnvironmentSteps.ExitUnbinds | lib/variables/EnvironmentMgr.cpp:131-138 | either way exactly the scope's variables are unbound and all others keep their values |
| EnvironmentSteps.ExitOfBase | lib/variables/EnvironmentMgr.cpp:126-129 | leaving the base scope changes nothing and leads nowhere |
| EnvironmentSteps.EnterOrdinary | lib/variables/EnvironmentMgr.cpp:86-94 | a node that is no loop gets an empty scope of its own, done after one pass, and all else stays |
| EnvironmentSteps.EnterTimedExactly | lib/variables/EnvironmentMgr.cpp:60-74 | the new scope carries the timer, and the timer, otherwise as given, the scope's index; other timers stay |
| EnvironmentSteps.EnterTimedFlag | lib/variables/EnvironmentMgr.cpp:67-70 | the timer's flag is false then, bound where it was or in the scope outside the new one; other variables keep their values |
| EnvironmentSteps.UpdateLoopKeepsOthers | lib/variables/EnvironmentMgr.cpp:243-254 | a loop step changes the loop variable and the list, and no other variable, object or timer |
| EnvironmentSteps.EnterLoopKeepsOthers | lib/variables/EnvironmentMgr.cpp:76-94 | neither does entering a loop |
| EnvironmentSteps.UnfiredTimersStayIff | lib/variables/EnvironmentMgr.cpp:142-176 | the timers left after a batch are exactly those not fired that have a flag, are pads still running, or belong to no scope that was ended |
| EnvironmentSteps.StepLeavesFlag | lib/variables/EnvironmentMgr.cpp:60-176 | no operation that is no assignment to a flag and fires no timer with it makes it true |
| EnvironmentSteps.FlagTellsFiring | lib/variables/EnvironmentMgr.cpp:67-156 | over every run from entering under a flagged timer: the flag is false while it is bound until a timer with it fires, and true after that batch if still bound |
| EnvironmentLoops.FirstEntry | lib/variables/EnvironmentMgr.cpp:86-94 | entering a loop anew opens its scope with the first item in the loop variable, the rest still to come |
| EnvironmentLoops.ExitAgain | lib/variables/EnvironmentMgr.cpp:131-135 | with items left, leaving the scope clears it and leads back to the loop node; its timer is released like any scope's |
| EnvironmentLoops.EnterAgain | lib/variables/EnvironmentMgr.cpp:79-84 | entering the node again takes the next item |
| EnvironmentLoops.LastExit | lib/variables/EnvironmentMgr.cpp:137-139 | with none left, leaving the scope pops it, unbinds the loop variable and leads to the sibling |
| EnvironmentLoops.RemainingPasses | lib/variables/EnvironmentMgr.cpp:97-140 | from any pass on, the remaining passes of a run take the remaining items in order (that there is a run says `PassesEnd`) |
| EnvironmentLoops.LoopRunsOncePerItem | lib/variables/EnvironmentMgr.cpp:243-254 | every run of a loop over n >= 1 items has n passes with the items in order, then continues at its sibling with depth restored, variable unbound and range empty (that there is a run says `LoopEnds`) |
| EnvironmentLoops.PassesMatchItemsIff | lib/variables/EnvironmentMgr.cpp:245-253 | the body runs as often as there are items if and only if there is an item |
| EnvironmentLoops.PassesEnd | lib/variables/EnvironmentMgr.cpp:76-140 | from any point of a loop and with any balanced body the run ends, by the length of the remaining list |
| EnvironmentLoops.LoopEnds | lib/variables/EnvironmentMgr.cpp:76-140 | total correctness: every loop with any balanced body comes to its end, with one pass per item in order, depth and sibling right |
| EnvironmentLoops.TimedEntry | lib/variables/EnvironmentMgr.cpp:60-84 | a loop entered under a timer and then resumed starts with the first item |
| EnvironmentLoops.TimedLoopRunsOncePerItem | lib/variables/EnvironmentMgr.cpp:60-140 | loops under a timer also run once per item in order and leave depth, sibling and variable right |
| EnvironmentLoops.TimedLoopEnds | lib/variables/EnvironmentMgr.cpp:60-140 | every loop under a timer ends, with any balanced body |
| EnvironmentLoops.GoingOnKeepsTimerIff | lib/variables/EnvironmentMgr.cpp:108-135 | a loop that goes on keeps its timer if and only if the timer has a flag or is a pad still running |
| EnvironmentBodies.UpdateStaysAround | lib/variables/EnvironmentMgr.cpp:243-254 | a nested loop over another list leaves the outer loop, its list and the scopes around it as they were |
| EnvironmentBodies.FireAllStaysAround | lib/variables/EnvironmentMgr.cpp:152-174 | so does any batch of timers that does not unwind past the loop |
| EnvironmentBodies.BodyOpStaysAround | lib/variables/EnvironmentMgr.cpp:56-199 | so does every operation of a body |
| EnvironmentBodies.BodyRunIsBalanced | lib/variables/EnvironmentMgr.cpp:56-199 | a run of operations that is a loop body is balanced if and only if it ends as deep as it began |
| EnvironmentBodies.NodeRunEnds | lib/variables/EnvironmentMgr.cpp:76-140 | enter a node that is no loop, run any body that ends as deep, leave: the way leads to the node's sibling, the depth is restored and the scopes around are their own nodes' still |
| EnvironmentBodies.LoopOfRunsEnds | lib/variables/EnvironmentMgr.cpp:76-140 | a loop whose bodies are any such runs, nested loops and firing timers included, takes the items in order, once each (one pass for none), uses the list up and leaves depth, sibling and loop variable right |
| EnvironmentBodies.DrivenLoopEnds | lib/variables/EnvironmentMgr.cpp:76-140 | whatever such operations an interpreter chooses from the state, its loop ends, having done just that |
| EnvironmentManagerObject.EnvironmentManager.constructor | lib/variables/EnvironmentMgr.cpp:57-58 | the initial state, which is valid |
| EnvironmentManagerObject.EnvironmentManager.HasVar | lib/variables/EnvironmentMgr.cpp:190-196 | the search finds the innermost holder |
| EnvironmentManagerObject.EnvironmentManager.GetVar | lib/variables/EnvironmentMgr.cpp:184-188 | the variable bound in that scope, null if there is none |
| EnvironmentManagerObject.EnvironmentManager.ShareVar | lib/variables/EnvironmentMgr.hpp:175-184 | binding to an existing object: exactly `Bind`, invariant kept |
| EnvironmentManagerObject.EnvironmentManager.SetVar | lib/variables/EnvironmentMgr.hpp:175-184 | binding to a new object: exactly `SetVariable`, invariant kept |
| EnvironmentManagerObject.EnvironmentManager.EnterTimedScope | lib/variables/EnvironmentMgr.cpp:60-74 | exactly `EnterTimed`, invariant kept |
| EnvironmentManagerObject.EnvironmentManager.UpdateInnermostLoop | lib/variables/EnvironmentMgr.cpp:243-254 | exactly `UpdateLoop`; returns the loop's body |
| EnvironmentManagerObject.EnvironmentManager.EnterScope | lib/variables/EnvironmentMgr.cpp:76-95 | exactly `Enter`; returns the body of a loop, null otherwise |
| EnvironmentManagerObject.EnvironmentManager.ExitScope | lib/variables/EnvironmentMgr.cpp:97-140 | exactly `Exit`: state, node to go to and whether to block |
| EnvironmentManagerObject.EnvironmentManager.UpdateTimers | lib/variables/EnvironmentMgr.cpp:142-176 | exactly `UpdateTimers`: state and node to jump to, invariant kept |
| EnvironmentManagerObject.EnvironmentManager.UnwindScopes | lib/variables/EnvironmentMgr.cpp:161-167 | the inner loop is `Unwind` and ends |
| Channels.Channel.AsyncWrite | lib/networking/src/Server.cpp:164-167 | the front of the buffer becomes outstanding |
| Channels.Channel.Send | lib/networking/src/Server.cpp:150-168 | an empty message changes nothing, any other is queued and written at once only if it is alone |
| Channels.Channel.AfterWrite | lib/networking/src/Server.cpp:171-190 | on success the front is done and the next is written; on error nothing starts, and the loss is reported unless already disconnected |
| Channels.Channel.Disconnect | lib/networking/src/Server.cpp:142-147 | only the flag changes |
| Channels.StepKeepsSound | lib/networking/src/Server.cpp:150-190 | each step keeps: one write at most, of the front; order of messages; being stuck, which only a failed write causes |
| Channels.RunIsSound | lib/networking/src/Server.cpp:150-190 | so does every run from a sound state |
| Channels.ChannelProtocol | lib/networking/src/Server.cpp:150-190 | over every interleaving delivered plus buffer is the accepted messages in order, at most one write is outstanding, of the front, and nothing starts twice or out of turn |
| Channels.NoWriteAfterError | lib/networking/src/Server.cpp:173-178 | after a failed write no write ever starts again and nothing more is delivered, while sends pile up |
| Channels.NoErrorNoLoss | lib/networking/src/Server.cpp:180-189 | without a failed write the channel idles only when everything accepted is delivered |
| Channels.DisconnectedIff | lib/networking/src/Server.cpp:142-147 | over every run a channel counts as disconnected if and only if it was disconnected |
| Servers.WithoutIsRest | tools/server/gameserver.cpp:45-49 | removing a client leaves the others, without repeats |
| Servers.WithoutInOrder | tools/server/gameserver.cpp:45-49 | and in their order |
| Servers.NextKeepsValid | lib/networking/src/Server.cpp:461-542 | each step keeps the registry consistent |
| Servers.RunKeepsValid | lib/networking/src/Server.cpp:461-542 | so does every run |
| Servers.RegistryIsConsistent | lib/networking/src/Server.cpp:461-542 | in every reachable registry the clients list has no repeats and equals the open channels, callbacks alternate per connection beginning with connect, and both id maps are injective with values in [1, counter) |
| Servers.IdsStayWithChannelsIff | lib/networking/src/Server.cpp:249-251 | one step keeps all ids with open channels if and only if it makes none while the active channel is closed |
| Servers.IdsAlwaysWithChannelsIff | lib/networking/src/Server.cpp:249-273 | over every run: ids belong to open channels in every state if and only if games are created and joined only while the active channel is open |
| Servers.ClosedChannelGetsGame | lib/networking/src/Server.cpp:249-251 | a run after which a closed connection has a game |
| Servers.HistoryTellsAll | lib/networking/src/Server.cpp:249-542 | over every run from the start: the active channel is the connection registered last, the open ones are those registered and not lost since, and each connection's ids are the numbers of the games created and joined while it was active, until it is lost |
| Servers.NewIdGoesToLast | lib/networking/src/Server.cpp:250-273 | after any run a new id goes to the connection registered last, exceeds every earlier id and changes no other |
| Servers.ToAllReachesOnce | tools/server/gameserver.cpp:185-192 | a broadcast addresses each client exactly once and nobody else |
| Servers.Server.constructor | lib/networking/src/Server.cpp:70-84 | starts as the empty registry |
| Servers.Server.OnConnect | tools/server/gameserver.cpp:37-41 | appends the client |
| Servers.Server.OnDisconnect | tools/server/gameserver.cpp:44-49 | removes every occurrence of the client |
| Servers.Server.RegisterChannel | lib/networking/src/Server.cpp:461-467 | is the registry's register step, the channel filed under its connection |
| Servers.Server.Disconnect | lib/networking/src/Server.cpp:522-542 | is the lose step; the channel's flag is set, other channels are untouched, an unknown connection changes nothing |
| Servers.Server.ChannelWritten | lib/networking/src/Server.cpp:171-190 | a failed write loses the connection once; only this channel changes, by the write and, if registered, the disconnect |
| Servers.Server.CreateGame | lib/networking/src/Server.cpp:249-251 | returns an id no connection has, stored for the active channel and no other |
| Servers.Server.JoinGame | lib/networking/src/Server.cpp:271-273 | the same for player ids |
| Servers.Server.SendMessages | lib/networking/src/Server.cpp:502-510 | each open channel gets exactly the messages addressed to it, in order |
| Servers.Server.BuildOutgoing | tools/server/gameserver.cpp:185-192 | one message for each client, in order |
| Servers.Server.Broadcast | tools/server/gameserver.cpp:250-251 | every open channel gets the log exactly once |
| Ambassadors.MsgQueue.Read | lib/ambassador/Ambassador.cpp:9-23 | takes the front; nothing when empty or not readable; a closed queue throws, as the interface allows |
| Ambassadors.MsgQueue.Write | lib/ambassador/Ambassador.cpp:25-39 | appends, or returns -1 and changes nothing when full or not writable |
| Ambassadors.Ambassador.SendMsg | lib/ambassador/Ambassador.cpp:110-113 | writes to the writing queue and returns its code |
| Ambassadors.Ambassador.GetAllMsg | lib/ambassador/Ambassador.cpp:115-137 | the draining loop is `GetAll`; returns the buffer |
| Ambassadors.Ambassador.GetOneMsg | lib/ambassador/Ambassador.cpp:139-152 | is `GetOne`, the empty response when nothing is pending |
| Ambassadors.StepKeepsFifo | lib/ambassador/Ambassador.cpp:25-152 | each step of writer or reader keeps popped plus buffer plus queue equal to the accepted writes |
| Ambassadors.LinkIsFifo | lib/ambassador/Ambassador.cpp:25-152 | so does every interleaving |
| Ambassadors.NewLinkIsFifo | lib/ambassador/Ambassador.cpp:25-152 | from the start, while open: popped, buffer and queue are the accepted writes in order, and the queue holds at most 100 |
| Ambassadors.GetAllKeepsPending | lib/ambassador/Ambassador.cpp:115-137 | draining moves all messages into the buffer without changing what is pending |
| Ambassadors.GetOneIsDequeue | lib/ambassador/Ambassador.cpp:139-152 | getOneMsg takes the oldest pending message, and is empty only when none is pending |
| Ambassadors.GetAllIsInvisible | lib/ambassador/Ambassador.cpp:115-152 | getAllMsg never changes what later calls of getOneMsg return, open or closed |
| Ambassadors.GetManyIsPending | lib/ambassador/Ambassador.cpp:139-152 | n calls return the first n pending messages, then empty ones |
| Ambassadors.ClosedMany | lib/ambassador/Ambassador.cpp:127-135 | from a closed queue every call returns the closed response |
| Ambassadors.ClosedForGood | lib/ambassador/Ambassador.cpp:127-152 | and still does after any further steps |
| Ambassadors.RefusedOnlyWhenFull | lib/ambassador/Ambassador.cpp:34-36 | a write is refused if and only if the queue is full, and draining makes room |
| EventLoops.GameInstance.GetTask | lib/eventLoop/EventLoop.cpp:68-78 | pops the front task, null when there is none |
| EventLoops.GameInstanceManager.PlayerInput | lib/eventLoop/EventLoop.cpp:100-109 | counts an input; the fifth wakes the game and resets the count |
| EventLoops.ProcessTasks | lib/eventLoop/EventLoop.cpp:184-232 | a batch does a prefix of the batch-free trace, stops at a wait, and makes progress |
| EventLoops.ReadInput | lib/eventLoop/EventLoop.cpp:248-274 | skips blank lines, takes one line, counts it if it is good |
| EventLoops.Turn | lib/eventLoop/EventLoop.cpp:175-276 | one turn does the next part of the trace and uses up tasks or lines |
| EventLoops.EventLoop | lib/eventLoop/EventLoop.cpp:171-276 | the loop ends and did exactly the trace, which does not mention the batch size; the lines taken and those left are the lines that are not blank, in order |
| EventLoops.RunCompletes | lib/eventLoop/EventLoop.cpp:175-276 | with enough good lines the run pops every task once, in order, takes five good inputs for each wait, and ends with the game's end |
| EventLoops.TurnsAreKept | lib/eventLoop/EventLoop.cpp:100-114 | at every moment: no task is popped while a wait is open, and a line is read only while one is |
| EventLoops.GameEndsIff | lib/eventLoop/EventLoop.cpp:175-276 | the game ends if and only if the input holds every good line the tasks wait for |
| EventLoops.SameTraceForAnyBatch | lib/eventLoop/EventLoop.cpp:171-184 | any two batch sizes give the same trace |
| RuleTrees.RuleNode.constructor | src/include/RuleInterpreter.h:62-80 | a node without links |
| RuleTrees.RuleNode.SetNextNode | src/include/RuleInterpreter.h:68 | sets the next pointer only |
| RuleTrees.RuleNode.SetParentNode | src/include/RuleInterpreter.h:69 | sets the parent pointer only |
| RuleTrees.RuleNode.SetChildren | src/include/RuleInterpreter.h:95-98 | appends a child |
| RuleTrees.RuleNode.GetChildWithKey | src/include/RuleInterpreter.h:100-107 | the first child with the key, found if and only if there is one |
| RuleTrees.ParseTask | src/RuleInterpreter.cpp:192-262 | a task's node has its type and exactly the arguments kept for that type, compiled, with the quotes and the id suffix where the source adds them |
| RuleTrees.LabelCarries | src/RuleInterpreter.cpp:200-292 | what each statement's node carries, place by place: a loop its variable and then its list, a match its target, a task its type and its arguments in order; readable expressions can be read back from it |
| RuleTrees.NewLoop | src/RuleInterpreter.cpp:265-277 | a loop's node is new, with the element's tokens before the list's |
| RuleTrees.ParseRule | src/RuleInterpreter.cpp:112-127 | the fresh nodes of a statement realise `BuildRule`, tags and all links |
| RuleTrees.ParseForRule | src/RuleInterpreter.cpp:264-282 | the same for loops, whose body is the child under "true"; the node's kind says if it is parallel, and element and list can be read back from its two data entries |
| RuleTrees.ParseMatchRule | src/RuleInterpreter.cpp:283-306 | the same for matches, one child for each alternative under its guard |
| RuleTrees.ParseEntry | src/RuleInterpreter.cpp:294-304 | one alternative adds its body's nodes and one child |
| RuleTrees.ParseChildBody | src/RuleInterpreter.cpp:279 | a parsed body becomes the next child of its control node |
| RuleTrees.ParseAndLink | src/RuleInterpreter.cpp:140-151 | a statement's node gets its parent, and the statement before it is linked to it |
| RuleTrees.ParseStatement | src/RuleInterpreter.cpp:133-153 | one round of the body loop keeps done plus still to come equal to the whole body |
| RuleTrees.ParseControlBody | src/RuleInterpreter.cpp:130-156 | the fresh nodes of a body realise `BuildBody`; the first is returned, null if there is none |
| RuleTreeOrder.BuildBodyForward | src/RuleInterpreter.cpp:130-156 | next and child links lead to later nodes, parents to earlier ones: the structure is acyclic |
| RuleTreeOrder.ChainListsBody | src/RuleInterpreter.cpp:130-156 | a body's next-chain lists exactly its statements without comments, in order, each below the enclosing control node |
| RuleTreeOrder.LoopBodyBelowLoop | src/RuleInterpreter.cpp:279 | a loop's body hangs below it under "true" with the loop as parent |
| RuleTreeOrder.BodyRealised | src/RuleInterpreter.cpp:130-156 | any stretch of nodes built for a body realises it: chains, parents, keys and children at every depth |
| RuleTreeOrder.TreeIsSource | src/RuleInterpreter.cpp:105-156 | the whole tree of a game realises its rules recursively: every chain lists its body and ends there, every node carries its statement's expressions in their places, every loop and every match alternative has its body below it, with the control node as parent |
| RuleTreeOrder.ParseRules | src/RuleInterpreter.cpp:105-109 | the linked nodes the parser returns are such a tree |
| RuleTreeOrder.WalkBody | src/RuleInterpreter.cpp:86-102 | child-then-next traversal of a body is source preorder, unless a body inside is empty |
| RuleTreeOrder.WalkRule | src/RuleInterpreter.cpp:92-94 | what is printed below a statement is the preorder of its bodies |
| RuleTreeOrder.PrintRuleTree | src/RuleInterpreter.cpp:86-102 | the recursion over the linked nodes ends and prints the walk, or meets a null pointer exactly when the walk does |
| RuleTreeOrder.PrintChildren | src/RuleInterpreter.cpp:92-94 | the same for the children of one node |
| RuleTreeOrder.ParseAndPrint | src/RuleInterpreter.cpp:86-156 | parsing and printing gives the source's preorder; no null pointer is followed if and only if there is a rule and no body is empty |
| ListUtils.ListObj.PushBack | lib/variables/Variables.cpp:246-254 | appends |
| ListUtils.ListObj.InsertAt | lib/variables/Variables.cpp:274-290 | is `Inserted` with its error cases; the list is unchanged unless it succeeds |
| ListUtils.ListObj.RemoveAt | lib/variables/Variables.cpp:312-332 | is `Removed` with its silent and undefined cases |
| ListUtils.ListObj.GetAt | lib/variables/Variables.cpp:334-357 | is `ElementAt`: element, null or exception |
| ListUtils.ListObj.Reverse | lib/variables/Variables.cpp:235-243 | the list backwards |
| ListUtils.ListObj.Extend | lib/taskFactory/SocialGamingTaskFactory.cpp:119-132 | the other list's elements appended in order |
| ListUtils.InsertRange | lib/variables/Variables.cpp:276-289 | exactly which indices insert, throw, or are undefined |
| ListUtils.AccessRange | lib/variables/Variables.cpp:312-357 | reading and removing succeed for the same indices and both fail at the length itself |
| ListUtils.InsertThenGet | lib/variables/Variables.cpp:274-357 | after an insertion every position holds the inserted element or the neighbour it should |
| ListUtils.InsertThenRemove | lib/variables/Variables.cpp:274-332 | removing at the insertion's index (one less if negative) undoes it |
| ListUtils.ReverseSwapsEnds | lib/variables/Variables.cpp:235-243 | reverse maps index i to -i-1 and is its own inverse |
| TaskMessages.CopyIntsKeepsAll | lib/taskFactory/SocialGamingTaskFactory.cpp:20-30 | copying loses no element exactly when all are integers, and then keeps each at its place |
| TaskMessages.CopyIntsAppend | lib/taskFactory/SocialGamingTaskFactory.cpp:24-29 | in any list the integers are copied in order and everything else is left out |
| TaskMessages.JoinIds | lib/taskFactory/SocialGamingTaskFactory.cpp:182-184 | the ids separated by single commas; splitting the text at the commas gives the ids back |
| TaskMessages.SplitJoined | lib/taskFactory/SocialGamingTaskFactory.cpp:182-184 | splitting undoes joining for any texts without commas |
| TaskMessages.CommaEachInjective | lib/taskFactory/SocialGamingTaskFactory.cpp:182-184 | comma-joined texts determine the texts |
| TaskMessages.JoinedIdsInjective | lib/taskFactory/SocialGamingTaskFactory.cpp:205-207 | the joined ids determine the player list |
| TaskMessages.KeysDiffer | lib/taskFactory/SocialGamingTaskFactory.cpp:232 | numbered keys with one prefix never collide |
| TaskMessages.KeyNumber | lib/taskFactory/SocialGamingTaskFactory.cpp:229-232 | a numbered key is its prefix and the decimal number, counted from 0 |
| TaskMessages.NamesAreNotScores | lib/taskFactory/SocialGamingTaskFactory.cpp:229-242 | numbered names and numbered scores never share a key |
| TaskMessages.AddNumbered | lib/taskFactory/SocialGamingTaskFactory.cpp:173-179 | exactly the list is added under numbered keys, other entries stay |
| TaskMessages.HoldsOnce | lib/taskFactory/SocialGamingTaskFactory.cpp:174-179 | a message holds at most one list under a prefix |
| TaskMessages.ScoresMessage | lib/taskFactory/SocialGamingTaskFactory.cpp:223-244 | the message has the fixed entries, all names and the printed scores in order, and nothing else |
| TaskMessages.ScoreTextsRecoverable | lib/taskFactory/SocialGamingTaskFactory.cpp:223-244 | attribute, names and the texts of the scores can be told from the message |
| TaskMessages.ScoresRecoverable | lib/taskFactory/SocialGamingTaskFactory.cpp:223-244 | so can the scores, if it is known which are numbers, texts or truth values: number scores always can |
| TaskMessages.ScoresRecoverableIff | lib/taskFactory/SocialGamingTaskFactory.cpp:235-242 | without their types, the scores can be told if and only if each is a text that is not empty, reads as no number and does not end in the list separator |
| Printing.Stream.PrintValue | lib/variables/Variables.cpp:102-123 | the value's text and the delimiter are appended to the stream, the items of a list each followed by a separator |
| Printing.IntTextInjective | lib/variables/Variables.cpp:118 | different numbers have different texts |
| Printing.ToldFromTextIff | lib/variables/Variables.cpp:102-123 | a value can be told from its text if and only if it is such a text |
| Printing.ToldWithinType | lib/variables/Variables.cpp:118-120 | numbers, texts and truth values are each printed without loss |
| Printing.Confusions | lib/variables/Variables.cpp:113-120 | the number, the truth value and the text of 1 print alike, and so do two lists of texts |
| TaskMessages.InputMessage | lib/taskFactory/SocialGamingTaskFactory.cpp:159-194 | the message has prompt, type, the range if sent, all choices in order, and nothing else |
| TaskMessages.InputRecoverable | lib/taskFactory/SocialGamingTaskFactory.cpp:159-194 | prompt, type, choices and the range as far as it is sent can be told from the message |
| TaskMessages.RangeRecoverableIff | lib/taskFactory/SocialGamingTaskFactory.cpp:162-168 | the range can be told from the message if and only if neither bound is -1 |
| RockPaper.GetElements | src/controlflow.cpp:5-17 | the values under the key, in order |
| RockPaper.Collect | src/controlflow.cpp:26-45 | the entries with the value, in order |
| RockPaper.Contains | src/controlflow.cpp:47-57 | found if and only if it is in the list |
| RockPaper.CollectedMembers | src/controlflow.cpp:26-45 | collecting keeps just the entries with the value |
| RockPaper.CollectedDistinct | src/controlflow.cpp:26-45 | and no entry twice |
| RockPaper.ContainsIffCollects | src/controlflow.cpp:26-57 | a value is among the elements if and only if collecting by it finds somebody |
| RockPaper.WeaponsBeat | games/rockpaper.json:18-22 | rock beats scissors, paper rock, scissors paper |
| RockPaper.FindWinners | games/rockpaper.json:60-66 | the weapon loop extends the winners, for each weapon not chosen, with the players whose weapon it beats |
| RockPaper.WinnersExactly | games/rockpaper.json:60-70 | winners are a proper non-empty part of the players if and only if exactly two weapons were chosen, then exactly the holders of the beating one, none twice |
| RockPaper.PlayRound | games/rockpaper.json:60-72 | the tie branch is taken if and only if not exactly two weapons were chosen; otherwise the winners are those of the rules |
| RockPaper.ScoreRound | games/rockpaper.json:60-78 | each winner's count goes up by one, all other counts stay, nobody scores in a tie |

## Left out

- ExpressionEvaluator.FlatteningPreservesMeaning: for trees whose built-in calls are as long as the evaluator believes (`CallExactIffAligned`, `AlignedCalls`) and whose operators are in place (`FlattenDenoteIff`); the misplaced or is covered by `ExactIffNoShortCircuit` for value and cursor together, since the value alone can come out right by chance (`UnsafeByChance`).
- ExpressionSyntax.OperatorTokenIsOperator: only blanks stand before the operator, no comments; brackets around an operand are part of its text, and a bracketed expression without operator fields of its own is a leaf.
- ExpressionEvaluator.Evaluator.EvaluateBuiltIn: `contains`, `collect` and `upfrom` return the constants the source returns; exceptions and undefined behaviour (null receiver, overflowing sum, iterator past the end) are one failure value.
- ExpressionSyntax.ReadSound: names written with a dot are single names here; syntax errors of the tree-sitter grammar do not reach the compiler and are not modelled.
- EnvironmentManagerObject.EnvironmentManager.EnterScope: nodes are not null: the source opens a scope for a null node (lib/variables/EnvironmentMgr.cpp:90-91), but dereferences it when that scope is left (137), by itself or by a stop timer, or when null is entered again (245). Loop headers over unbound names and loops over something that is no list dereference null at once and are excluded too.
- EnvironmentManagerObject.EnvironmentManager.UpdateTimers: wall-clock time; which timers have fired, and which pads have expired, are parameters.
- EnvironmentLoops.LoopRunsOncePerItem: the body is any change of state that ends on the scopes it began with, keeps the loop's list and does not bind the loop variable outside the loop's scope (`BodyRunIsBalanced` says which runs of the manager's operations are such bodies); the loop variable is not bound before, and under a timer it is not the timer's flag.
- EventLoops.EventLoop: input lines are blank, malformed or good instead of texts matched by a regular expression; without enough good lines the loop reads for ever, so enough are asked for.
- Servers.Server.RegisterChannel: a new channel's address is one no registered channel has; sockets, HTTP routing and console prompts are events, and id counters do not overflow.
- Ambassadors.MsgQueue.Read: QueueClosedError (lib/ambassador/Ambassador.h:25) is handled by the reader but raised by no queue of the repository; closing is an event here.
- Ambassadors.MsgQueue.Write: messages are values; the JSON text of a response and the size limit of a message are not modelled, nor is the message the destructor sends.
- TaskMessages.JoinIds: an empty player list makes the source erase from an empty string, so the list is not empty here.
- TaskMessages.ScoresMessage: names and scores need not be equally many, as in the source.
- Printing.Stream.PrintValue: maps of strings, which print the addresses of their values, are not printed here, and lists are finite trees; a list that contains itself prints for ever.
- RockPaper.PlayRound: the rules are modelled as the game file states them; run by the environment manager, the loop over the constant weapons would use the list up in the first round.
- RockPaper.GetElements: the key is there in every entry, as the source takes for granted.
- RuleTrees.ParseTask: tasks come with the arguments their type has; quoting the first token of an argument without tokens is undefined in the source and leaves it empty here.
- ListUtils.ListObj.InsertAt: the wrappers' type tests, lists longer than an int can count, and copying of the inserted variant.
- `ListObjUtils::remove`, which throws even after erasing, and the comparison of list variables, which compares the first list with itself.
- `shuffle` and other random choices; the player cap, whose counter is never raised.
- Task factories, conversion of player inputs, argument type checks and settings parsing: easy members only.
- The client program, mock servers, the second copy of the ambassador, the demo and the main programs.
