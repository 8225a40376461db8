# Verified kernels of a JavaScript engine

A Dafny model of the self-contained algorithms of the engine goja, with proofs of what they are for. Where the
engine changes things in place (heap entries, byte buffers, slices with spare capacity, emitted code), the model
does so too: classes with mutable fields, arrays, loops. Each method is proved against a specification on values,
and the main results are lemmas about that specification, for all inputs and all runs.

`dafny verify dfyconfig.toml` checks the whole project.

## What is modelled

- **Ordered hash map** (`OrderedMapSpec.dfy`, `OrderedMap.dfy`). Hash chains and a doubly linked list threaded
  through mutable entries refine a finite map in insertion order. Iterators survive removals and `clear` by walking
  back over dead entries. Ghost insertion numbers state the invariant that makes this right: no live entry lies
  between a dead entry and the one its back pointer leads to.
- **Promises** (`PromiseSpec.dfy`, `PromiseProofs.dfy`, `PromiseCauses.dfy`, `JobQueue.dfy`, `Promise.dfy`; section 27.2
  of ECMA-262). A step system in which user code may call any resolving function at any time, also in the middle of an
  operation of the runtime.
  The rejection tracker of the host may do anything before it returns, or throw, and jobs may leave the runtime again,
  which drains the queue inside of a batch, or throw. The invariant counts the rights to settle a promise: unused pairs
  of resolving functions, queued thenable jobs, and calls of resolve that are reading `then`. It says which reactions
  have a job or wait for the tracker, which jobs wait in which batch, and what was lost with operations that ended.
  `PromiseCauses.dfy` says, over every run, exactly why a promise is settled as it is.
  `Promise.dfy` has the operations on promise objects, and `JobQueue.dfy` the queue and the batches, in arrays that are
  used again.
- **Promise.all, allSettled and any** (`PromiseAllSpec.dfy`, `PromiseAll.dfy`). The counting protocol. The three
  differ only in what is stored and in what is called at the end.
- **Typed arrays** (`TypedArraySet.dfy`; section 23.2.3 of ECMA-262). `set` between overlapping views of one buffer,
  for any element sizes and offsets and any conversion, against the reference that saves the source first; and the
  byte copy of `slice`.
- **Expression compiler** (`ExprSpec.dfy`, `ExprProofs.dfy`, `ExprLeaks.dfy`, `ExprCompiler.dfy`). Literals, unary
  operators (other than `delete`, `++` and `--`), binary operators, conditionals, sequences, `||`, `&&`, `??`, and any
  other expression as an instruction that pushes a value or throws. The emitted code is compared with direct
  evaluation, constant folding on the compiler's own machine included. What a name denotes depends on the world.
- **Scope analysis** (`ScopeSpec.dfy`, `ScopeCompiler.dfy`). Which scope a declared name belongs to, which bindings
  move to a stash, and the (level, slot) that each access is rewritten to when its function is complete; and what is in
  that place, in the stashes and in the frame of a call.
- **Statements** (`BranchSpec.dfy`, `BranchBlocks.dfy`, `BranchLayout.dfy`, `BranchMaking.dfy`, `BranchCompiler.dfy`,
  `BranchRuns.dfy`). The compiler of `if`, all loops, `switch`, `with`, `try`, labels, `break` and `continue`, with its
  lists of placeholders, and a machine for the instructions concerned. Two things are proved of the code. No run of
  it, in which any instruction may throw, loses track of what it is inside of: a *shape* says that for each position
  (`BranchSpec`, `BranchBlocks`). And it passes through the same expressions, tests and calls of iterators as direct
  execution of the statements: a *layout* says what the code of a statement looks like whichever way its placeholders
  are filled later, the methods of the compiler make such code (`BranchLayout`, `BranchMaking`), and such code does
  what the statements do (`BranchRuns`). `LabelSets.dfy` compares the programs that are refused with section 14.13
  of ECMA-262.
- **Property names** (`PropOrderSpec.dfy`, `PropNames.dfy`, `PropRuns.dfy`; section 10.1.11 of ECMA-262). Lazy
  sorting, and copy-on-write with a marker in the spare capacity of a shared backing array. Runs of additions,
  deletions and iterations report what snapshots in the order of enumeration give.
- **Arrays** (`Slices.dfy`, `ArraySpec.dfy`, `SparseArray.dfy`, `DenseArray.dfy`, `Arrays.dfy`). Two representations
  that switch at run time refine one model.
- **splice, copyWithin, reverse** (`ArrayBuiltins.dfy`). Generic versions on properties and fast ones on slots.
- **Integer powers** (`Ipow.dfy`). 64-bit arithmetic with explicit wrap-around.
- **Codecs** (`Utf.dfy`, `UriCodec.dfy`; section 3 of RFC 3629, section 19.2.6 and annex B.2.1 of ECMA-262).
- **Date parser** (`DateParser.dfy`). Termination, ranges, the offsets of time zones, and that the dates printed by
  toString and toUTCString are read back.

## Where the code does not do what it is for

Each is stated with the exact condition, and proved.

- A discarded `&&` whose left operand is a constant falsy value leaves that value on the stack
  (`compiler_expr.go:2673`). `ExprLeaks.EmitExprIsRightIff` says that emitted code is right exactly if its run
  reaches no such `&&`; `ExprLeaks.LeakExample` is a program that goes wrong; `ExprLeaks.CleanXNeverLeaks` is a
  condition on the source alone that excludes it.
- An error found while folding a constant is thrown by code that looks its name up where it runs
  (`compiler_expr.go:2401-2420`), so it is another error if the name has been assigned to.
  `ExprLeaks.EmitExprThrowsIff` says exactly when; `ExprLeaks.ShadowedExample` is such an input.
- The instruction that enters a finally block after its try block completed leaves the catch clause in force
  (`vm.go:4794-4798`), so that what the finally block throws is caught by the catch clause of the same statement, and
  the finally block is executed once more. `BranchRuns.TryDiffersIff` says exactly when a try statement is not executed
  as section 14.15 of ECMA-262 says; `BranchRuns.AgreeUnlessAstray` that nothing else differs;
  `BranchRuns.OwnCatchExample` is such a statement.
- A loop has only the last of the labels directly before it, so that `a: b: while (c) continue a` is refused
  (`compiler_stmt.go:61-85`). `LabelSets.RefusedIff` says exactly which legal programs are refused.
- The rejection tracker is called before the promise is marked as handled and before the job is queued
  (`builtin_promise.go:167-173`). A tracker that registers reactions with the promise is told again, and its reactions
  get their jobs first; if it throws, the reaction being registered never gets a job. `PromiseProofs.OneJobPerReaction`
  and `PromiseProofs.TrackerCalls` say exactly when; `PromiseProofs.ReenteringExample` and
  `PromiseProofs.ThrowingTrackerExample` are runs.
- A job that throws, because the tracker does or a function of a foreign capability, ends the loop that drains the
  batch (`runtime.go:2835-2846`): the jobs left in it are never started. `PromiseProofs.JobsAreFifoIff` accounts for
  them; `PromiseProofs.AbandoningExample` is a run.
- Go code called by a job with an empty call stack that calls back into the runtime drains the queue before the rest
  of the batch (`runtime.go:2519-2521`). `PromiseProofs.JobsAreFifoIff` says exactly when jobs start out
  of order; `PromiseProofs.OvertakingExample` is a run.
- `set` with an empty source panics if the source or the target range begins at the end of its buffer
  (`builtin_typedarrays.go:1018-1020`); `TypedArraySet.Set` says exactly when, and
  `TypedArraySet.EmptySourceExample` is such a call.
- The byte copy of `slice` repeats the source if the target begins inside of it, as ECMA-262 demands
  (`TypedArraySet.MoveUpwardRepeats`).
- The fast `splice` asks neither whether the array is extensible nor whether its length may be written
  (`builtin_array.go:1423-1433`). If more elements come than go, it adds them where the generic one throws; or it throws
  as well, but only after it has changed the slice, which leaves elements above the length of the array.
  `ArrayBuiltins.SpliceBothWays` says exactly when the two agree; `ArrayBuiltins.ReadOnlyLengthExample` is a call where
  they do not.
- `ipow` gives 0 for powers that are exactly -2^63, other than the first; `pow` then goes on in floating point,
  where that value is exact too.
- The date parser accepts months and days up to 31 without further checks.

## Model

| member | source | states |
|---|---|---|
| `OrderedMapSpec.FindIs` | map.go:26-34 | looking a key up finds the one entry whose key is the same, for any hash that agrees with that |
| `OrderedMapSpec.GetAfterSet` | map.go:36-68 | after a write a key reads the new value exactly if it is the same key once -0 has become 0; every other key reads what it did |
| `OrderedMapSpec.GetAfterRemove` | map.go:61-104 | after a removal exactly the keys that are the same as the removed one are gone; every other key reads what it did |
| `OrderedMapSpec.GetAfterClear` | map.go:157-169 | after a clear no key is there and no entry is left |
| `OrderedMapSpec.KeysAfterSet` | map.go:36-59 | overwriting a key leaves all keys in their places; a new key comes last, -0 as 0 |
| `OrderedMapSpec.SetKeepsWellFormed` | map.go:36-59 | a write never creates a second entry for a key, and new entries get the highest insertion number |
| `OrderedMapSpec.RemoveKeepsWellFormed` | map.go:70-104 | a removal keeps insertion order and uniqueness of keys |
| `OrderedMapSpec.NextIs` | map.go:111-136 | the entry an iterator must return next is the first live one at or above its cursor |
| `OrderedMapSpec.NextKeepsIterInv` | map.go:111-136 | one call of next keeps: entries came in insertion order, the end stays reported, everything passed by was returned |
| `OrderedMapSpec.StepKeepsIterInv` | map.go:36-169 | so does every set, remove and clear between the calls |
| `OrderedMapSpec.RunKeepsIterInv` | map.go:36-169 | and hence every interleaving of them |
| `OrderedMapSpec.IterationTheorem` | map.go:36-169 | over any interleaving of set, remove, clear and next: entries come in insertion order, none twice; once finished the iterator stays finished; every entry still live that lies before the point reached was returned, those added meanwhile included |
| `OrderedMapSpec.IterationAfterClear` | map.go:111-169 | whatever an iterator had returned before a clear, and whatever happens afterwards, it returns only what was inserted after the clear |
| `OrderedMaps.OrderedMap.constructor` | map.go:143-148 | a new map is empty and its heap is well-formed |
| `OrderedMaps.OrderedMap.Lookup` | map.go:26-34 | walking a hash chain finds the entry of the key and its predecessor in the chain, or that no live entry has the key and where the chain ends; also under collisions |
| `OrderedMaps.OrderedMap.Get` | map.go:61-68 | agrees with the insertion-ordered finite map |
| `OrderedMaps.OrderedMap.Has` | map.go:106-109 | tells whether the finite map has the key |
| `OrderedMaps.OrderedMap.ChainLast` | map.go:45-49 | linking behind the last entry of a chain keeps every entry in the chain of its hash |
| `OrderedMaps.OrderedMap.LinkLast` | map.go:50-57 | linking at the end keeps the doubly linked list equal to the live entries in insertion order |
| `OrderedMaps.OrderedMap.Insert` | map.go:40-57 | the new entry is the last live one; chains, list, size and the back pointers of dead entries stay right |
| `OrderedMaps.OrderedMap.Overwrite` | map.go:38-39 | only the value of that entry changes |
| `OrderedMaps.OrderedMap.Set` | map.go:36-59 | refines the write of the finite map and keeps the heap invariant |
| `OrderedMaps.OrderedMap.Unlink` | map.go:76-86 | takes one entry out of the list; its own back pointer survives |
| `OrderedMaps.OrderedMap.Unchain` | map.go:88-97 | takes one entry out of its hash chain and leaves every other chain alone |
| `OrderedMaps.OrderedMap.Detach` | map.go:72-99 | a removed entry becomes dead; no live entry lies between a dead entry and where its back pointer leads |
| `OrderedMaps.OrderedMap.Remove` | map.go:70-104 | refines the removal of the finite map and reports whether there was anything to remove |
| `OrderedMaps.OrderedMap.KillAll` | map.go:157-164 | the loop of clear reaches every live entry, although it cuts the forward links as it goes |
| `OrderedMaps.OrderedMap.Clear` | map.go:157-169 | the map is empty, its size is 0, and every former entry still leads iterators back to the start |
| `OrderedMaps.OrderedMapIter.TrackBack` | map.go:117-121 | walking back over dead entries terminates at the latest live entry that is not after the one returned last |
| `OrderedMaps.OrderedMapIter.Next` | map.go:111-136 | returns the live entry with the smallest insertion number above that of the entry returned last, or finishes for good, whatever happened to the map in between |
| `OrderedMaps.OrderedMapIter.PositionAfter` | map.go:123-127 | the forward link taken leads to the entry the finite map returns next |
| `OrderedMaps.Replay` | map.go:26-169 | for any sequence of calls on a map and an iterator the iterator returns what it returns on the finite map |
| `PromiseProofs.SettledAtMostOnce` | builtin_promise.go:85-143 | in every run, with arbitrary callbacks: the history holds one settlement of a settled promise and none of a pending one; unused resolving pairs, queued thenable jobs, resolve calls still reading `then`, and those of them lost with operations that were ended add up to exactly 1 for a pending promise and to 0 for a settled one |
| `PromiseProofs.SettledForever` | builtin_promise.go:85-143 | once settled, state and result never change in any continuation of any run |
| `PromiseProofs.OneJobPerReaction` | builtin_promise.go:153-198 | in every run, for a settled promise: its reactions are those that got one job each, of the kind of its state and with its result, those whose registration waits for the rejection tracker, and those whose registration was ended because the tracker threw or an error could not be caught. The jobs are in the order of registration unless the promise was handled already when the tracker returned to a registration, and are exactly the registrations in order if and only if none of this is the case |
| `PromiseProofs.TrackerCalls` | builtin_promise.go:123-174 | the rejection tracker is called for a promise exactly if it is rejected with nothing registered before; first with Reject, then only with Handle, as soon as something is registered; and more than one Handle if and only if reactions were registered before the tracker ever returned from the first |
| `PromiseProofs.ReenteringExample` | builtin_promise.go:167-173 | a tracker that registers a reaction itself: that one gets its job first, and the tracker is told Handle twice |
| `PromiseProofs.ThrowingTrackerExample` | builtin_promise.go:167-173 | a tracker that throws when it is told Handle: the reaction never gets a job |
| `PromiseProofs.JobsAreFifoIff` | runtime.go:2835-2846 | in every run each queued job is started once, or still waits, or was left in a batch that was given up; those started and waiting are in the order in which they were queued unless one was started while a batch further out had jobs left; and they are all that were queued, in order, if and only if neither happened |
| `PromiseProofs.OvertakingExample` | runtime.go:2505-2527 | a job whose Go code calls back into the runtime with an empty call stack drains the queue: a job queued later starts before one left in the outer batch |
| `PromiseProofs.AbandoningExample` | runtime.go:2835-2846 | a function of a foreign capability throws: leave does not catch that, and the rest of the batch is never started |
| `PromiseProofs.JobsAreFifo` | runtime.go:2835-2846 | in every run in which no job leaves the runtime, jobs start in the order in which they were queued, and if no batch was given up none is missing |
| `PromiseCauses.FulfilledIff` | builtin_promise.go:85-143 | over every run: a promise is fulfilled with v exactly if one of its resolve functions was called with v, the first call of its pair, v is not the promise, and v is no object or reading its `then` yielded nothing callable |
| `PromiseCauses.RejectedIff` | builtin_promise.go:85-134 | over every run: rejected with v exactly if one of its reject functions was called with v, the first call of its pair, or it was resolved with itself, or with an object whose `then` threw v when it was read |
| `PromiseCauses.ThenableJobIff` | builtin_promise.go:97-112 | over every run: a job that calls then_ on v to resolve a promise was queued exactly if the promise was resolved with the object v and reading v.then yielded then_ |
| `PromiseCauses.ThenableLeavesPending` | builtin_promise.go:97-112 | a `then` that can be called leaves the promise pending, with one more job |
| `PromiseCauses.ThenableStarts` | builtin_promise.go:176-188 | a thenable job gets a new pair of resolving functions of its promise |
| `PromiseCauses.RegisteredIff` | builtin_promise.go:153-174 | over every run: reactions are registered with a promise exactly by calls of then, the first handler for fulfilment, the second for rejection |
| `PromiseCauses.ReactionJobIs` | builtin_promise.go:190-232 | a reaction job is for a settled promise, is of the kind of its state, and has its result |
| `PromiseCauses.StepCauses` | builtin_promise.go:85-232 | one step settles a promise exactly for one of these reasons; a reaction without a handler passes on the state of its promise |
| `PromiseProofs.StepKeepsInv` | builtin_promise.go:85-270 | every step of the runtime, of the tracker or of user code keeps the invariant: rights to settle, histories, order of jobs |
| `PromiseProofs.RunKeepsInv` | builtin_promise.go:85-270 | and so does every run |
| `PromiseProofs.SettlingKeepsRights` | builtin_promise.go:123-143 | settling with a right in hand finds the promise pending and uses up its only right |
| `PromiseProofs.SettlingKeepsInv` | builtin_promise.go:123-143 | settling keeps the whole invariant, and only a pending promise is ever settled |
| `PromiseProofs.SettlingKeepsHistories` | builtin_promise.go:123-143 | settling queues exactly the jobs owed to the reactions registered so far |
| `PromiseProofs.MarkResolvedKeepsInv` | builtin_promise.go:89-92 | the first call of either function of a pair takes the right of the pair; later calls do nothing |
| `PromiseProofs.CallResolveKeepsInv` | builtin_promise.go:88-112 | calling resolve keeps the invariant, whether it settles, waits for `then` or comes too late |
| `PromiseProofs.CallRejectKeepsInv` | builtin_promise.go:113-120 | calling reject keeps the invariant |
| `PromiseProofs.GotThenKeepsInv` | builtin_promise.go:97-111 | whatever reading `then` gives, the right goes on to a rejection, a thenable job or a fulfilment |
| `PromiseProofs.EnqueueThenableKeepsInv` | builtin_promise.go:105-108 | a queued thenable job holds the right to settle |
| `PromiseProofs.TakeJobKeepsInv` | runtime.go:2836-2843 | taking a job off the innermost batch, or off the queue when that batch is empty, keeps the invariant with the right of a thenable job in hand |
| `PromiseProofs.TakenIs` | runtime.go:2836-2843 | the jobs that wait, around the one taken: those before it are the ones left in batches further out |
| `PromiseProofs.RunJobKeepsInv` | builtin_promise.go:176-232 | running a job keeps the invariant; a thenable job turns its right into a new pair |
| `PromiseProofs.RegisteringKeepsInv` | builtin_promise.go:153-174 | registering reactions keeps the invariant, up to the call of the tracker if there is one |
| `PromiseProofs.RegisteringKeepsHistories` | builtin_promise.go:153-174 | reactions registered late get their job at once, or once the tracker has been told |
| `PromiseProofs.TrackerDoneKeepsInv` | builtin_promise.go:123-134 | when the tracker returns, whatever it did, the operation it was called by goes on and keeps the invariant; that is out of turn exactly if the promise is handled by then |
| `PromiseProofs.LateRegistered` | builtin_promise.go:167-173 | one more registration with a rejected promise: one more reaction that has a job or waits for the tracker, ahead of those that wait already |
| `PromiseProofs.DeliverKeepsInv` | builtin_promise.go:224-230 | handing a result to the capability of a reaction keeps the invariant |
| `PromiseProofs.NewPromiseKeepsInv` | builtin_promise.go:234-270 | a new promise comes with one pair and nothing else that refers to it |
| `PromiseProofs.InterruptKeepsInv` | runtime.go:2505-2518 | an uncatchable error that ends any number of operations, and may drop the queue, keeps the invariant: what the operations held is accounted for |
| `PromiseProofs.ThrowKeepsInv` | runtime.go:2835-2846 | so does a tracker, or a job, that throws |
| `PromiseProofs.TriggerEffect` | builtin_promise.go:194-198 | reactions are queued one job each, in order |
| `Promises.Runtime.TriggerPromiseReactions` | builtin_promise.go:194-198 | the loop queues what the step system says |
| `Promises.Runtime.RejectPromise` | builtin_promise.go:123-134 | the promise object is settled, and the jobs queued or the tracker called, as in the step system |
| `Promises.Runtime.TrackerReturned` | builtin_promise.go:130-132 | the rest of reject or of addReactions, once the tracker returned |
| `Promises.Runtime.FulfillPromise` | builtin_promise.go:136-143 | likewise for a fulfilment |
| `Promises.Runtime.CreatePromise` | builtin_promise.go:234-260 | a new promise object and its pair |
| `Promises.Runtime.Resolve` | builtin_promise.go:88-112 | the resolve function up to where it reads `then` |
| `Promises.Runtime.ResolveGotThen` | builtin_promise.go:99-111 | the rest of it, for each outcome of that read; what it settles, and when, is FulfilledIff, RejectedIff and ThenableJobIff |
| `Promises.Runtime.RejectWith` | builtin_promise.go:113-120 | the reject function |
| `Promises.Runtime.Then` | builtin_promise.go:153-174 | addReactions on the promise object, up to the call of the tracker if there is one |
| `Promises.Runtime.NextJob` | runtime.go:2836-2843 | leave takes the next job of its batch; after the last it takes the whole queue as the next batch and leaves its array for the next queue |
| `Promises.Runtime.Leave` | runtime.go:2835-2839 | leave may be called at any time, also inside of a job: a batch inside of the batches being drained |
| `Promises.Runtime.LeaveDone` | runtime.go:2838-2846 | it ends when neither its batch nor the queue holds a job |
| `Promises.Runtime.RunJob` | builtin_promise.go:176-232 | a job up to its first call into user code |
| `Promises.Runtime.FinishThenable` | builtin_promise.go:179-186 | a thenable job whose callback threw rejects through its pair |
| `Promises.Runtime.FinishHandler` | builtin_promise.go:213-230 | the result of a handler, or what it threw, goes to the capability |
| `Promises.Runtime.LeaveAbrupt` | runtime.go:2848-2852 | an uncatchable error ends operations, and drops the queue when it gets out of the runtime |
| `Promises.Runtime.TrackerThrew` | builtin_promise.go:167-173 | a tracker that throws ends the registration or the rejection |
| `Promises.Runtime.LeaveThrew` | runtime.go:2838-2843 | a job that throws ends leave, and what is left of its batch is lost |
| `Promises.Runtime.Perform` | builtin_promise.go:85-270 | any step of the runtime refines the step system, keeps the invariant, and leaves every settled promise object as it is |
| `JobQueues.JobQueue.Append` | builtin_promise.go:190-192 | append, in place or in another array, changes no batch being drained, whatever arrays were used before |
| `JobQueues.JobQueue.Enter` | runtime.go:2835-2837 | leave begins without an array |
| `JobQueues.JobQueue.Next` | runtime.go:2838-2843 | the array of a batch is used again for the queue only once all its jobs have been started, and no array ever has two uses |
| `JobQueues.JobQueue.Exit` | runtime.go:2844-2846 | leave ends with a new queue |
| `JobQueues.JobQueue.Cut` | runtime.go:2848-2852 | batches that are given up leave the others as they are |
| `PromiseAllSpec.StepKeepsInv` | builtin_promise.go:408-437 | the counter is 1 while iterating plus the number of element functions not yet called, and slots hold first values |
| `PromiseAllSpec.CallKeepsInv` | builtin_promise.go:417-428 | element functions that are called at once, late, repeatedly or never keep that |
| `PromiseAllSpec.RunKeepsInv` | builtin_promise.go:403-438 | and so does every run |
| `PromiseAllSpec.AllCalled` | builtin_promise.go:433-436 | nothing is missing exactly if every element function was called |
| `PromiseAllSpec.DeliveredOnce` | builtin_promise.go:403-438 | in every run the result is delivered at most once: exactly when iteration has finished and every element function was called, with the first value of each element in its own slot; if iteration throws, never |
| `PromiseAlls.PromiseAll.OnElement` | builtin_promise.go:417-428 | the element function on the captured variables |
| `PromiseAlls.PromiseAll.Begin` | builtin_promise.go:412-415 | a slot is appended before promiseResolve runs |
| `PromiseAlls.PromiseAll.Create` | builtin_promise.go:416-430 | the counter goes up before `then` is called |
| `PromiseAlls.PromiseAll.Finish` | builtin_promise.go:432-436 | the counter goes down once at the end of iteration |
| `PromiseAlls.PromiseAll.Fail` | builtin_promise.go:394-401 | anything thrown while iterating rejects |
| `TypedArraySet.ShrinkingIsSafe` | builtin_typedarrays.go:1034-1046 | for a smaller target size, upward from the split and then downward below it, no write touches a source element still to be read |
| `TypedArraySet.GrowingIsSafe` | builtin_typedarrays.go:1034-1054 | for a larger one, upward to the split and then downward to it, neither |
| `TypedArraySet.EqualIsSafe` | builtin_typedarrays.go:1023-1032 | for equal sizes, in the direction that is chosen, neither |
| `TypedArraySet.SplitFacts` | builtin_typedarrays.go:1034-1039 | the split index against the byte distance of the two views, with truncation toward zero and clamping |
| `TypedArraySet.HoldsIsUnique` | builtin_typedarrays.go:1040-1054 | a buffer is determined by its elements in the target range and its bytes outside, so the order of conversion does not matter |
| `TypedArraySet.SetFromCloneHolds` | builtin_typedarrays.go:1017-1055 | the reference writes every element converted from the saved source and nothing else |
| `TypedArraySet.ConvertUp` | builtin_typedarrays.go:1041-1043 | an upward loop converts its elements as from the saved source if it touches no source element still unread |
| `TypedArraySet.ConvertDown` | builtin_typedarrays.go:1044-1046 | so does a downward loop |
| `TypedArraySet.ConvertAll` | builtin_typedarrays.go:1017-1055 | for any element sizes, any byte offsets in one buffer or two, and any conversion: exactly the bytes that converting from a saved copy of the source gives |
| `TypedArraySet.Copy` | builtin_typedarrays.go:1013-1015 | for the same constructor, the built-in copy gives those bytes too |
| `TypedArraySet.Set` | builtin_typedarrays.go:998-1056 | the whole of set with a typed source: which error, if any, exactly; nothing is written unless it succeeds; then the bytes are those of the saved copy. An empty source of another constructor panics exactly if its address or that of the target is behind the end of a buffer |
| `TypedArraySet.EmptySourceExample` | builtin_typedarrays.go:1018-1020 | an empty view at the end of its buffer as a source: set panics |
| `TypedArraySet.MoveUpwardIsCopy` | builtin_typedarrays.go:1103-1104 | slice: unless the target starts inside of the source, moving byte by byte is the same as copying |
| `TypedArraySet.MoveUpwardRepeats` | builtin_typedarrays.go:1105-1110 | slice: if it does, the source repeats with the distance as its period |
| `TypedArraySet.SliceBytes` | builtin_typedarrays.go:1093-1111 | both branches of slice give what moving byte by byte gives |
| `ExprProofs.GetterRuns` | compiler_expr.go:2548-2755 | code of emitGetter that reaches no leak falls through to its end with exactly the value of direct evaluation pushed, or nothing if discarded; or throws the same error in the same world |
| `ExprProofs.ExprRuns` | compiler_expr.go:3299-3305 | the same for emitExpr, which folds |
| `ExprProofs.EvalConstRight` | compiler_expr.go:2433-2466 | running the emitted code on the compiler's own machine gives what evaluating a constant expression gives, in every world |
| `ExprProofs.ConstPure` | compiler_expr.go:2570-2695 | what counts as constant, unary expressions with a constant operand included, neither depends on the world nor changes it |
| `ExprProofs.ThrowRuns` | compiler_expr.go:2401-2420 | the code emitted for an error found while folding looks the name of the error up where it runs, constructs what is found there, and throws that |
| `ExprProofs.BuildRuns` | compiler_expr.go:2401-2420 | the name, its message and the call of the constructor leave the new object on the stack, or throw what the lookup or the constructor throws |
| `ExprLeaks.GetterLeads` | compiler_expr.go:2548-2755 | any emitted code leads at least as deep on the stack as it should, and strictly deeper if it reaches a leak |
| `ExprLeaks.GetterIsRightIff` | compiler_expr.go:2548-2755 | for an expression that completes, emitGetter's code is right on every stack if and only if it reaches no discarded && with a constant falsy left operand |
| `ExprLeaks.EmitExprIsRightIff` | compiler_expr.go:3299-3305 | the same for emitExpr |
| `ExprLeaks.EmitExprThrowsIff` | compiler_expr.go:2401-2431 | an expression that throws, with no leak before it, makes its code throw the same error in the same world if and only if the error was not found while folding, or its name still constructs that error |
| `ExprLeaks.BuiltInRebuilds` | compiler_expr.go:2405-2413 | it does if the name still denotes the built-in constructor |
| `ExprLeaks.ShadowedExample` | compiler_expr.go:2405-2413 | and need not if it has been assigned to: then a constant expression that throws a TypeError throws something else once compiled |
| `ExprLeaks.FoldingIsRight` | compiler_expr.go:2433-2466 | folding yields what evaluation at run time would, and leaves the world alone |
| `ExprLeaks.CleanNeverLeaks` | compiler_expr.go:2668-2691 | no && with a constant falsy left operand, unary ones included, in a discarded position of the source is enough, in every world |
| `ExprLeaks.CleanXNeverLeaks` | compiler_expr.go:3299-3305 | the same for emitExpr |
| `ExprLeaks.LeakExample` | compiler_expr.go:2671-2674 | 1 + (false && f(), 5) compiles to code that ends with a value too many |
| `ExprCompiler.RunShift` | compiler_expr.go:2450-2453 | code does the same wherever in a program it stands, so it may be appended for folding |
| `ExprCompiler.Compiler.EmitUnary` | compiler_expr.go:2472-2545 | the code of a unary expression: !, ~ and typeof fold nothing in their operand, - and + do, and void discards its value |
| `ExprCompiler.Compiler.EmitConditional` | compiler_expr.go:2548-2558 | emitting holes and patching them gives the code of a conditional with its jumps right |
| `ExprCompiler.Compiler.EmitJumping` | compiler_expr.go:2600-2690 | likewise for &#124;&#124;, && and ?? with a left operand that is not constant |
| `ExprCompiler.Compiler.EmitConstantLeft` | compiler_expr.go:2586-2680 | with a constant one, folding decides which code is emitted |
| `ExprCompiler.Compiler.EmitGetter` | compiler_expr.go:2376-2755 | the compiler appends exactly the code proved right above |
| `ExprCompiler.Compiler.EmitExpression` | compiler_expr.go:3299-3305 | the same for emitExpr |
| `ExprCompiler.Compiler.EvaluateConst` | compiler_expr.go:2433-2466 | folding emits into the program, runs, and cuts the program back to what it was, also when it is nested |
| `ExprCompiler.Compiler.Constant` | compiler_expr.go:2570-2695 | whether an expression is constant, unary ones included; asking leaves the program as it was |
| `ExprCompiler.Compiler.EmitConstant` | compiler_expr.go:2422-2431 | emits the folded value, nothing, or the throw |
| `ExprSpec.TruthyIs` | compiler_expr.go:2548-2695 | exactly six kinds of values count as false, and two as missing |
| `ScopeSpec.LevelLeadsToScope` | compiler.go:633-638 | going up as many stashes as the level says leads to the stash of the scope of the binding |
| `ScopeSpec.PlaceIsTheBindings` | compiler.go:631-711 | from any use the (level, slot) of a binding leads to its own scope, and there to a slot inside of the stash that no other binding has |
| `ScopeSpec.StashSlotsDiffer` | compiler.go:631-711 | two bindings in one stash never share a slot |
| `ScopeSpec.SlotsDiffer` | compiler.go:712-721 | two stack bindings of one function that are in scope together never share a slot, nor take that of `this` |
| `ScopeSpec.OffsetsGrow` | compiler.go:820-822 | the slots of a block are above those of all blocks around it |
| `ScopeSpec.SlotLeadsToCell` | compiler.go:712-721 | in the frame of a call (this, the arguments, the locals of the scopes entered) the slot of parameter i leads to argument i, and that of any other binding to its own local, from every block of the function and with any number of arguments |
| `ScopeSpec.LocalAt` | compiler.go:712-721 | the slot of a binding is the place of its cell among those that entering the function and its blocks reserves |
| `ScopeSpec.MovedArgumentSlot` | vm.go:3762-3773 | if the arguments are moved to the stash, parameter i has slot i, to which argument i is copied |
| `ScopeSpec.ResolveSame` | compiler.go:615-824 | an access once resolved stays right however the scopes still open change |
| `ScopeSpec.StateKept` | compiler.go:615-824 | so do all accesses, resolved and unresolved |
| `ScopeSpec.EnteredKeeps` | compiler.go:365-384 | entering a scope keeps the tree well-formed |
| `ScopeSpec.AddedKeeps` | compiler.go:539-562 | so does a new binding |
| `ScopeSpec.MovedKeeps` | compiler.go:268-275 | so does moving a binding to the stash |
| `ScopeSpec.UsedKeeps` | compiler.go:131-135 | a new access from the current scope is recorded, and stays unresolved until its function is finished |
| `ScopeCompiler.UseOfStashIsRight` | compiler.go:615-824 | at the end, an access from another function is to the stash; an access to a stash walks the chain of stash-owning scopes to the scope of its binding and there to the slot of that binding and no other |
| `ScopeCompiler.UseOfStackIsRight` | compiler.go:712-816 | an access to the stack goes to the cell of its binding in the frame: a parameter to its argument, `this` to the base, any other to its own local, which no binding shares that is in scope together with it |
| `ScopeCompiler.PlaceFits` | compiler.go:639-642 | an access that is not nested too deeply packs into 32 bits |
| `ScopeCompiler.CrossesOut` | compiler.go:506-508 | a use crosses a function boundary out of a scope exactly if the scope is a function or it was crossed before |
| `ScopeCompiler.StillRefers` | compiler.go:479-510 | what a name refers to does not change when flags do |
| `ScopeCompiler.Compiler.EnterScope` | compiler.go:365-384 | a scope inside of the current one |
| `ScopeCompiler.Compiler.AddBinding` | compiler.go:539-548 | a new binding of the current scope or one around it, refused exactly when the slot would not fit into 24 bits; accesses already resolved stay right |
| `ScopeCompiler.Compiler.BindNameLexical` | compiler.go:550-562 | a name has one binding in its scope: a second declaration is refused exactly if it has to be the only one, and else changes nothing |
| `ScopeCompiler.Compiler.BindName` | compiler.go:570-579 | the loop ends at the nearest function or scope for variables, and the name has its one binding there; it is refused exactly when the slot would not fit into 24 bits |
| `ScopeCompiler.Compiler.MoveArgsToStash` | compiler.go:826-835 | all parameters of a function move together, and nothing else |
| `ScopeCompiler.Compiler.MoveToStash` | compiler.go:268-275 | the binding is in the stash afterwards, and no flag is ever cleared |
| `ScopeCompiler.Compiler.LookupName` | compiler.go:479-510 | finds the innermost binding of the name, which is in the stash if a function boundary lies between; or no scope but the global one has it |
| `ScopeCompiler.Compiler.Access` | compiler.go:107-135 | an access is recorded with the binding the name refers to |
| `ScopeCompiler.Compiler.DirectEval` | compiler_expr.go:3086-3096 | everything around a direct call of eval can be looked up by name |
| `ScopeCompiler.Compiler.LevelOf` | compiler.go:633-638 | the loop over outer scopes counts the stashes in between |
| `ScopeCompiler.Compiler.FinaliseBinding` | compiler.go:632-642 | every access to the binding is rewritten, no other instruction is, and it fails exactly if one is nested too deeply |
| `ScopeCompiler.Compiler.FinaliseOwn` | compiler.go:620-819 | the counters give each binding the slot the specification gives it |
| `ScopeCompiler.Compiler.FinaliseVarAlloc` | compiler.go:615-824 | all accesses to bindings of a scope and of the blocks inside of it are resolved, and no others are touched; it fails exactly if one is nested too deeply |
| `ScopeCompiler.Compiler.LeaveFunction` | compiler.go:615-835 | at the end of a function what it declares becomes final |
| `ScopeCompiler.Compiler.Finish` | compiler.go:615-824 | at the end of the program every access to every binding is resolved |
| `BranchSpec.StepKeepsTrack` | vm.go:4760-4817 | one instruction, or an exception at it, leaves execution inside of exactly the scopes, try statements and iterations its position says |
| `BranchSpec.ExecKeepsTrack` | vm.go:4760-5174 | each instruction that enters or leaves something does so |
| `BranchSpec.LeavesKeepTrack` | vm.go:4778-4817 | leaving a try, by way of its finally block if it has one, comes back to where it was left |
| `BranchSpec.HandleKeepsTrack` | vm.go:800-844 | an exception leads to a catch or finally block with everything inside of the try undone, or out of the program |
| `BranchSpec.RunKeepsTrack` | vm.go:759-844 | no run of code that agrees with its shapes gets stuck or loses track, whatever throws and whichever way the tests go |
| `BranchSpec.SameInsideAtSamePlace` | compiler_stmt.go:618-659 | two runs that meet at one position, however they got there, are inside of the same |
| `BranchBlocks.MidLeave` | compiler.go:341-352 | patching the lists of a block into jumps keeps all other placeholders accounted for |
| `BranchBlocks.MidEnd` | compiler.go:341-352 | a statement that is complete has left no placeholder of its own |
| `BranchBlocks.MidAddBreak` | compiler_stmt.go:649-653 | a placeholder on the list of a block agrees with where that block will send it |
| `BranchBlocks.MidAddCont` | compiler_stmt.go:655-659 | likewise for continue |
| `BranchCompiler.LandsRight` | compiler_stmt.go:618-647 | undoing all crossed blocks leaves exactly what normal arrival at the target is inside of; a continue of a for loop keeps the scope shared by its iterations |
| `BranchCompiler.StillLandsRight` | compiler_stmt.go:635-637 | also when the blocks got placeholders on the way |
| `BranchCompiler.TargetIffLegal` | compiler_stmt.go:572-616 | a break or continue has a target among the blocks exactly if, by the rule of the compiler, its label is in force for it, or a loop or switch is around |
| `BranchCompiler.LabelIffNamed` | compiler_stmt.go:66-70 | a label is in use exactly if an open block has it |
| `BranchCompiler.CompiledCodeKeepsTrack` | compiler_stmt.go:61-1123 | no run of compiled code meets a placeholder, jumps out of range or loses track; where it ends it is inside of nothing; and wherever two runs meet they are inside of the same |
| `BranchCompiler.NothingWaits` | compiler.go:341-352 | at the end of a program no placeholder is left |
| `BranchCompiler.Compiler.FindBreakBlock` | compiler_stmt.go:572-616 | the innermost block the branch is about, or none exactly if there is none |
| `BranchCompiler.Compiler.UndoBlock` | compiler_stmt.go:627-644 | one crossed block is undone once |
| `BranchCompiler.Compiler.EmitBlockExitCode` | compiler_stmt.go:618-647 | each crossed block is undone exactly once, innermost first, and nothing else is emitted |
| `BranchCompiler.Compiler.CompileBranch` | compiler_stmt.go:649-659 | break and continue: the exit code and one placeholder on the right list, which together lead to the target; an error exactly if there is no target |
| `BranchCompiler.Compiler.PatchJumps` | compiler.go:343-350 | every placeholder of a list, and nothing else, becomes a jump to the one position |
| `BranchCompiler.Compiler.LeaveBlock` | compiler.go:341-352 | breaks go to the end of the block and continues to its continue position |
| `BranchCompiler.Compiler.LeaveScopeBlock` | compiler.go:327-339 | ways out of a scope leave it with the instruction that normal flow leaves it with |
| `BranchCompiler.Compiler.CompileWhile` | compiler_stmt.go:499-542 | breaks land behind the loop, continues at its test; fails exactly if the body is illegal by the rule of the compiler |
| `BranchCompiler.Compiler.CompileDoWhile` | compiler_stmt.go:217-231 | breaks land behind the loop, continues at its test |
| `BranchCompiler.Compiler.CompileFor` | compiler_stmt.go:252-351 | breaks land behind the loop, continues at its update: the code is laid out as init, test, body, update, jump back |
| `BranchCompiler.Compiler.CompileForLexical` | compiler_stmt.go:252-351 | breaks leave the scope of the iterations, continues stay in it and go to where it is copied, if it is in a stash, and then to the update |
| `BranchCompiler.Compiler.CompileForInOf` | compiler_stmt.go:407-481 | breaks land where the iteration is closed, continues where it advances; normal ends skip the closing |
| `BranchCompiler.Compiler.CompileTry` | compiler_stmt.go:105-201 | the catch and finally positions are those of the clauses, and agree with what execution is inside of there |
| `BranchCompiler.Compiler.CompileFinally` | compiler_stmt.go:187-200 | the position of the finally block excludes the instruction that enters it |
| `BranchCompiler.Compiler.CompileSwitch` | compiler_stmt.go:1013-1123 | each test leads to its own case, the rest to the default or to the end |
| `BranchCompiler.Compiler.CompileCases` | compiler_stmt.go:1107-1116 | each case is the target of its own jump |
| `BranchCompiler.Compiler.CompileWith` | compiler_stmt.go:993-1011 | a with statement is entered and left on every way through it |
| `BranchCompiler.Compiler.CompileIf` | compiler_stmt.go:680-728 | the consequent is executed if the test holds, the alternate otherwise, and both join inside of the same |
| `BranchCompiler.Compiler.CompileLabelled` | compiler_stmt.go:61-85 | a label in use is refused; a loop takes the label directly before it, as the rule of the compiler has it |
| `BranchCompiler.Compiler.CompileStatement` | compiler_stmt.go:10-59 | compilation fails exactly on programs that are illegal by the rule of the compiler, keeps the code before and the blocks around intact, and otherwise makes code that is laid out, once its placeholders are filled, as the statement demands |
| `BranchCompiler.Compile` | compiler_stmt.go:10-1123 | a whole program: refused exactly if a branch has no target or a label is used twice, by the rule of the compiler; otherwise all instructions agree with the shapes, and the code is laid out so that CodeFollowsProgram applies |
| `LabelSets.RefusedIff` | compiler_stmt.go:61-85 | that rule against the standard, in which a loop has all labels directly before it: a program is refused exactly if the standard refuses it, or if some continue names a label of a loop around it that is not the last one before the loop |
| `LabelSets.LegalHere` | compiler_stmt.go:572-590 | the same for every statement, in any labels and loops around it |
| `LabelSets.LegalLoopHere` | compiler_stmt.go:61-85 | and for a loop with the labels directly before it, of which the compiler knows the last |
| `LabelSets.OuterLabelExample` | compiler_stmt.go:61-85 | a: b: while (c) continue a; is legal and refused |
| `BranchLayout.PopFills` | compiler.go:341-352 | what fills the placeholders after a block was left fills those before, with the breaks of the block going to its end and its continues to its continue position |
| `BranchMaking.BranchMade` | compiler_stmt.go:618-659 | the exit code of a break or continue, once filled, undoes the blocks in between and leads to where the breaks or continues of the target go |
| `BranchMaking.ForMade` | compiler_stmt.go:252-351 | the code of a for loop: init, test, body, update, jump back; continues go to the update |
| `BranchMaking.ForLexicalMade` | compiler_stmt.go:252-351 | with declarations: the scope is entered once and copied before the first test and before each update; continues go to that copy |
| `BranchMaking.SwitchedMade` | compiler_stmt.go:1076-1116 | the tests of a switch, each leading to its own case, and the jump taken if none succeeds, to the default or to the end |
| `BranchRuns.StatementRuns` | compiler_stmt.go:10-59 | the code of a statement does what direct execution of the statement does, wherever it ends: at its end, on the way out of a break or continue, or with an exception |
| `BranchRuns.RoundsRun` | compiler_stmt.go:252-351 | while and for: test, body, update, in this order, from wherever a continue comes |
| `BranchRuns.EachRuns` | compiler_stmt.go:407-481 | for-in and for-of: an iteration is closed by every way out but its end and exceptions |
| `BranchRuns.SelectRuns` | compiler_stmt.go:1076-1104 | a switch goes to the first case whose test succeeds, otherwise to the default, wherever that stands |
| `BranchRuns.TryRuns` | compiler_stmt.go:105-201 | try, catch and finally, on every way into the finally block and out of it |
| `BranchRuns.FinallyRuns` | vm.go:4778-4817 | a finally block that completes goes on with what it interrupted: the end, a break or continue, or an exception; otherwise it replaces that |
| `BranchRuns.CodeFollowsProgram` | compiler_stmt.go:10-1123 | whatever is chosen at every expression, test and step of an iterator: what n steps of the machine pass through is a beginning of what direct execution passes through, and if that ends, the machine ends likewise |
| `BranchRuns.AgreeUnlessAstray` | vm.go:4794-4798 | direct execution as the machine does it is that of the standard, unless a finally block throws after its try block completed and there is a catch clause |
| `BranchRuns.TryDiffersIff` | vm.go:4794-4798 | a try statement is executed as the standard says exactly if that does not happen |
| `BranchRuns.OwnCatchExample` | vm.go:4794-4798 | such a statement: its own catch clause catches what its finally block throws, and the finally block is executed again |
| `PropOrderSpec.FixSorts` | object.go:1334-1359 | after fixPropOrder: a permutation of the names, array indices first and ascending, all others in insertion order |
| `PropOrderSpec.InsertCounted` | object.go:1336-1357 | each step of the lazy sort keeps both counters valid |
| `PropOrderSpec.InsertKeepsNames` | object.go:1339-1354 | and moves names without losing any or disturbing the order of those that are no indices |
| `PropOrderSpec.DeleteCounted` | object.go:419-424 | a deletion keeps the counters of the sorted prefix valid |
| `PropOrderSpec.CountedAppend` | object.go:498-500 | so does an addition |
| `PropOrderSpec.NoIndexIff` | object.go:608-616 | the index count is 0 exactly if no name is an array index |
| `PropNames.IterationYields` | object.go:1189-1200 | over a whole iteration each call reports the next snapshot name still present at that moment, in snapshot order and none twice |
| `PropNames.PropIter.Next` | object.go:1189-1200 | one call does so, with the value of that moment, although the backing array is shared; the end releases the array and leaves the list of the object alone. An iteration begun on an empty list has no marker; its first call, before anything else is done to the object, ends it and changes nothing |
| `PropNames.PropIter.End` | object.go:1236-1240 | clearing the marker changes neither the list of the object nor the snapshot of any other iteration; nor does the end of an iteration begun on a list that is still empty |
| `PropNames.PropTable.CopyNamesIfNeeded` | object.go:1242-1256 | afterwards an append can reach neither a snapshot nor the marker of an iteration under way |
| `PropNames.PropTable.Add` | object.go:494-502 | the name is appended and no iteration under way sees it |
| `PropNames.PropTable.Delete` | object.go:404-428 | the name is gone, the others keep their order, the counters stay valid, and no iteration under way sees it |
| `PropNames.PropTable.Drop` | object.go:409-418 | in place only if no iteration under way can see the array |
| `PropNames.PropTable.MoveName` | object.go:1342-1354 | moving an index name forward copies the array first if an iteration can see it |
| `PropNames.PropTable.FindSlot` | object.go:1339-1341 | bisection finds the place among the sorted indices |
| `PropNames.PropTable.FixPropOrder` | object.go:1334-1359 | the in-place sort computes the order proved right above, and no iteration under way sees it |
| `PropNames.PropTable.EnsurePropOrder` | object.go:1321-1325 | the same names, the others in their old order, all sorted |
| `PropNames.PropTable.HasNoIndices` | object.go:608-616 | the shortcut is taken exactly if no property name is an array index |
| `PropNames.PropTable.PrepareNamesForCopy` | object.go:1213-1230 | the list is marked, in an array that no other iteration uses |
| `PropNames.PropTable.StartIter` | object.go:1258-1266 | the snapshot is the list of all property names in the order of the standard |
| `PropRuns.InOrderIs` | object.go:1334-1359 | the order of enumeration, written down on its own: the array indices ascending, and the same names |
| `PropRuns.AscendingIsUnique` | object.go:1334-1359 | two ascending lists of the same index names are the same |
| `PropRuns.SortedIsInOrder` | object.go:1334-1359 | so what fixPropOrder leaves is that order, however often names were added and deleted while it was partly sorted |
| `PropRuns.RemoveIsWithout` | object.go:409-418 | removing a name where it stands is removing it from the order of insertion |
| `PropRuns.Perform` | object.go:404-515 | every put, delete, start, next and question for indices does to the table, and to every iteration, what it does to the model |
| `PropRuns.Replay` | object.go:404-1359 | for any sequence of puts, deletions, starts, calls of next on any of the iterations, and questions for indices, the mutable table and its iterators report what the model does, in which each iteration walks a snapshot in the order of enumeration |
| `PropRuns.StateIsHistory` | object.go:404-515 | after any run a property has the value that was put last, unless it was deleted since, and the names are in the order in which they were added; overwriting does not add |
| `PropRuns.ItemIsLastPut` | object.go:1189-1200 | what an iteration yields is a name with the value that was put last |
| `ArraySpec.ReadsLastWrite` | array.go:214-257 | after any run of assignments, deletes and length writes an index reads what was last assigned to it, unless it was deleted or cut off since |
| `ArraySpec.LengthIsLastLength` | array.go:71-135 | after any run the length is the last one written while it was writable, raised to i + 1 by each later successful assignment at an i not below it; no element is at or above it |
| `ArraySpec.ReportsFollowHistory` | array.go:71-257 | every command of a run reports what the history alone says: an assignment succeeds exactly if the index has an element, or the array is extensible and the index is below the length or the length is writable; a length write exactly if the length is writable; and what is read |
| `ArraySpec.RunKeepsValid` | array.go:81-116 | no element is ever at or above the length |
| `SparseArrays.ElemsIs` | array_sparse.go:27-31 | a sorted list of items is determined by the elements it holds |
| `SparseArrays.InsertElems` | array_sparse.go:142-150 | inserting where findIdx says keeps the items sorted and unique, and adds that element only |
| `SparseArrays.UpdateElems` | array_sparse.go:192-202 | overwriting an item changes that element only |
| `SparseArrays.RemoveElems` | array_sparse.go:393-408 | closing the gap keeps the items sorted and removes that element only |
| `SparseArrays.TruncateElems` | array_sparse.go:55-62 | cutting at findIdx removes exactly the elements at or above the new length |
| `SparseArrays.PresentIff` | array_sparse.go:88-95 | an element exists exactly if the item found has its index |
| `SparseArrays.SparseArray.FindIdx` | array_sparse.go:27-31 | bisection finds the first item at or above the index |
| `SparseArrays.SparseArray.GetIdx` | array_sparse.go:88-95 | reads what the model reads |
| `SparseArrays.SparseArray.Truncate` | array_sparse.go:33-67 | refines the cut of the model |
| `SparseArrays.SparseArray.SetLength` | array_sparse.go:80-86 | refines the length write, refused exactly if the length is read-only |
| `SparseArrays.SparseArray.Add` | array_sparse.go:142-150 | refines a new element |
| `SparseArrays.SparseArray.DeleteIdx` | array_sparse.go:393-408 | refines the deletion |
| `SparseArrays.SparseArray.ShouldSwitch` | array_sparse.go:317-336 | the new slice covers every element, within the length |
| `SparseArrays.SparseArray.Extend` | array_sparse.go:173-177 | the length grows just enough, or the write is refused |
| `DenseArrays.CollectFacts` | array_sparse.go:275-285 | collecting the non-empty slots gives sorted items holding the same elements |
| `DenseArrays.DenseArray.GetIdx` | array.go:170-179 | reads what the model reads |
| `DenseArrays.DenseArray.Truncate` | array.go:98-111 | refines the cut; slots behind the end are empty, so that extending the slice later exposes no stale value |
| `DenseArrays.DenseArray.SetLength` | array.go:129-135 | refines the length write |
| `DenseArrays.DenseArray.DeleteIdx` | array.go:464-479 | refines the deletion |
| `DenseArrays.DenseArray.Expand` | array.go:347-379 | the slice reaches the index, or a sparse array with the same elements takes over |
| `DenseArrays.DenseArray.ToSparse` | array.go:355-364 | the sparse array has the same contents, length and flags |
| `DenseArrays.DenseArray.SetOwnIdx` | array.go:214-257 | refines the assignment, also when the representation switches |
| `DenseArrays.DenseArray.Fill` | array.go:552-558 | a slice made from sparse items holds exactly their elements |
| `Arrays.ArrayObject.SetSparse` | array_sparse.go:152-204 | refines the assignment, also when the representation switches |
| `Arrays.ArrayObject.MoveToDense` | array_sparse.go:322-333 | the dense array that takes over has the old elements and the new one |
| `Arrays.ArrayObject.SetOwnIdx` | array.go:206-257 | an assignment does to either representation what it does to the model |
| `Arrays.ArrayObject.SetLength` | array.go:118-135 | so does a write of the length |
| `Arrays.ArrayObject.DeleteIdx` | array.go:464-479 | so does a deletion |
| `Arrays.ArrayObject.Perform` | array.go:81-257 | so does every command |
| `Arrays.ArrayObject.Replay` | array.go:81-558 | any run reports and leaves what the model does, through any number of switches in both directions, and each report is what the history before it says |
| `IntegerPower.TableIsExact` | ipow.go:5-22 | for exponents 1 to 62 the table holds exactly the largest base whose power fits |
| `IntegerPower.TableDecides` | ipow.go:48-50 | the check against the table decides exactly whether the power is at most 2^63-1 in magnitude, except for the base -2^63 |
| `IntegerPower.LargeNeverFits` | ipow.go:36-46 | with exponents of 63 and more only the bases 0, 1 and -1 have powers that fit |
| `IntegerPower.HighestBit` | ipow.go:24-33 | the table of digits is right, so that the switch is entered at the right case |
| `IntegerPower.SquaringIsPow` | ipow.go:54-97 | repeated squaring computes the power |
| `IntegerPower.FactorsAreSmall` | ipow.go:56-60 | while the power fits, no product on the way wraps around |
| `IntegerPower.Refused` | ipow.go:48-50 | what the check refuses does not fit, wrap-around of -base included |
| `IntegerPower.Admitted` | ipow.go:48-50 | what it admits fits, but for the base -2^63 |
| `IntegerPower.LastBit` | ipow.go:90-96 | after the last case the result is the power |
| `IntegerPower.Bit` | ipow.go:55-89 | each case moves one bit of the exponent into the result |
| `IntegerPower.Ipow` | ipow.go:35-98 | the power whenever it fits into 2^63-1 in magnitude, the base itself for exponent 1, and otherwise 0, never a wrong value; nothing wraps around for bases above -2^63 |
| `IntegerPower.PowOfIntegers` | builtin_math.go:185-199 | the integer path of pow is taken exactly if the exponent is not negative and the power fits or the exponent is 1, and is then exact |
| `Utf.DecodeRuneOfUtf8` | builtin_global.go:184-193 | decoding the UTF-8 of a scalar value gives it back, whatever follows |
| `Utf.Utf8OfDecodeRune` | builtin_global.go:185-190 | what decoding does not reject is the UTF-8 of the rune it gives |
| `Utf.DecodeAllIff` | builtin_global.go:183-193 | bytes are decoded exactly if they are the UTF-8 of something, and to that |
| `Utf.ReadAllOfUtf16` | string_unicode.go:117-141 | reading the UTF-16 of scalar values gives them back |
| `Utf.Utf16OfReadAll` | string_unicode.go:117-141 | and what is read is the UTF-16 of what is given |
| `UriCodec.TablesFit` | builtin_global.go:551-576 | for both pairs of tables: what the encoder leaves alone or the decoder restores never conflicts |
| `UriCodec.TablesAre` | builtin_global.go:551-576 | the characters left alone, by their codes |
| `UriCodec.HexIs` | builtin_global.go:148-177 | the digits of an escape, in either case |
| `UriCodec.MalformedIff` | builtin_global.go:125-142 | decoding refuses a text for its escapes exactly if somewhere a percent sign begins none |
| `UriCodec.ReservedStayEscaped` | builtin_global.go:148-177 | escapes of reserved characters stay, all others are replaced |
| `UriCodec.DecodeUriOfComponent` | builtin_global.go:221-239 | decodeURI(encodeURIComponent(s)) is s with just the reserved characters escaped |
| `UriCodec.UnpercentEncoded` | builtin_global.go:66-177 | undoing the escapes of an encoding gives the UTF-8 of the text |
| `UriCodec.DecodeUndoesEncode` | builtin_global.go:66-195 | decoding undoes encoding for every sequence of scalar values and any pair of tables that fit |
| `UriCodec.UnpercentLength` | builtin_global.go:148-148 | the buffer of the second pass is exactly as long as needed |
| `UriCodec.Measure` | builtin_global.go:66-93 | the first pass computes the length of the encoding; it fails exactly on a lone surrogate, and finds nothing to do only if the encoding is the string |
| `UriCodec.EncodeUri` | builtin_global.go:66-123 | both passes together: the encoding, with the buffer filled exactly, or the string itself, or an error exactly on malformed input |
| `UriCodec.CountEscapes` | builtin_global.go:127-142 | the first pass of decoding counts the escapes to replace, and fails exactly at a malformed one |
| `UriCodec.Replace` | builtin_global.go:148-177 | the second fills its buffer exactly, and knows whether anything but ASCII remains |
| `UriCodec.DecodeBytes` | builtin_global.go:183-194 | the last pass decodes UTF-8 strictly; a literal U+FFFD is no error |
| `UriCodec.DecodeUri` | builtin_global.go:125-195 | all passes together decode as specified |
| `UriCodec.RoundTrip` | builtin_global.go:221-239 | decodeURI(encodeURI(s)) and decodeURIComponent(encodeURIComponent(s)) are s for every well-formed s, and an error for every other |
| `UriCodec.UnescapeEscaped` | builtin_global.go:241-307 | the escape of one unit, followed by anything, is read back as that unit |
| `UriCodec.UnescapeUndoesEscape` | builtin_global.go:241-330 | unescape(escape(s)) is s for every sequence of UTF-16 units, lone surrogates included |
| `UriCodec.UnescapeSameIff` | builtin_global.go:265-330 | unescape leaves a text as it is exactly if no escape begins anywhere in it |
| `UriCodec.EscapeString` | builtin_global.go:241-263 | the loop of escape writes the escape of each unit |
| `UriCodec.UnescapeString` | builtin_global.go:265-330 | the loop of unescape, switching from bytes to 16-bit units half-way, reads every escape |
| `ArrayBuiltins.RelToIdx` | builtin_array.go:61-66 | within the length, itself if not negative, and counted from the end otherwise |
| `ArrayBuiltins.SpliceIs` | builtin_array.go:494-524 | moving the tail and writing the items leaves prefix, items and suffix, holes included |
| `ArrayBuiltins.SpliceIsGeneric` | builtin_array.go:431-530 | what the fast path of splice leaves, and takes out, is what the generic one does |
| `ArrayBuiltins.SpliceAllowedIff` | builtin_array.go:494-524 | the generic splice may put all elements it leaves exactly if every move and every item may be put |
| `ArrayBuiltins.SpliceAddsIff` | builtin_array.go:494-524 | on an array without holes, splice puts no element where none may be put exactly if no more come than go or the array takes new ones at its end |
| `ArrayBuiltins.SpliceBothWays` | builtin_array.go:431-530 | both versions of splice on one array without holes take out the same; and they leave the same array, or both throw and leave the same, if and only if no more elements come than go, or the array is extensible and its length may be written and can hold the new one (or the new length is too large for any object, when neither begins) |
| `ArrayBuiltins.ReadOnlyLengthExample` | builtin_array.go:1423-1433 | [1, 2, 3] with a length that may not be written and splice(0, 0, 9): both throw, the generic one leaves [1, 2, 3], the fast one four elements in an array of length 3 |
| `ArrayBuiltins.ObjectLike.Set` | array.go:214-257 | a write throws exactly if it would add an element and the object is not extensible, or an array would have to grow and its length may not be written; an array grows with it |
| `ArrayBuiltins.ObjectLike.SetLength` | array.go:71-135 | a write of the length: refused exactly if the length may not be written or no array can have it; elements above it go |
| `ArrayBuiltins.NoHolesNothingAdded` | builtin_array.go:1423-1433 | on such arrays copyWithin and reverse add nothing, so their fast versions agree with the generic ones |
| `ArrayBuiltins.ObjectLike.Shift` | builtin_array.go:494-518 | the moving loops, in either direction, move every element and every hole and leave nothing behind; they throw exactly if an element would be put where none may be, and if that is the first one moved upwards, nothing has changed |
| `ArrayBuiltins.ObjectLike.TakeOut` | builtin_array.go:487-492 | what is taken out, holes included |
| `ArrayBuiltins.ObjectLike.Splice` | builtin_array.go:431-530 | the generic splice of an array or another object: prefix, items, suffix, the length, and what is returned; exactly when it throws, be it while moving, while putting the items, at the length in the end, or at once |
| `ArrayBuiltins.SpliceSlots` | builtin_array.go:460-485 | in place or in a new array: prefix, items and suffix, with the slots behind the end empty |
| `ArrayBuiltins.MoveTail` | builtin_array.go:461-472 | the overlapping copy moves the tail, and the slots freed are emptied |
| `ArrayBuiltins.SpliceDense` | builtin_array.go:431-530 | the fast splice, which asks neither whether the array is extensible nor whether its length may be written: contents, what is returned, and exactly when the write of the length at the end throws; then the array is still an array if and only if no more elements came than went |
| `ArrayBuiltins.ObjectLike.CopyWithin` | builtin_array.go:1045-1082 | the generic copyWithin equals copying from a snapshot, holes moved as deletes, and throws exactly if it would add an element to an object that is not extensible |
| `ArrayBuiltins.CopyWithinDense` | builtin_array.go:1057-1063 | so does the fast one |
| `ArrayBuiltins.CopyIsGeneric` | builtin_array.go:1057-1063 | both copy the same |
| `ArrayBuiltins.ObjectLike.Exchange` | builtin_array.go:950-972 | two elements, or holes, change places |
| `ArrayBuiltins.ObjectLike.Reverse` | builtin_array.go:974-980 | the generic reverse, holes included, and exactly when it throws for an object that is not extensible |
| `ArrayBuiltins.ReverseDense` | builtin_array.go:984-990 | the fast reverse |
| `ArrayBuiltins.AllMirrored` | builtin_array.go:974-980 | half of the length exchanged is the whole reversed |
| `DateParser.ParseDateOtherString` | date_parser.go:247-426 | terminates on every byte string because each pass strictly shortens what is left, and gives the date that the passes, one after another, make of the string |
| `DateParser.UtcStringIsReadBack` | date_parser.go:247-426 | what toUTCString prints (date.go:11) is read back: every date, from its year to its seconds |
| `DateParser.LocalStringIsReadBack` | date_parser.go:247-426 | what toString prints (date.go:10) is read back, with any offset below a day and any zone name |
| `DateParser.YearStep` | date_parser.go:264-284 | a year of four digits or more, negative or not, is taken as the year |
| `DateParser.ClockStep` | date_parser.go:284-318 | hours, minutes and seconds are taken as such |
| `DateParser.ParseSigned` | date_parser.go:264-284 | what a number after a sign adds, an offset after a time and otherwise a year; the sign is always consumed |
| `DateParser.ParseUnsigned` | date_parser.go:284-332 | what a number adds: a time, a year, or a number to be assigned later; a digit is always consumed |
| `DateParser.ParseWord` | date_parser.go:332-368 | what anything else adds: a month, a zone, or nothing; it is consumed, except that a slash at the start of a word may be left to the separators |
| `DateParser.WordOrSlash` | date_parser.go:366-367 | skipping a word consumes something unless it begins with a slash |
| `DateParser.SkipAll` | date_parser.go:369-371 | separators at the front are consumed |
| `DateParser.GetDigits` | date_parser.go:53-63 | as many digits as there are up to the maximum, with their value, unless too few |
| `DateParser.GetMilliseconds` | date_parser.go:65-81 | the first three digits of a fraction, as milliseconds; the rest is consumed and ignored |
| `DateParser.GetTimeZoneOffset` | date_parser.go:84-125 | the offset at the start, if it has one of the allowed forms and is in range |
| `DateParser.OffsetBound` | date_parser.go:113-116 | no accepted offset is more than 23 hours and 59 minutes in magnitude, and each consumes something |
| `DateParser.OffsetIsReadBack` | date_parser.go:84-125 | every offset below a day, written with or without a colon, is read back |
| `DateParser.HourIsReadBack` | date_parser.go:296-316 | every hour of the day, printed on a clock of twelve with am or pm, is read back |
| `DateParser.FullYearIs` | date_parser.go:314-324 | years of two digits are those from 1950 to 2049 |
| `DateParser.Match` | date_parser.go:35-51 | a prefix is matched exactly if it is the same but for the case of letters |
| `DateParser.GetTimeZoneAbbr` | date_parser.go:151-158 | the first abbreviation that matches, with its offset |
| `DateParser.GetMonth` | date_parser.go:175-182 | the month whose name is at the start |
| `DateParser.Assign` | date_parser.go:373-425 | which of the numbers found is the month, the day and the year, in every case: with none, one, two or three numbers, and with and without the name of a month |

## Left out

Of the modelled parts:

- BranchCompiler.Compile: expressions are steps with an outcome, told apart by names; their values, the results of
  statements (`needResult`), `return`, and temporaries on the value stack are left out.
- BranchRuns.CodeFollowsProgram: instructions that run no other code do not throw there (in the runs of BranchSpec they
  may), and the calls that close iterators while an exception is handled are not seen.
- BranchCompiler.Compiler.CompileTry: finally blocks whose own statements contain a branch are left out
  (the `breaking` blocks of `compiler_stmt.go:113-123`), and so is the form in which a catch parameter goes
  straight into a stash, which enters the same scope by another instruction.
- BranchCompiler.Compiler.CompileWhile: tests that are constantly false, or throw while being folded, are left out
  with `enterDummyMode`, in which only the innermost block record is replaced (`compiler.go:1343-1361`). The same
  holds for `for` and `if`.
- BranchCompiler.Compiler.CompileForInOf: that the scope of the declared names is needed while the source is
  evaluated is an input; the scopes are modelled separately.
- ScopeCompiler.Compiler.LookupName: `arguments` is not treated specially.
- ScopeCompiler.Compiler.FinaliseVarAlloc: all functions emit into one code sequence; `this` in constructors of
  derived classes, the deletion of bindings, bindings that shadow others of their scope, and the adjustment of
  positions when code is trimmed are left out. Lookups of `this` are lookups of one more name.
- ExprCompiler.Compiler.EmitGetter: `delete`, `++` and `--` are left out (`delete` of a constant operand is folded to
  true without evaluating it, `compiler_expr.go:319-324`), and so is `typeof` of a reference. Operators on primitive
  operands raise TypeError or RangeError only, as `emitThrow` asserts; positions in the source are left out.
- Arrays.ArrayObject.Perform: elements are plain data; prototypes, accessors and attributes of elements are left
  out (`array.go:440-442` and `array_sparse.go:363-371` do not carry their count across a switch), and so are 32-bit
  platforms. Where the element count is a multiple of 2^32 but not 0, `array.go:353` would divide by zero; the model
  switches to a sparse array.
- ArrayBuiltins.ObjectLike.Splice: an object has no inherited elements and its elements can be written and
  deleted; array species are left out. The fast versions require an array whose slice has the length of the array;
  holes are allowed.
- PropNames.PropTable.StartIter: attributes of properties, symbols and inherited names are left out.
- PropRuns.Replay: how a name is read as an array index is an input; different index names have different indices, as
  canonical numerals do.
- Promises.Runtime.Perform: user code is the environment; `async` functions appear as reactions without a
  capability, and context trackers are left out. `promiseResolve`, `finally` and `race` are calls of what is modelled.
  Tickets and frames stand for closures and for the stack of Go.
- PromiseAlls.PromiseAll.OnElement: closing the iterator is left out.
- TypedArraySet.Set: detached buffers and array-like sources are left out, and so is the overflow of the sum of
  source length and target offset; the addresses of buffers are inputs.
- OrderedMaps.OrderedMap.Remove: writes that do not depend on each other are in another order.
- IntegerPower.PowOfIntegers: what happens after it goes on in floating point is left out.
- UriCodec.EncodeUri: the string library is left out; strings are sequences of UTF-16 units, and UTF-8 encoding and
  decoding of one rune are definitions.
- DateParser.LocalStringIsReadBack: which fields a point in time has, and what is done with those read
  (`date.go:28-55`), is left out.

Not modelled at all:

- Library functions of Go: `sort.Search` is modelled as bisection, `copy`, `append` and the growth of slices as
  definitions.
- parseInt: its integer part is a plain accumulation, the rest floating point.
- The form of dates of ISO 8601, and conversion of dates to time values.
- Generators, async functions, regular expressions, proxies, Go reflection wrappers, templates, the profiler, weak
  maps, symbols: other machinery, library code or easy members.
