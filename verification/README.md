# Workflow manager: a Dafny model of the depth-first task walk

The Python package `workflow_manager` runs a graph of named tasks. A `Task`
has a name, an ordered success list and an ordered failure list, and an
`execute()` that returns an outcome (`True` for success, `False` for
failure) and a payload. A `Manager` holds an initial task and an
accumulating trace (`_flow_path`). `run()` walks the graph depth-first from
the initial task. For each visit the walk logs `{name, parameters}`, executes
the task, and then drains its success list or its failure list front to back.
Four rules drive the walk:

- **de-duplication:** a successor whose name equals the name of the last
  trace entry is skipped;
- **chaining:** each sibling is entered with the outcome and payload the
  previous visited sibling returned;
- **short-circuit:** the success list stops at the first failing sub-walk,
  while the failure list never stops;
- **sticky failure:** arriving via Failure, or failing yourself, makes the
  walk report Failure.

The model has these modules:

- `Tasks` (`task.dfy`): the task tree, `execute`, the registration methods,
  the flow accessors and `to_dict`. `to_dict` is paired with an inverse
  (`FromDict`) and with `Skeleton`, the tree stripped of its work contracts.
- `ExampleTasks` (`example_task.dfy`): `SuccessTask` and `FailureTask`, the
  concrete tasks of the test suite.
- `Workflow` (`manager.py` → `manager.dfy`): the trace, the walk (`Walk`,
  mutually recursive with `Drain`, which drains one successor list) and the
  `Manager` operations.
- `WalkProperties`: how a drain composes, stops and chains, and what a walk
  reports.
- `TraceProperties`: the shape of the trace a walk appends.
- `Scenarios`: every scenario of the test suite, stated as the exact trace
  or dump, including building a manager with a task or registering one
  later.

Modelling choices:

- Tasks are immutable trees. A task registered in two lists is present in
  both. The walk and `to_dict` look only at names, edges and `execute`
  results, so nothing they can observe changes on an acyclic graph.
- `execute()` takes no arguments in the walk (`current_task.execute()`), so
  a concrete task's behaviour is a fixed `(outcome, payload)`. `SuccessTask`
  and `FailureTask` compute theirs from the name at construction time. The
  name is a read-only property, so this matches computing it on every call.
- The abstract `execute` raises `NotImplementedError`. The model carries
  this as `Raised(NotImplementedError)`. It propagates out of the walk and
  leaves the trace as logged so far. Python appends the entry before it
  executes, so the raising task's own entry is kept.
- `run()` without an initial task fails on `None.name` before it appends
  anything. The model returns `AttributeError` and leaves the manager
  unchanged.
- Trace `parameters` are a sequence of payloads: empty for the initial task
  (Python's `()`), and one payload for every other visit (Python's
  `(payload,)`).
- `show_executed_flow()` (`ShowExecutedFlow`) and the flow accessors return
  deep copies in Python. With immutable values a copy is the value itself.

## Model

| member | source | states |
|---|---|---|
| Tasks.StatesEncodeOutcomes | workflow_manager/task.py:46-52 | `success_state()` is True and `failure_state()` is False; the two booleans encode the two outcomes one-to-one |
| Tasks.NewTask | workflow_manager/task.py:41-44 | a fresh task takes the given name, or `'task'` when none is given; it is abstract and both successor lists are empty |
| Tasks.Execute | workflow_manager/task.py:72-73 | `execute` raises NotImplementedError exactly when the task is abstract; otherwise it yields the task's outcome and payload |
| Tasks.AbstractExecuteRaises | workflow_manager/task.py:72-73 | the base `execute` of any fresh task raises and never yields an outcome |
| Tasks.ExecuteIgnoresEdges | workflow_manager/task.py:72-73 | what `execute` yields depends on the task's work contract only, not on its registered successors |
| Tasks.AppendEach | workflow_manager/task.py:58-64 | the append loop leaves the old list as a prefix and puts every argument after it, in argument order |
| Tasks.OnSuccess | workflow_manager/task.py:58-60 | `on_success` appends the tasks, in order, to the end of the success list; name, behaviour and failure list are unchanged |
| Tasks.OnFailure | workflow_manager/task.py:62-64 | `on_failure` appends the tasks, in order, to the end of the failure list; name, behaviour and success list are unchanged |
| Tasks.FlowsReturnRegistrations | workflow_manager/task.py:66-70 | the flow accessors return exactly the registered tasks in registration order: nothing for a fresh task, and each registration call extends one flow only |
| Tasks.SuccessFlow | workflow_manager/task.py:66-67 | `success_flow` returns the registered success list: empty for a fresh task and extended by `on_success` only, as `FlowsReturnRegistrations` proves |
| Tasks.FailureFlow | workflow_manager/task.py:69-70 | `failure_flow` returns the registered failure list: empty for a fresh task and extended by `on_failure` only, as `FlowsReturnRegistrations` proves |
| Tasks.RegistrationsConcatenate | workflow_manager/task.py:58-64 | registering in two calls equals registering the concatenation in one, and success and failure registrations commute |
| Tasks.ToDict | workflow_manager/task.py:75-80 | the dump carries the task's name and as many child dumps in each flow as there are registered successors in the matching list (their contents are fixed by `ToDictFromDict` and `FromDictToDict`) |
| Tasks.ToDictFromDict | workflow_manager/task.py:75-80 | every dump is the dump of the tree it describes: `to_dict` after `FromDict` is the identity |
| Tasks.FromDictToDict | workflow_manager/task.py:75-80 | reading a dump back yields the task's skeleton: the dump keeps every name and edge and drops only the work contracts |
| Tasks.SkeletonKeepsDict | workflow_manager/task.py:75-80 | forgetting every work contract of a tree leaves its dump unchanged |
| Tasks.ToDictDependsOnlyOnSkeleton | workflow_manager/task.py:75-80 | two tasks have equal dumps if and only if they have the same names and edges |
| Tasks.ToDictOfNewTask | workflow_manager/task.py:41-44 | a fresh task dumps with empty success and failure flows |
| Tasks.ToDictOfOnSuccess | workflow_manager/task.py:58-60 | after `on_success` the success flow is the old one followed by the dumps of the registered tasks; name and failure flow are unchanged |
| Tasks.ToDictOfOnFailure | workflow_manager/task.py:62-64 | after `on_failure` the failure flow is the old one followed by the dumps of the registered tasks; name and success flow are unchanged |
| ExampleTasks.SuccessTask | tests/example_task.py:4-11 | a `SuccessTask` starts with no successors; its `execute` always succeeds with the seven-value payload `param from task <name> to next task` |
| ExampleTasks.FailureTask | tests/example_task.py:14-20 | a `FailureTask` starts with no successors; its `execute` always fails with the two-value payload `failure message from <name>` |
| ExampleTasks.ExecuteDependsOnlyOnName | tests/example_task.py:9-20 | a concrete task's `execute` is the same after any registrations; the payload identifies the task's name and its kind |
| Workflow.Walk | workflow_manager/manager.py:67-102 | a visit appends exactly one entry `(name, inbound parameters)` after the incoming trace, before anything its successors add; the only exception it can raise is NotImplementedError |
| Workflow.Drain | workflow_manager/manager.py:74-96 | draining a successor list only appends to the trace, and it raises nothing but NotImplementedError |
| Workflow.Init | workflow_manager/manager.py:30-39 | a new manager holds the given initial task, or none, and an empty trace |
| Workflow.RegisterInitialTask | workflow_manager/manager.py:41-42 | registering replaces the initial task with the given value, a task or `None`, and keeps the trace |
| Workflow.ShowFlow | workflow_manager/manager.py:44-45 | `show_flow` is None exactly when no initial task is set; otherwise it dumps like the initial task |
| Workflow.ShowExecutedFlow | workflow_manager/manager.py:47-49 | `show_executed_flow` returns the trace: empty for a new manager, kept by registering, and only extended by `run`, as `ExecutedFlowOnlyGrows` proves |
| Workflow.Run | workflow_manager/manager.py:51-65 | `run` keeps the initial task, so `show_flow` and `to_dict` do not change; without one it raises AttributeError and changes nothing; otherwise it keeps the old trace as a prefix and appends `(initial task, no parameters)` next |
| Workflow.ExecutedFlowOnlyGrows | workflow_manager/manager.py:39-65 | `show_executed_flow` starts empty; registering a task keeps it, and every `run` keeps it as a prefix and adds at least one entry when a task is set |
| WalkProperties.DrainSplits | workflow_manager/manager.py:76-96 | draining `a + b` is draining `a` and then, unless that stopped, draining `b` from the trace, outcome and payload `a` left |
| WalkProperties.ChildSeesPreviousSibling | workflow_manager/manager.py:76-96 | unless the drain stopped, each child is skipped if its name repeats the last entry, and otherwise is walked with the previous visited sibling's outcome and payload (the owner's own for the first child); the rest continue from its result |
| WalkProperties.RepeatedChildSkipped | workflow_manager/manager.py:77-81 | a successor whose name equals the last entry's name is neither logged nor executed and leaves trace, outcome and payload unchanged |
| WalkProperties.ChildLogged | workflow_manager/manager.py:69-72 | unless the drain stopped, a successor whose name does not repeat the last entry is logged with the payload its earlier siblings passed on, whatever they reported; on the failure list this holds for every such successor |
| WalkProperties.NothingAfterHalt | workflow_manager/manager.py:82-85 | once a success-list sub-walk fails (or anything raises), no later sibling is visited: the drain ends in that state |
| WalkProperties.WalkViaFailureFails | workflow_manager/manager.py:67-68 | a sub-walk entered via Failure reports Failure |
| WalkProperties.FailureDrainStaysFailure | workflow_manager/manager.py:86-96 | draining the failure list carries Failure from start to end |
| WalkProperties.EntryOutcomeIsListOutcome | workflow_manager/manager.py:73-96 | every child the drain considers is entered with the outcome of its own list: Success for the success list, Failure for the failure list |
| WalkProperties.SuccessDrainFailsIffChildFails | workflow_manager/manager.py:74-85 | the success list reports Failure if and only if a visited child's sub-walk reported Failure |
| WalkProperties.WalkOutcome | workflow_manager/manager.py:67-102 | a walk reports Success if and only if it was entered via Success, the task's own execute succeeded, and no visited success child's sub-walk failed |
| WalkProperties.UnvisitedDrainKeepsState | workflow_manager/manager.py:74-96 | a drain that logs nothing visited no child and reports the outcome and payload it started with |
| WalkProperties.LastVisitedChildDecides | workflow_manager/manager.py:82-83 | when child `i` is the last one logged, the drain reports exactly the outcome and payload child `i`'s sub-walk returned |
| WalkProperties.ChildlessWalkPassesOwnResult | workflow_manager/manager.py:73-102 | a walk that visits no successor passes on the task's own payload, with the task's own outcome unless it was entered via Failure |
| TraceProperties.WalkEntries | workflow_manager/manager.py:67-96 | the first new entry records the task's inbound parameters; every later entry carries exactly one payload and differs in name from its predecessor |
| TraceProperties.DrainEntries | workflow_manager/manager.py:76-96 | every entry a drain appends carries exactly one payload and differs in name from the entry before it |
| TraceProperties.WalkFollowsPreorder | workflow_manager/manager.py:67-96 | the names a walk logs are a subsequence of the tree's depth-first preorder (task, success subtrees, failure subtrees) |
| TraceProperties.DrainFollowsPreorder | workflow_manager/manager.py:74-96 | the names a drain logs are a subsequence of the list's preorder |
| TraceProperties.WalkPrunesTree | workflow_manager/manager.py:67-96 | the names a walk logs are a pruned preorder: the task, then, for an in-order selection of the successors in the list its own result selects (none when `execute` raises), each one's whole sub-walk, itself a pruned preorder |
| TraceProperties.DrainPrunesList | workflow_manager/manager.py:74-96 | the names a drain logs are the pruned preorders of an in-order selection of the list's tasks, one after the other |
| TraceProperties.ImplementedWalkReturns | workflow_manager/manager.py:73 | a walk over a tree whose tasks all implement `execute` never raises |
| TraceProperties.RunAppendsWalk | workflow_manager/manager.py:63-65 | one `run` appends the initial task with no parameters, then child entries; the names are a pruned preorder of the tree and a subsequence of its preorder, so no more entries than the tree has tasks; it does not raise when every task is implemented |
| Scenarios.TwoNodesSuccess | tests/test_workflow.py:79-110 | task 1 then task 2, with task 1's payload |
| Scenarios.SecondNodeFails | tests/test_workflow.py:113-150 | task 1, task 2, then task 4 from task 2's failure list |
| Scenarios.FirstNodeFails | tests/test_workflow.py:153-188 | task 1 then task 4 from its failure list |
| Scenarios.SuccessListChainsSiblings | tests/test_workflow.py:191-247 | task 1, 2, 5, 3, 5: task 3 receives task 5's payload |
| Scenarios.AdjacentRepeatSkipped | tests/test_workflow.py:250-291 | task 3, listed again right after it ran, is skipped |
| Scenarios.FailureListWithRepeat | tests/test_workflow.py:294-341 | task 1, 4, 6: the failure list's task 6 is skipped |
| Scenarios.FailureListDoesNotShortCircuit | tests/test_workflow.py:344-393 | task 4's sub-walk reports Failure, yet task 6 is still visited |
| Scenarios.SuccessListShortCircuits | tests/test_workflow.py:396-442 | task 2 fails, so its sibling task 3 is never visited |
| Scenarios.RunsAccumulate | workflow_manager/manager.py:39-65 | a second `run` appends to the first run's trace |
| Scenarios.AbstractRootRaises | workflow_manager/manager.py:63-73 | an abstract initial task is logged, then `run` raises NotImplementedError |
| Scenarios.NoInitialTask | tests/test_workflow.py:6-7 | without a task `show_flow` is None, and `run` raises AttributeError with the trace untouched |
| Scenarios.InitAndRegisterScenarios | tests/test_workflow.py:10-19 | a manager built with a task, or given one by `register_initial_task`, shows a flow that dumps like that task; registering `None` afterwards (workflow_manager/manager.py:41-42) makes `run` raise AttributeError and keeps the trace |
| Scenarios.ToDictScenarios | tests/test_workflow.py:22-76 | the exact dumps of the two- and three-task graphs |
| Scenarios.FreshTaskScenarios | tests/test_task.py:7-23 | default and given names, the empty dump of a fresh task, and the raising abstract `execute` |

## Left out

- `Task.__str__` (workflow_manager/task.py:82-83): JSON text formatting is
  left to Python's `json` library. `to_dict`, which it prints, is modelled.
- `copy.deepcopy` in `show_flow`, `show_executed_flow`, `success_flow` and
  `failure_flow`: with immutable values a copy is the value itself. Draining
  a copy cannot touch the task's own lists.
- Cyclic graphs and object aliasing: a task is a finite tree. On most
  cycles, `to_dict` and the walk do not terminate, and the tree type cannot
  express a cycle. Registering edges on a task after it was put into
  another task's list mutates the shared object in Python. The model builds
  each tree in its final state instead.
- Stateful or input-dependent `execute` implementations and the unused
  `**kwargs`: the walk calls `execute()` without arguments, so a task's
  result is a fixed outcome and payload.
- Python's recursion limit: `_execute_run` (workflow_manager/manager.py:82-83,
  95-96) and `to_dict` (workflow_manager/task.py:78-79) use at least one
  Python frame per tree level, and the `copy.deepcopy` in `success_flow` and
  `failure_flow` (workflow_manager/task.py:67, 70) about six, since it goes
  through the task's attribute dictionary and the successor list. At the
  root, `success_flow()` (workflow_manager/manager.py:75) copies the whole
  chain below it, so a chain a few hundred tasks deep (well under the
  default 1000-frame limit) makes `run` raise RecursionError. The model's
  `Walk`, `Drain`, `ToDict` and the flow accessors return on every finite
  tree.
- Outcomes other than `True` and `False`: the walk compares `execute`'s
  first value with `==`. The model has exactly two outcomes.
- Packaging (`setup.py`, `workflow_manager/setup.py`) and the `print` and
  pytest plumbing of the tests.
