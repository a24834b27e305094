/**
 * The workflow manager: an optional initial task, an accumulating trace of
 * visits, and the depth-first walk that `run` performs from the initial task.
 */
module Workflow {
  import opened Wrappers
  import opened Tasks

  /** One visit: the task's name and the parameters it was entered with. */
  datatype Entry = Entry(name: string, parameters: seq<Payload>)

  /** The executed flow, in visiting order. */
  type Trace = seq<Entry>

  /** The trace after a (partial) walk, and what the walk reports. */
  datatype Step = Step(trace: Trace, status: Status)

  datatype Manager = Manager(root: Option<Task>, trace: Trace)

  /** What `run` leaves behind: the manager, and the exception it raised, if any. */
  datatype RunResult = RunResult(manager: Manager, raised: Option<Error>)

  /**
   * Adjacency de-duplication: a successor is skipped when its name is the name
   * of the most recent trace entry.
   */
  predicate RepeatsLast(trace: Trace, name: string)
  {
    |trace| > 0 && trace[|trace| - 1].name == name
  }

  /** Whether the list drained for `branch` stops at the first failing sub-walk. */
  predicate ShortCircuits(branch: Outcome)
  {
    branch == Success
  }

  /**
   * `_execute_run(task, inbound, *params)`: log the visit, execute the task,
   * drain the list its outcome selects, and report Failure if the task was
   * entered via Failure or failed itself.
   */
  function Walk(t: Task, inbound: Outcome, params: seq<Payload>, trace: Trace): (r: Step)
    ensures |r.trace| > |trace|
    ensures r.trace[..|trace| + 1] == trace + [Entry(t.name, params)]
    ensures r.status.Raised? ==> r.status.error == NotImplementedError
    decreases t, 1
  {
    var logged := trace + [Entry(t.name, params)];
    match Execute(t)
    case Raised(e) => Step(logged, Raised(e))
    case Done(Success, payload) =>
      var s := Drain(SuccessFlow(t), Success, logged, Success, payload);
      if s.status.Done? && inbound == Failure then Step(s.trace, Done(Failure, s.status.payload)) else s
    case Done(Failure, payload) =>
      var s := Drain(FailureFlow(t), Failure, logged, Failure, payload);
      if s.status.Done? then Step(s.trace, Done(Failure, s.status.payload)) else s
  }

  /**
   * The `while len(flow) > 0: flow.pop(0)` loop over the list selected by
   * `branch`, threading the current outcome and payload from sibling to sibling.
   */
  function Drain(kids: seq<Task>, branch: Outcome, trace: Trace, outcome: Outcome, payload: Payload): (r: Step)
    ensures |r.trace| >= |trace| && r.trace[..|trace|] == trace
    ensures r.status.Raised? ==> r.status.error == NotImplementedError
    decreases kids, 0
  {
    if kids == [] then Step(trace, Done(outcome, payload))
    else if RepeatsLast(trace, kids[0].name) then Drain(kids[1..], branch, trace, outcome, payload)
    else
      var s := Walk(kids[0], outcome, [payload], trace);
      if s.status.Raised? || (ShortCircuits(branch) && s.status.outcome == Failure) then s
      else Drain(kids[1..], branch, s.trace, s.status.outcome, s.status.payload)
  }

  /** `Manager(initial_task=None)`: the trace starts empty. */
  function Init(initial: Option<Task>): (m: Manager)
    ensures m.root == initial && m.trace == []
  {
    Manager(initial, [])
  }

  /**
   * `register_initial_task(task)`: replaces the entry point and keeps the
   * trace. Registering `None` clears it, after which `run` raises again.
   */
  function RegisterInitialTask(m: Manager, t: Option<Task>): (r: Manager)
    ensures r.root == t && r.trace == m.trace
  {
    m.(root := t)
  }

  /** `show_flow()`: the initial task, or `None` when none is set. */
  function ShowFlow(m: Manager): (r: Option<Task>)
    ensures r.None? <==> m.root.None?
    ensures r.Some? ==> ToDict(r.value) == ToDict(m.root.value)
  {
    m.root
  }

  /** `show_executed_flow()`: every visit logged so far. */
  function ShowExecutedFlow(m: Manager): (flow: Trace)
  {
    m.trace
  }

  /**
   * `run()`: walk from the initial task, entered via Success with no
   * parameters, appending to the trace of earlier runs. Without an initial
   * task it raises before anything is logged.
   */
  function Run(m: Manager): (r: RunResult)
    ensures r.manager.root == m.root
    ensures m.root.None? ==> r == RunResult(m, Some(AttributeError))
    ensures m.root.Some? ==>
              && |r.manager.trace| > |m.trace|
              && r.manager.trace[..|m.trace| + 1] == m.trace + [Entry(m.root.value.name, [])]
    ensures m.root.Some? ==> r.raised.None? || r.raised == Some(NotImplementedError)
  {
    match m.root
    case None => RunResult(m, Some(AttributeError))
    case Some(t) =>
      var s := Walk(t, Success, [], m.trace);
      RunResult(m.(trace := s.trace), if s.status.Raised? then Some(s.status.error) else None)
  }

  /**
   * The executed flow is set up empty only by the constructor: registering a
   * task keeps it, and each `run` keeps it as a prefix and adds at least one entry.
   */
  lemma ExecutedFlowOnlyGrows(m: Manager, t: Option<Task>, initial: Option<Task>)
    ensures ShowExecutedFlow(Init(initial)) == []
    ensures ShowExecutedFlow(RegisterInitialTask(m, t)) == ShowExecutedFlow(m)
    ensures
      var after := ShowExecutedFlow(Run(m).manager);
      |after| >= |ShowExecutedFlow(m)| && after[..|ShowExecutedFlow(m)|] == ShowExecutedFlow(m)
    ensures m.root.Some? ==> |ShowExecutedFlow(Run(m).manager)| > |ShowExecutedFlow(m)|
  {
  }
}
