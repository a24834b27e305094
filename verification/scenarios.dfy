/**
 * The workflow scenarios of the repository's test suite, each stated as the
 * exact trace (or dump) the model produces. Python builds each graph by
 * mutating shared task objects; here each tree is written down in its final
 * state, children first.
 */
module Scenarios {
  import opened Wrappers
  import opened Tasks
  import opened ExampleTasks
  import opened Workflow

  /** Runs a fresh manager whose initial task is `root`. */
  function RunFrom(root: Task): (r: RunResult)
    ensures r.manager.root == Some(root)
    ensures |r.manager.trace| >= 1 && r.manager.trace[0] == Entry(root.name, [])
  {
    Run(RegisterInitialTask(Init(None), Some(root)))
  }

  /** task 1 -> task 2 when both succeed. */
  lemma TwoNodesSuccess()
    ensures
      var t3 := FailureTask("task 3");
      var t2 := OnFailure(SuccessTask("task 2"), [t3]);
      var t1 := OnFailure(OnSuccess(SuccessTask("task 1"), [t2]), [t3]);
      RunFrom(t1) == RunResult(Manager(Some(t1), [
        Entry("task 1", []),
        Entry("task 2", [SuccessPayload("task 1")])]), None)
  {
  }

  /** task 1 -> task 2 -> task 4 when task 2 fails: task 2's failure list runs, task 1's stops. */
  lemma SecondNodeFails()
    ensures
      var t3 := SuccessTask("task 3");
      var t4 := FailureTask("task 4");
      var t2 := OnFailure(OnSuccess(FailureTask("task 2"), [t3]), [t4]);
      var t1 := OnFailure(OnSuccess(SuccessTask("task 1"), [t2]), [t4]);
      RunFrom(t1) == RunResult(Manager(Some(t1), [
        Entry("task 1", []),
        Entry("task 2", [SuccessPayload("task 1")]),
        Entry("task 4", [FailurePayload("task 2")])]), None)
  {
  }

  /** task 1 -> task 4 when task 1 fails: its success list is never drained. */
  lemma FirstNodeFails()
    ensures
      var t3 := SuccessTask("task 3");
      var t4 := SuccessTask("task 4");
      var t2 := OnFailure(OnSuccess(SuccessTask("task 2"), [t3]), [t4]);
      var t1 := OnFailure(OnSuccess(FailureTask("task 1"), [t2]), [t4]);
      RunFrom(t1) == RunResult(Manager(Some(t1), [
        Entry("task 1", []),
        Entry("task 4", [FailurePayload("task 1")])]), None)
  {
  }

  /**
   * task 1 -> task 2 -> task 5 -> task 3 -> task 5: the siblings task 2 and
   * task 3 are chained, so task 3 receives task 5's payload, not task 1's.
   */
  lemma SuccessListChainsSiblings()
    ensures
      var t5 := SuccessTask("task 5");
      var t6 := SuccessTask("task 6");
      var t2 := OnFailure(OnSuccess(SuccessTask("task 2"), [t5]), [t6]);
      var t3 := OnFailure(OnSuccess(SuccessTask("task 3"), [t5]), [t6]);
      var t4 := OnFailure(OnSuccess(SuccessTask("task 4"), [t6]), [t6]);
      var t1 := OnFailure(OnSuccess(SuccessTask("task 1"), [t2, t3]), [t4]);
      RunFrom(t1) == RunResult(Manager(Some(t1), [
        Entry("task 1", []),
        Entry("task 2", [SuccessPayload("task 1")]),
        Entry("task 5", [SuccessPayload("task 2")]),
        Entry("task 3", [SuccessPayload("task 5")]),
        Entry("task 5", [SuccessPayload("task 3")])]), None)
  {
  }

  /** task 1 -> task 2 -> task 3: task 3, listed again right after task 3 ran, is skipped. */
  lemma AdjacentRepeatSkipped()
    ensures
      var t3 := SuccessTask("task 3");
      var t4 := SuccessTask("task 4");
      var t6 := SuccessTask("task 6");
      var t2 := OnFailure(OnSuccess(SuccessTask("task 2"), [t3]), [t6]);
      var t1 := OnFailure(OnSuccess(SuccessTask("task 1"), [t2, t3]), [t4]);
      RunFrom(t1) == RunResult(Manager(Some(t1), [
        Entry("task 1", []),
        Entry("task 2", [SuccessPayload("task 1")]),
        Entry("task 3", [SuccessPayload("task 2")])]), None)
  {
  }

  /** task 1 -> task 4 -> task 6: the failure list's task 6 is skipped after task 4's own task 6. */
  lemma FailureListWithRepeat()
    ensures
      var t5 := SuccessTask("task 5");
      var t6 := SuccessTask("task 6");
      var t2 := OnFailure(OnSuccess(SuccessTask("task 2"), [t5]), [t6]);
      var t3 := OnFailure(OnSuccess(SuccessTask("task 3"), [t5]), [t6]);
      var t4 := OnFailure(OnSuccess(SuccessTask("task 4"), [t6]), [t6]);
      var t1 := OnFailure(OnSuccess(FailureTask("task 1"), [t2, t3]), [t4, t6]);
      RunFrom(t1) == RunResult(Manager(Some(t1), [
        Entry("task 1", []),
        Entry("task 4", [FailurePayload("task 1")]),
        Entry("task 6", [SuccessPayload("task 4")])]), None)
  {
  }

  /**
   * task 1 -> task 4 -> task 7 -> task 6: task 4's sub-walk reports Failure
   * (it was entered via Failure), yet the failure list goes on to task 6.
   */
  lemma FailureListDoesNotShortCircuit()
    ensures
      var t5 := SuccessTask("task 5");
      var t6 := SuccessTask("task 6");
      var t7 := SuccessTask("task 7");
      var t2 := OnFailure(OnSuccess(SuccessTask("task 2"), [t5]), [t6]);
      var t3 := OnFailure(OnSuccess(SuccessTask("task 3"), [t5]), [t6]);
      var t4 := OnFailure(OnSuccess(SuccessTask("task 4"), [t7]), [t6]);
      var t1 := OnFailure(OnSuccess(FailureTask("task 1"), [t2, t3]), [t4, t6]);
      RunFrom(t1) == RunResult(Manager(Some(t1), [
        Entry("task 1", []),
        Entry("task 4", [FailurePayload("task 1")]),
        Entry("task 7", [SuccessPayload("task 4")]),
        Entry("task 6", [SuccessPayload("task 7")])]), None)
  {
  }

  /** task 1 -> task 2 -> task 6: once task 2 fails, task 3 is never visited. */
  lemma SuccessListShortCircuits()
    ensures
      var t5 := SuccessTask("task 5");
      var t6 := SuccessTask("task 6");
      var t2 := OnFailure(OnSuccess(FailureTask("task 2"), [t5]), [t6]);
      var t3 := OnFailure(OnSuccess(SuccessTask("task 3"), [t5]), [t6]);
      var t4 := OnFailure(OnSuccess(SuccessTask("task 4"), [t6]), [t6]);
      var t1 := OnFailure(OnSuccess(SuccessTask("task 1"), [t2, t3]), [t4]);
      RunFrom(t1) == RunResult(Manager(Some(t1), [
        Entry("task 1", []),
        Entry("task 2", [SuccessPayload("task 1")]),
        Entry("task 6", [FailurePayload("task 2")])]), None)
  {
  }

  /** A second run appends to the first run's trace instead of replacing it. */
  lemma RunsAccumulate()
    ensures
      var t2 := SuccessTask("task 2");
      var t1 := OnSuccess(SuccessTask("task 1"), [t2]);
      var once := RunFrom(t1).manager;
      Run(once).manager.trace == [
        Entry("task 1", []),
        Entry("task 2", [SuccessPayload("task 1")]),
        Entry("task 1", []),
        Entry("task 2", [SuccessPayload("task 1")])]
  {
  }

  /** Running an abstract initial task logs it and then raises NotImplementedError. */
  lemma AbstractRootRaises()
    ensures
      var t1 := OnSuccess(NewTask(Some("task 1")), [SuccessTask("task 2")]);
      RunFrom(t1) == RunResult(Manager(Some(t1), [Entry("task 1", [])]), Some(NotImplementedError))
  {
  }

  /** A manager built without a task shows no flow, and running it raises with the trace untouched. */
  lemma NoInitialTask()
    ensures ShowFlow(Init(None)) == None
    ensures Run(Init(None)) == RunResult(Init(None), Some(AttributeError))
  {
  }

  /**
   * A manager shows the task it was built with, or the one registered later,
   * dumping like that task; registering `None` afterwards makes `run` raise
   * AttributeError with the trace kept.
   */
  lemma InitAndRegisterScenarios()
    ensures
      var t1 := SuccessTask("task 1");
      ToDict(ShowFlow(Init(Some(t1))).value) == ToDict(t1) == Dict("task 1", [], [])
    ensures
      var t1 := SuccessTask("task 1");
      var m := RegisterInitialTask(Init(None), Some(t1));
      ShowFlow(m) == Some(t1) && ToDict(ShowFlow(Init(Some(t1))).value) == ToDict(ShowFlow(m).value)
    ensures
      var ran := Run(Init(Some(SuccessTask("task 1")))).manager;
      var cleared := RegisterInitialTask(ran, None);
      Run(cleared) == RunResult(cleared, Some(AttributeError)) && cleared.trace == [Entry("task 1", [])]
  {
  }

  /** The dumps of the two- and three-task graphs of the test suite. */
  lemma ToDictScenarios()
    ensures
      var t2 := SuccessTask("task 2");
      var t1 := OnSuccess(SuccessTask("task 1"), [t2]);
      ToDict(ShowFlow(RegisterInitialTask(Init(None), Some(t1))).value)
        == Dict("task 1", [Dict("task 2", [], [])], [])
    ensures
      var t3 := FailureTask("task 3");
      var t2 := OnFailure(SuccessTask("task 2"), [t3]);
      var t1 := OnFailure(OnSuccess(SuccessTask("task 1"), [t2]), [t3]);
      ToDict(ShowFlow(RegisterInitialTask(Init(None), Some(t1))).value)
        == Dict("task 1",
                [Dict("task 2", [], [Dict("task 3", [], [])])],
                [Dict("task 3", [], [])])
  {
    var t3 := FailureTask("task 3");
    var t2 := OnFailure(SuccessTask("task 2"), [t3]);
    var t1 := OnFailure(OnSuccess(SuccessTask("task 1"), [t2]), [t3]);
    assert ToDict(t3) == Dict("task 3", [], []);
    assert ToDict(t2) == Dict("task 2", [], [ToDict(t3)]);
    assert ToDict(t1) == Dict("task 1", [ToDict(t2)], [ToDict(t3)]);
  }

  /** A fresh task takes the given name or `'task'`, dumps with empty flows, and cannot execute. */
  lemma FreshTaskScenarios()
    ensures NewTask(Some("test 1")).name == "test 1"
    ensures NewTask(None).name == "task"
    ensures ToDict(NewTask(Some("task 1"))) == Dict("task 1", [], [])
    ensures Execute(NewTask(None)).Raised?
  {
  }
}
