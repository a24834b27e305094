/**
 * The two concrete tasks every workflow scenario is built from: one that
 * always succeeds and one that always fails, each with a payload naming it.
 */
module ExampleTasks {
  import opened Wrappers
  import opened Tasks

  /** What a succeeding task passes on: `'param', 'from', 'task', name, 'to', 'next', 'task'`. */
  function SuccessPayload(name: string): (p: Payload)
  {
    ["param", "from", "task", name, "to", "next", "task"]
  }

  /** What a failing task passes on: `'failure message from ', name`. */
  function FailurePayload(name: string): (p: Payload)
  {
    ["failure message from ", name]
  }

  /** `SuccessTask(name)`: a fresh task whose `execute` always reports success. */
  function SuccessTask(name: string): (t: Task)
    ensures t.name == name && t.successList == [] && t.failureList == []
    ensures Execute(t) == Done(Success, SuccessPayload(name))
    ensures |Execute(t).payload| == 7 && Execute(t).payload[3] == name
  {
    NewTask(Some(name)).(behaviour := Implemented(Success, SuccessPayload(name)))
  }

  /** `FailureTask(name)`: a fresh task whose `execute` always reports failure. */
  function FailureTask(name: string): (t: Task)
    ensures t.name == name && t.successList == [] && t.failureList == []
    ensures Execute(t) == Done(Failure, FailurePayload(name))
    ensures |Execute(t).payload| == 2 && Execute(t).payload[1] == name
  {
    NewTask(Some(name)).(behaviour := Implemented(Failure, FailurePayload(name)))
  }

  /**
   * The result of `execute` depends only on the task's name: registering
   * successors does not change it, and the payload identifies the task that
   * produced it (no payload of one kind equals a payload of the other).
   */
  lemma ExecuteDependsOnlyOnName(a: string, b: string, xs: seq<Task>, ys: seq<Task>)
    ensures Execute(OnFailure(OnSuccess(SuccessTask(a), xs), ys)) == Done(Success, SuccessPayload(a))
    ensures Execute(OnFailure(OnSuccess(FailureTask(a), xs), ys)) == Done(Failure, FailurePayload(a))
    ensures SuccessPayload(a) == SuccessPayload(b) <==> a == b
    ensures FailurePayload(a) == FailurePayload(b) <==> a == b
    ensures SuccessPayload(a) != FailurePayload(b)
  {
    if SuccessPayload(a) == SuccessPayload(b) {
      assert SuccessPayload(a)[3] == SuccessPayload(b)[3];
    }
    if FailurePayload(a) == FailurePayload(b) {
      assert FailurePayload(a)[1] == FailurePayload(b)[1];
    }
  }
}
