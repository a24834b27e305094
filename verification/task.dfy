/**
 * A task of the workflow: a named unit of work with an ordered success list,
 * an ordered failure list and a work contract (`execute`).
 *
 * Python tasks are mutable objects that may be shared by several lists; here a
 * task is an immutable tree, so a successor registered in two lists is simply
 * present in both. The walk and the serializer only look at names, edges and
 * execute results, never at object identity, so the unfolding loses nothing
 * they can observe on an acyclic graph.
 */
module Tasks {
  import opened Wrappers

  /** The binary outcome of a task's own execution. */
  datatype Outcome = Success | Failure

  /** The exceptions the core can raise. */
  datatype Error =
    | NotImplementedError   // the abstract `execute`
    | AttributeError        // `run` with no initial task: `None.name`

  /**
   * A payload is an ordered, possibly empty sequence of values. Strings stand
   * for Python's arbitrary values, which the walk passes on but never inspects.
   */
  type Payload = seq<string>

  /** What executing a task yields: an outcome with a payload, or an exception. */
  datatype Status = Done(outcome: Outcome, payload: Payload) | Raised(error: Error)

  /**
   * The work contract of a task. The base class leaves `execute` abstract; a
   * concrete task returns a fixed outcome and payload (its `execute` takes no
   * inputs and keeps no state).
   */
  datatype Behaviour = Abstract | Implemented(outcome: Outcome, payload: Payload)

  datatype Task = Task(name: string, behaviour: Behaviour, successList: seq<Task>, failureList: seq<Task>)

  /** The structural dump built by `to_dict`. */
  datatype Dict = Dict(name: string, successFlow: seq<Dict>, failureFlow: seq<Dict>)

  /** The name a task gets when none is given. */
  const DefaultName: string := "task"

  /** Python encodes the outcomes as booleans: `success_state()` is True. */
  function StateValue(o: Outcome): (b: bool)
  {
    o == Success
  }

  /** The outcome a boolean state stands for. */
  function FromState(b: bool): (o: Outcome)
  {
    if b then Success else Failure
  }

  /** The two states are distinct booleans and encode the outcomes one-to-one. */
  lemma StatesEncodeOutcomes(o: Outcome, b: bool)
    ensures StateValue(Success) == true && StateValue(Failure) == false
    ensures FromState(StateValue(o)) == o
    ensures StateValue(FromState(b)) == b
  {
  }

  /** `Task(name='task')`: a fresh abstract task with no successors. */
  function NewTask(name: Option<string>): (t: Task)
    ensures name.Some? ==> t.name == name.value
    ensures name.None? ==> t.name == DefaultName
    ensures t.behaviour.Abstract?
    ensures t.successList == [] && t.failureList == []
  {
    Task(if name.Some? then name.value else DefaultName, Abstract, [], [])
  }

  /** `execute()`: the base class raises, a concrete task returns its fixed result. */
  function Execute(t: Task): (r: Status)
    ensures r.Raised? <==> t.behaviour.Abstract?
    ensures r.Raised? ==> r.error == NotImplementedError
    ensures r.Done? ==> r.outcome == t.behaviour.outcome && r.payload == t.behaviour.payload
  {
    match t.behaviour
    case Abstract => Raised(NotImplementedError)
    case Implemented(o, p) => Done(o, p)
  }

  /** The abstract `execute` of a fresh task always raises and yields no outcome. */
  lemma AbstractExecuteRaises(name: Option<string>)
    ensures Execute(NewTask(name)) == Raised(NotImplementedError)
    ensures !Execute(NewTask(name)).Done?
  {
  }

  /** Executing a task depends on nothing but the task's own behaviour: not on its edges. */
  lemma ExecuteIgnoresEdges(t: Task, u: Task)
    requires t.behaviour == u.behaviour
    ensures Execute(t) == Execute(u)
  {
  }

  /** The `for task in tasks: list.append(task)` loop of the registration methods. */
  function AppendEach(list: seq<Task>, tasks: seq<Task>): (r: seq<Task>)
    ensures |r| == |list| + |tasks|
    ensures r[..|list|] == list
    ensures forall i :: 0 <= i < |tasks| ==> r[|list| + i] == tasks[i]
    decreases |tasks|
  {
    if tasks == [] then list
    else AppendEach(list + [tasks[0]], tasks[1..])
  }

  /** `on_success(*tasks)`: the tasks go, in argument order, to the end of the success list. */
  function OnSuccess(t: Task, tasks: seq<Task>): (r: Task)
    ensures r.successList == t.successList + tasks
    ensures r.name == t.name && r.behaviour == t.behaviour && r.failureList == t.failureList
  {
    var l := AppendEach(t.successList, tasks);
    assert l == t.successList + tasks;
    t.(successList := l)
  }

  /** `on_failure(*tasks)`: the tasks go, in argument order, to the end of the failure list. */
  function OnFailure(t: Task, tasks: seq<Task>): (r: Task)
    ensures r.failureList == t.failureList + tasks
    ensures r.name == t.name && r.behaviour == t.behaviour && r.successList == t.successList
  {
    var l := AppendEach(t.failureList, tasks);
    assert l == t.failureList + tasks;
    t.(failureList := l)
  }

  /**
   * `success_flow()`: a copy of the success list. The walk drains the copy, so
   * with immutable sequences the copy is the list itself.
   */
  function SuccessFlow(t: Task): (flow: seq<Task>)
  {
    t.successList
  }

  /** `failure_flow()`: a copy of the failure list. */
  function FailureFlow(t: Task): (flow: seq<Task>)
  {
    t.failureList
  }

  /**
   * The accessors return exactly what was registered, in registration order:
   * nothing on a fresh task, and each registration call appends to one list only.
   */
  lemma FlowsReturnRegistrations(t: Task, tasks: seq<Task>, name: Option<string>)
    ensures SuccessFlow(NewTask(name)) == [] && FailureFlow(NewTask(name)) == []
    ensures SuccessFlow(OnSuccess(t, tasks)) == SuccessFlow(t) + tasks
    ensures FailureFlow(OnSuccess(t, tasks)) == FailureFlow(t)
    ensures FailureFlow(OnFailure(t, tasks)) == FailureFlow(t) + tasks
    ensures SuccessFlow(OnFailure(t, tasks)) == SuccessFlow(t)
  {
  }

  /** Registering in two calls is registering the concatenation in one. */
  lemma RegistrationsConcatenate(t: Task, a: seq<Task>, b: seq<Task>)
    ensures OnSuccess(OnSuccess(t, a), b) == OnSuccess(t, a + b)
    ensures OnFailure(OnFailure(t, a), b) == OnFailure(t, a + b)
    ensures OnSuccess(OnFailure(t, a), b) == OnFailure(OnSuccess(t, b), a)
  {
    assert (t.successList + a) + b == t.successList + (a + b);
    assert (t.failureList + a) + b == t.failureList + (a + b);
  }

  /** `to_dict()`: the name and the dump of every successor, list by list. */
  function ToDict(t: Task): (d: Dict)
    ensures d.name == t.name
    ensures |d.successFlow| == |t.successList| && |d.failureFlow| == |t.failureList|
  {
    Dict(t.name,
         seq(|t.successList|, i requires 0 <= i < |t.successList| => ToDict(t.successList[i])),
         seq(|t.failureList|, i requires 0 <= i < |t.failureList| => ToDict(t.failureList[i])))
  }

  /** The dump of every task of a list, in list order. */
  function DictList(ts: seq<Task>): (ds: seq<Dict>)
  {
    seq(|ts|, i requires 0 <= i < |ts| => ToDict(ts[i]))
  }

  /**
   * The inverse of `to_dict`: the abstract task tree a dump describes. It
   * recovers everything `to_dict` keeps, which is the names and the edges.
   */
  function FromDict(d: Dict): (t: Task)
    ensures t.name == d.name && t.behaviour.Abstract?
    ensures |t.successList| == |d.successFlow| && |t.failureList| == |d.failureFlow|
  {
    Task(d.name, Abstract,
         seq(|d.successFlow|, i requires 0 <= i < |d.successFlow| => FromDict(d.successFlow[i])),
         seq(|d.failureFlow|, i requires 0 <= i < |d.failureFlow| => FromDict(d.failureFlow[i])))
  }

  /** A task tree with every work contract forgotten: its names and edges only. */
  function Skeleton(t: Task): (s: Task)
    ensures s.name == t.name && s.behaviour.Abstract?
    ensures |s.successList| == |t.successList| && |s.failureList| == |t.failureList|
  {
    Task(t.name, Abstract,
         seq(|t.successList|, i requires 0 <= i < |t.successList| => Skeleton(t.successList[i])),
         seq(|t.failureList|, i requires 0 <= i < |t.failureList| => Skeleton(t.failureList[i])))
  }

  /** Dumping the tree a dump describes gives the dump back. */
  lemma {:induction false} ToDictFromDict(d: Dict)
    ensures ToDict(FromDict(d)) == d
  {
    var t := FromDict(d);
    forall i | 0 <= i < |d.successFlow|
      ensures ToDict(t).successFlow[i] == d.successFlow[i]
    {
      ToDictFromDict(d.successFlow[i]);
    }
    forall i | 0 <= i < |d.failureFlow|
      ensures ToDict(t).failureFlow[i] == d.failureFlow[i]
    {
      ToDictFromDict(d.failureFlow[i]);
    }
  }

  /** Reading a dump back yields the task's skeleton: `to_dict` loses exactly the work contracts. */
  lemma {:induction false} FromDictToDict(t: Task)
    ensures FromDict(ToDict(t)) == Skeleton(t)
  {
    var u := FromDict(ToDict(t));
    forall i | 0 <= i < |t.successList|
      ensures u.successList[i] == Skeleton(t).successList[i]
    {
      FromDictToDict(t.successList[i]);
    }
    forall i | 0 <= i < |t.failureList|
      ensures u.failureList[i] == Skeleton(t).failureList[i]
    {
      FromDictToDict(t.failureList[i]);
    }
  }

  /**
   * `to_dict` depends on the names and the registered edges and on nothing
   * else: two tasks dump alike exactly when their skeletons agree.
   */
  lemma ToDictDependsOnlyOnSkeleton(a: Task, b: Task)
    ensures ToDict(a) == ToDict(b) <==> Skeleton(a) == Skeleton(b)
  {
    FromDictToDict(a);
    FromDictToDict(b);
    if Skeleton(a) == Skeleton(b) {
      SkeletonKeepsDict(a);
      SkeletonKeepsDict(b);
    }
  }

  /** Forgetting the work contracts does not change the dump. */
  lemma {:induction false} SkeletonKeepsDict(t: Task)
    ensures ToDict(Skeleton(t)) == ToDict(t)
  {
    var s := Skeleton(t);
    forall i | 0 <= i < |t.successList|
      ensures ToDict(s).successFlow[i] == ToDict(t).successFlow[i]
    {
      SkeletonKeepsDict(t.successList[i]);
    }
    forall i | 0 <= i < |t.failureList|
      ensures ToDict(s).failureFlow[i] == ToDict(t).failureFlow[i]
    {
      SkeletonKeepsDict(t.failureList[i]);
    }
  }

  /** The dump of a fresh task has empty flows. */
  lemma ToDictOfNewTask(name: Option<string>)
    ensures ToDict(NewTask(name)).successFlow == [] && ToDict(NewTask(name)).failureFlow == []
  {
  }

  /** `on_success` appends the dumps of the registered tasks to the success flow only. */
  lemma ToDictOfOnSuccess(t: Task, tasks: seq<Task>)
    ensures ToDict(OnSuccess(t, tasks)) == Dict(t.name, ToDict(t).successFlow + DictList(tasks), ToDict(t).failureFlow)
  {
    var u := OnSuccess(t, tasks);
    var want := ToDict(t).successFlow + DictList(tasks);
    forall i | 0 <= i < |u.successList|
      ensures ToDict(u).successFlow[i] == want[i]
    {
      if i < |t.successList| {
        assert u.successList[i] == t.successList[i];
      } else {
        assert u.successList[i] == tasks[i - |t.successList|];
      }
    }
    assert ToDict(u).successFlow == want;
  }

  /** `on_failure` appends the dumps of the registered tasks to the failure flow only. */
  lemma ToDictOfOnFailure(t: Task, tasks: seq<Task>)
    ensures ToDict(OnFailure(t, tasks)) == Dict(t.name, ToDict(t).successFlow, ToDict(t).failureFlow + DictList(tasks))
  {
    var u := OnFailure(t, tasks);
    var want := ToDict(t).failureFlow + DictList(tasks);
    forall i | 0 <= i < |u.failureList|
      ensures ToDict(u).failureFlow[i] == want[i]
    {
      if i < |t.failureList| {
        assert u.failureList[i] == t.failureList[i];
      } else {
        assert u.failureList[i] == tasks[i - |t.failureList|];
      }
    }
    assert ToDict(u).failureFlow == want;
  }
}
