/**
 * Properties of the depth-first walk over every task tree: how draining a
 * successor list composes, when it stops, what each child is entered with,
 * and what outcome and payload a walk reports.
 */
module WalkProperties {
  import opened Tasks
  import opened Workflow

  /** The drain stops at state `s`: it raised, or a sub-walk of the success list failed. */
  predicate Halted(s: Step, branch: Outcome)
  {
    s.status.Raised? || (ShortCircuits(branch) && s.status.outcome == Failure)
  }

  /** Carries on draining `rest` from state `s`, unless the drain stopped there. */
  function Resume(s: Step, rest: seq<Task>, branch: Outcome): (r: Step)
  {
    if Halted(s, branch) then s else Drain(rest, branch, s.trace, s.status.outcome, s.status.payload)
  }

  /** The state a drain of `kids` has reached just before it considers `kids[i]`. */
  function Before(kids: seq<Task>, i: nat, branch: Outcome, trace: Trace, outcome: Outcome, payload: Payload): (s: Step)
    requires i <= |kids|
  {
    Drain(kids[..i], branch, trace, outcome, payload)
  }

  /** The sub-walk of child `i`, entered with the state its earlier siblings left. */
  function ChildWalk(kids: seq<Task>, i: nat, branch: Outcome, trace: Trace, outcome: Outcome, payload: Payload): (c: Step)
    requires i < |kids| && Before(kids, i, branch, trace, outcome, payload).status.Done?
  {
    var s := Before(kids, i, branch, trace, outcome, payload);
    Walk(kids[i], s.status.outcome, [s.status.payload], s.trace)
  }

  /**
   * Draining `a + b` is draining `a` and then, unless that stopped, draining
   * `b` from the trace, outcome and payload `a` left behind.
   */
  lemma {:induction false} DrainSplits(a: seq<Task>, b: seq<Task>, branch: Outcome, trace: Trace, outcome: Outcome, payload: Payload)
    requires ShortCircuits(branch) ==> outcome == Success
    ensures Drain(a + b, branch, trace, outcome, payload) == Resume(Drain(a, branch, trace, outcome, payload), b, branch)
    decreases |a|
  {
    if a == [] {
      assert a + b == b;
    } else {
      assert (a + b)[0] == a[0];
      assert (a + b)[1..] == a[1..] + b;
      if RepeatsLast(trace, a[0].name) {
        DrainSplits(a[1..], b, branch, trace, outcome, payload);
      } else {
        var s := Walk(a[0], outcome, [payload], trace);
        if !Halted(s, branch) {
          DrainSplits(a[1..], b, branch, s.trace, s.status.outcome, s.status.payload);
        }
      }
    }
  }

  /**
   * Unless the drain has stopped, child `i` is considered with the state its
   * earlier siblings left: skipped, leaving that state as it is, when its name
   * repeats the last entry; otherwise walked, entered with the outcome and the
   * payload the previous visited sibling returned (the list owner's own result
   * when no sibling was visited), and the remaining siblings continue from
   * what it returns.
   */
  lemma ChildSeesPreviousSibling(kids: seq<Task>, i: nat, branch: Outcome, trace: Trace, outcome: Outcome, payload: Payload)
    requires i < |kids|
    requires ShortCircuits(branch) ==> outcome == Success
    requires !Halted(Before(kids, i, branch, trace, outcome, payload), branch)
    ensures
      var s := Before(kids, i, branch, trace, outcome, payload);
      Drain(kids, branch, trace, outcome, payload) ==
        if RepeatsLast(s.trace, kids[i].name) then Resume(s, kids[i + 1..], branch)
        else Resume(Walk(kids[i], s.status.outcome, [s.status.payload], s.trace), kids[i + 1..], branch)
  {
    assert kids == kids[..i] + kids[i..];
    DrainSplits(kids[..i], kids[i..], branch, trace, outcome, payload);
    assert kids[i..][0] == kids[i];
    assert kids[i..][1..] == kids[i + 1..];
  }

  /**
   * Adjacency de-duplication: unless the drain has stopped, a child whose name
   * repeats the last entry is neither logged nor executed, and it leaves the
   * trace, outcome and payload exactly as its earlier siblings left them.
   */
  lemma RepeatedChildSkipped(kids: seq<Task>, i: nat, branch: Outcome, trace: Trace, outcome: Outcome, payload: Payload)
    requires i < |kids|
    requires ShortCircuits(branch) ==> outcome == Success
    requires !Halted(Before(kids, i, branch, trace, outcome, payload), branch)
    requires RepeatsLast(Before(kids, i, branch, trace, outcome, payload).trace, kids[i].name)
    ensures Before(kids, i + 1, branch, trace, outcome, payload) == Before(kids, i, branch, trace, outcome, payload)
  {
    var s := Before(kids, i, branch, trace, outcome, payload);
    assert kids[..i + 1] == kids[..i] + [kids[i]];
    DrainSplits(kids[..i], [kids[i]], branch, trace, outcome, payload);
    var one := [kids[i]];
    assert one[0] == kids[i] && one[1..] == [];
    assert s.status == Done(s.status.outcome, s.status.payload);
    assert Drain(one, branch, s.trace, s.status.outcome, s.status.payload)
        == Drain([], branch, s.trace, s.status.outcome, s.status.payload);
  }

  /**
   * Unless the drain has stopped, a child whose name does not repeat the last
   * entry is logged right after the entries of its earlier siblings, with the
   * payload they passed on, whatever outcomes their sub-walks reported.
   */
  lemma ChildLogged(kids: seq<Task>, i: nat, branch: Outcome, trace: Trace, outcome: Outcome, payload: Payload)
    requires i < |kids|
    requires ShortCircuits(branch) ==> outcome == Success
    requires !Halted(Before(kids, i, branch, trace, outcome, payload), branch)
    requires !RepeatsLast(Before(kids, i, branch, trace, outcome, payload).trace, kids[i].name)
    ensures
      var s := Before(kids, i, branch, trace, outcome, payload);
      var r := Drain(kids, branch, trace, outcome, payload);
      |r.trace| > |s.trace| && r.trace[|s.trace|] == Entry(kids[i].name, [s.status.payload])
  {
    var s := Before(kids, i, branch, trace, outcome, payload);
    ChildSeesPreviousSibling(kids, i, branch, trace, outcome, payload);
    var c := Walk(kids[i], s.status.outcome, [s.status.payload], s.trace);
    ResumeExtends(c, kids[i + 1..], branch);
    assert c.trace[..|s.trace| + 1][|s.trace|] == Entry(kids[i].name, [s.status.payload]);
  }

  /** Resuming a drain keeps the trace reached so far as a prefix. */
  lemma ResumeExtends(c: Step, rest: seq<Task>, branch: Outcome)
    ensures
      var r := Resume(c, rest, branch);
      |r.trace| >= |c.trace| && forall j :: 0 <= j < |c.trace| ==> r.trace[j] == c.trace[j]
  {
    var r := Resume(c, rest, branch);
    assert r.trace[..|c.trace|] == c.trace;
  }

  /**
   * Short-circuit: once the drain has stopped (a success-list sub-walk failed,
   * or an exception was raised) no later child is visited: the drain of the
   * whole list ends in exactly that state.
   */
  lemma NothingAfterHalt(kids: seq<Task>, i: nat, branch: Outcome, trace: Trace, outcome: Outcome, payload: Payload)
    requires i <= |kids|
    requires ShortCircuits(branch) ==> outcome == Success
    requires Halted(Before(kids, i, branch, trace, outcome, payload), branch)
    ensures Drain(kids, branch, trace, outcome, payload) == Before(kids, i, branch, trace, outcome, payload)
  {
    var s := Before(kids, i, branch, trace, outcome, payload);
    assert kids == kids[..i] + kids[i..];
    DrainSplits(kids[..i], kids[i..], branch, trace, outcome, payload);
    assert Resume(s, kids[i..], branch) == s;
  }

  /** Every sub-walk of a task entered via Failure that returns reports Failure. */
  lemma WalkViaFailureFails(t: Task, params: seq<Payload>, trace: Trace)
    ensures Walk(t, Failure, params, trace).status.Done? ==> Walk(t, Failure, params, trace).status.outcome == Failure
  {
  }

  /** Draining a failure list that starts from Failure only ever carries Failure. */
  lemma {:induction false} FailureDrainStaysFailure(kids: seq<Task>, trace: Trace, payload: Payload)
    ensures
      var r := Drain(kids, Failure, trace, Failure, payload);
      r.status.Done? ==> r.status.outcome == Failure
    decreases |kids|
  {
    if kids != [] {
      if RepeatsLast(trace, kids[0].name) {
        FailureDrainStaysFailure(kids[1..], trace, payload);
      } else {
        var s := Walk(kids[0], Failure, [payload], trace);
        WalkViaFailureFails(kids[0], [payload], trace);
        if s.status.Done? {
          FailureDrainStaysFailure(kids[1..], s.trace, s.status.payload);
        }
      }
    }
  }

  /**
   * Entry outcomes by list: every child a drain considers is entered with the
   * outcome of the list being drained. The success list is drained from
   * Success and stops at the first Failure; the failure list is drained from
   * Failure and never leaves it.
   */
  lemma EntryOutcomeIsListOutcome(kids: seq<Task>, i: nat, branch: Outcome, trace: Trace, payload: Payload)
    requires i <= |kids|
    requires !Halted(Before(kids, i, branch, trace, branch, payload), branch)
    ensures Before(kids, i, branch, trace, branch, payload).status.outcome == branch
  {
    if branch == Failure {
      FailureDrainStaysFailure(kids[..i], trace, payload);
    }
  }

  /** Child `i` of a success list is visited and its sub-walk reports Failure. */
  predicate ChildFails(kids: seq<Task>, i: int, trace: Trace, payload: Payload)
  {
    && 0 <= i < |kids|
    && var s := Before(kids, i, Success, trace, Success, payload);
    && s.status.Done? && s.status.outcome == Success
    && !RepeatsLast(s.trace, kids[i].name)
    && var c := Walk(kids[i], Success, [s.status.payload], s.trace);
    && c.status.Done? && c.status.outcome == Failure
  }

  /**
   * A success list reports Failure exactly when one of its visited children's
   * sub-walks failed; otherwise every child was considered and it reports Success.
   */
  lemma {:induction false} SuccessDrainFailsIffChildFails(kids: seq<Task>, trace: Trace, payload: Payload)
    ensures
      var r := Drain(kids, Success, trace, Success, payload);
      r.status.Done? ==> (r.status.outcome == Failure <==> exists i :: ChildFails(kids, i, trace, payload))
    decreases |kids|
  {
    var r := Drain(kids, Success, trace, Success, payload);
    if r.status.Done? {
      if i :| ChildFails(kids, i, trace, payload) {
        var s := Before(kids, i, Success, trace, Success, payload);
        ChildSeesPreviousSibling(kids, i, Success, trace, Success, payload);
      }
      if r.status.outcome == Failure && kids != [] {
        var n := |kids| - 1;
        var front := kids[..n];
        assert kids[..n] == front;
        var s := Drain(front, Success, trace, Success, payload);
        if Halted(s, Success) {
          NothingAfterHalt(kids, n, Success, trace, Success, payload);
          SuccessDrainFailsIffChildFails(front, trace, payload);
          var i :| ChildFails(front, i, trace, payload);
          assert front[..i] == kids[..i];
          assert ChildFails(kids, i, trace, payload);
        } else {
          ChildSeesPreviousSibling(kids, n, Success, trace, Success, payload);
          assert kids[n + 1..] == [];
          assert ChildFails(kids, n, trace, payload);
        }
      }
    }
  }

  /**
   * Sticky failure: a walk that returns reports Success exactly when it was
   * entered via Success, the task's own execute succeeded, and none of the
   * visited success-list children's sub-walks failed.
   */
  lemma WalkOutcome(t: Task, inbound: Outcome, params: seq<Payload>, trace: Trace)
    ensures
      var r := Walk(t, inbound, params, trace);
      r.status.Done? ==>
        (r.status.outcome == Success <==>
           && inbound == Success
           && Execute(t).Done? && Execute(t).outcome == Success
           && !exists i :: ChildFails(t.successList, i, trace + [Entry(t.name, params)], Execute(t).payload))
  {
    if Execute(t).Done? && Execute(t).outcome == Success {
      SuccessDrainFailsIffChildFails(t.successList, trace + [Entry(t.name, params)], Execute(t).payload);
    }
  }

  /** A drain that logs nothing visited no child: it reports the outcome and payload it started with. */
  lemma {:induction false} UnvisitedDrainKeepsState(kids: seq<Task>, branch: Outcome, trace: Trace, outcome: Outcome, payload: Payload)
    ensures
      var r := Drain(kids, branch, trace, outcome, payload);
      |r.trace| == |trace| ==> r.status == Done(outcome, payload)
    decreases |kids|
  {
    if kids != [] && RepeatsLast(trace, kids[0].name) {
      UnvisitedDrainKeepsState(kids[1..], branch, trace, outcome, payload);
    }
  }

  /**
   * Chaining, at the end of a list: when child `i` is the last one logged,
   * the drain reports exactly what child `i`'s sub-walk returned.
   */
  lemma LastVisitedChildDecides(kids: seq<Task>, i: nat, branch: Outcome, trace: Trace, outcome: Outcome, payload: Payload)
    requires i < |kids|
    requires ShortCircuits(branch) ==> outcome == Success
    requires !Halted(Before(kids, i, branch, trace, outcome, payload), branch)
    requires !RepeatsLast(Before(kids, i, branch, trace, outcome, payload).trace, kids[i].name)
    requires |Drain(kids, branch, trace, outcome, payload).trace| == |ChildWalk(kids, i, branch, trace, outcome, payload).trace|
    ensures Drain(kids, branch, trace, outcome, payload).status == ChildWalk(kids, i, branch, trace, outcome, payload).status
  {
    ChildSeesPreviousSibling(kids, i, branch, trace, outcome, payload);
    var c := ChildWalk(kids, i, branch, trace, outcome, payload);
    if !Halted(c, branch) {
      UnvisitedDrainKeepsState(kids[i + 1..], branch, c.trace, c.status.outcome, c.status.payload);
    }
  }

  /**
   * A walk that visits none of its successors passes on the task's own
   * payload, and reports the task's own outcome unless it was entered via Failure.
   */
  lemma ChildlessWalkPassesOwnResult(t: Task, inbound: Outcome, params: seq<Payload>, trace: Trace)
    ensures
      var r := Walk(t, inbound, params, trace);
      r.status.Done? && |r.trace| == |trace| + 1 ==>
        && Execute(t).Done?
        && r.status.payload == Execute(t).payload
        && r.status.outcome == (if inbound == Failure then Failure else Execute(t).outcome)
  {
    var logged := trace + [Entry(t.name, params)];
    match Execute(t)
    case Raised(_) =>
    case Done(o, p) =>
      UnvisitedDrainKeepsState(if o == Success then t.successList else t.failureList, o, logged, o, p);
  }
}
