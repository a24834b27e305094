/**
 * The shape of the trace a walk appends: every entry after the first was
 * entered with exactly one payload and differs in name from the entry before
 * it, the names are the tree's depth-first preorder with whole subtrees
 * pruned, and a tree whose tasks all implement `execute` never raises.
 */
module TraceProperties {
  import opened Wrappers
  import opened Tasks
  import opened Workflow

  /**
   * From index `k` on, every entry carries exactly one payload and has a
   * different name from the entry just before it.
   */
  ghost predicate ChildEntriesFrom(trace: Trace, k: nat)
  {
    forall j :: k <= j < |trace| ==>
      |trace[j].parameters| == 1 && (j > 0 ==> trace[j - 1].name != trace[j].name)
  }

  /** The first entry of a walk records its own parameters; all later ones are child entries. */
  lemma {:induction false} WalkEntries(t: Task, inbound: Outcome, params: seq<Payload>, trace: Trace)
    ensures
      var r := Walk(t, inbound, params, trace);
      r.trace[|trace|] == Entry(t.name, params) && ChildEntriesFrom(r.trace, |trace| + 1)
    decreases t, 1
  {
    var r := Walk(t, inbound, params, trace);
    assert r.trace[..|trace| + 1][|trace|] == Entry(t.name, params);
    var logged := trace + [Entry(t.name, params)];
    match Execute(t)
    case Raised(_) =>
    case Done(Success, p) =>
      DrainEntries(t.successList, Success, logged, Success, p);
    case Done(Failure, p) =>
      DrainEntries(t.failureList, Failure, logged, Failure, p);
  }

  /** Every entry a drain appends is a child entry. */
  lemma {:induction false} DrainEntries(kids: seq<Task>, branch: Outcome, trace: Trace, outcome: Outcome, payload: Payload)
    ensures ChildEntriesFrom(Drain(kids, branch, trace, outcome, payload).trace, |trace|)
    decreases kids, 0
  {
    if kids != [] {
      if RepeatsLast(trace, kids[0].name) {
        DrainEntries(kids[1..], branch, trace, outcome, payload);
      } else {
        var c := Walk(kids[0], outcome, [payload], trace);
        WalkEntries(kids[0], outcome, [payload], trace);
        assert ChildEntriesFrom(c.trace, |trace|);
        if !(c.status.Raised? || (ShortCircuits(branch) && c.status.outcome == Failure)) {
          var r := Drain(kids[1..], branch, c.trace, c.status.outcome, c.status.payload);
          DrainEntries(kids[1..], branch, c.trace, c.status.outcome, c.status.payload);
          ChildEntriesCompose(|trace|, c.trace, r.trace);
        }
      }
    }
  }

  /** Child entries from `k` up to an extension point, and from there on, are child entries from `k` on. */
  lemma ChildEntriesCompose(k: nat, c: Trace, r: Trace)
    requires k <= |c| <= |r| && r[..|c|] == c
    requires ChildEntriesFrom(c, k) && ChildEntriesFrom(r, |c|)
    ensures ChildEntriesFrom(r, k)
  {
    forall j | k <= j < |r|
      ensures |r[j].parameters| == 1 && (j > 0 ==> r[j - 1].name != r[j].name)
    {
      if j < |c| {
        assert r[..|c|][j] == c[j];
        assert j > 0 ==> r[..|c|][j - 1] == c[j - 1];
      }
    }
  }

  /** The names of a trace's entries, in order. */
  function Names(trace: Trace): (names: seq<string>)
  {
    seq(|trace|, j requires 0 <= j < |trace| => trace[j].name)
  }

  /** The names of a task tree in depth-first preorder: the task, its success subtrees, its failure subtrees. */
  function Preorder(t: Task): (names: seq<string>)
    decreases t, 1
  {
    [t.name] + PreorderList(t.successList) + PreorderList(t.failureList)
  }

  /** The preorders of a list of trees, one after the other. */
  function PreorderList(ts: seq<Task>): (names: seq<string>)
    decreases ts, 0
  {
    if ts == [] then [] else Preorder(ts[0]) + PreorderList(ts[1..])
  }

  /** `a` is `b` with some elements left out. */
  predicate IsSubsequence(a: seq<string>, b: seq<string>)
    decreases |b|
  {
    if a == [] then true
    else if b == [] then false
    else (a[0] == b[0] && IsSubsequence(a[1..], b[1..])) || IsSubsequence(a, b[1..])
  }

  /** A subsequence is never longer than the sequence it is taken from. */
  lemma {:induction false} SubsequenceNoLonger(a: seq<string>, b: seq<string>)
    requires IsSubsequence(a, b)
    ensures |a| <= |b|
    decreases |b|
  {
    if a != [] {
      if a[0] == b[0] && IsSubsequence(a[1..], b[1..]) {
        SubsequenceNoLonger(a[1..], b[1..]);
      } else {
        SubsequenceNoLonger(a, b[1..]);
      }
    }
  }

  /** A subsequence of `b` is a subsequence of `b` with anything in front of it. */
  lemma {:induction false} SubsequenceWithPrefix(a: seq<string>, b: seq<string>, c: seq<string>)
    requires IsSubsequence(a, b)
    ensures IsSubsequence(a, c + b)
    decreases |c|
  {
    if c == [] {
      assert c + b == b;
    } else if a != [] {
      assert (c + b)[1..] == c[1..] + b;
      SubsequenceWithPrefix(a, b, c[1..]);
    }
  }

  /** A subsequence of `b` is a subsequence of `b` with anything after it. */
  lemma {:induction false} SubsequenceWithSuffix(a: seq<string>, b: seq<string>, c: seq<string>)
    requires IsSubsequence(a, b)
    ensures IsSubsequence(a, b + c)
    decreases |b|
  {
    if a != [] {
      assert (b + c)[0] == b[0] && (b + c)[1..] == b[1..] + c;
      if a[0] == b[0] && IsSubsequence(a[1..], b[1..]) {
        SubsequenceWithSuffix(a[1..], b[1..], c);
      } else {
        SubsequenceWithSuffix(a, b[1..], c);
      }
    }
  }

  /** Subsequences of two sequences concatenate to a subsequence of their concatenation. */
  lemma {:induction false} SubsequenceConcat(a1: seq<string>, b1: seq<string>, a2: seq<string>, b2: seq<string>)
    requires IsSubsequence(a1, b1) && IsSubsequence(a2, b2)
    ensures IsSubsequence(a1 + a2, b1 + b2)
    decreases |b1|
  {
    if a1 == [] {
      assert a1 + a2 == a2;
      SubsequenceWithPrefix(a2, b2, b1);
    } else {
      assert (b1 + b2)[0] == b1[0] && (b1 + b2)[1..] == b1[1..] + b2;
      if a1[0] == b1[0] && IsSubsequence(a1[1..], b1[1..]) {
        assert (a1 + a2)[0] == a1[0] && (a1 + a2)[1..] == a1[1..] + a2;
        SubsequenceConcat(a1[1..], b1[1..], a2, b2);
      } else {
        SubsequenceConcat(a1, b1[1..], a2, b2);
      }
    }
  }

  /**
   * The names a walk logs are a subsequence of the tree's depth-first
   * preorder (task, success subtrees, failure subtrees).
   */
  lemma {:induction false} WalkFollowsPreorder(t: Task, inbound: Outcome, params: seq<Payload>, trace: Trace)
    ensures IsSubsequence(Names(Walk(t, inbound, params, trace).trace[|trace|..]), Preorder(t))
    decreases t, 1
  {
    var r := Walk(t, inbound, params, trace);
    var logged := trace + [Entry(t.name, params)];
    var succ := PreorderList(t.successList);
    var fail := PreorderList(t.failureList);
    assert Preorder(t) == [t.name] + (succ + fail);
    var tail := Names(r.trace[|logged|..]);
    assert Names(r.trace[|trace|..]) == [t.name] + tail;
    match Execute(t)
    case Raised(_) =>
      assert tail == [];
    case Done(Success, p) =>
      DrainFollowsPreorder(t.successList, Success, logged, Success, p);
      SubsequenceWithSuffix(tail, succ, fail);
    case Done(Failure, p) =>
      DrainFollowsPreorder(t.failureList, Failure, logged, Failure, p);
      SubsequenceWithPrefix(tail, fail, succ);
  }

  /** The names a drain logs are a subsequence of the list's preorder. */
  lemma {:induction false} DrainFollowsPreorder(kids: seq<Task>, branch: Outcome, trace: Trace, outcome: Outcome, payload: Payload)
    ensures IsSubsequence(Names(Drain(kids, branch, trace, outcome, payload).trace[|trace|..]), PreorderList(kids))
    decreases kids, 0
  {
    var r := Drain(kids, branch, trace, outcome, payload);
    if kids == [] {
      assert Names(r.trace[|trace|..]) == [];
    } else {
      assert PreorderList(kids) == Preorder(kids[0]) + PreorderList(kids[1..]);
      if RepeatsLast(trace, kids[0].name) {
        DrainFollowsPreorder(kids[1..], branch, trace, outcome, payload);
        SubsequenceWithPrefix(Names(r.trace[|trace|..]), PreorderList(kids[1..]), Preorder(kids[0]));
      } else {
        var c := Walk(kids[0], outcome, [payload], trace);
        WalkFollowsPreorder(kids[0], outcome, [payload], trace);
        if c.status.Raised? || (ShortCircuits(branch) && c.status.outcome == Failure) {
          SubsequenceWithSuffix(Names(c.trace[|trace|..]), Preorder(kids[0]), PreorderList(kids[1..]));
        } else {
          DrainFollowsPreorder(kids[1..], branch, c.trace, c.status.outcome, c.status.payload);
          NamesOfExtension(trace, c.trace, r.trace);
          SubsequenceConcat(Names(c.trace[|trace|..]), Preorder(kids[0]), Names(r.trace[|c.trace|..]), PreorderList(kids[1..]));
        }
      }
    }
  }

  /** The names appended over two successive extensions of a trace are those of the first, then those of the second. */
  lemma NamesOfExtension(a: Trace, b: Trace, c: Trace)
    requires |a| <= |b| <= |c| && c[..|b|] == b
    ensures Names(c[|a|..]) == Names(b[|a|..]) + Names(c[|b|..])
  {
    assert c[|a|..] == b[|a|..] + c[|b|..];
  }

  /** The shape of a walk: the task visited, then the sub-walks of the successors it visited, in order. */
  datatype Visit = Visit(name: string, children: seq<Visit>)

  /** The names a visit shape logs: its own, then those of its children's shapes. */
  function Flatten(v: Visit): (names: seq<string>)
    decreases v, 1
  {
    [v.name] + FlattenList(v.children)
  }

  /** The names of a list of visit shapes, one after the other. */
  function FlattenList(vs: seq<Visit>): (names: seq<string>)
    decreases vs, 0
  {
    if vs == [] then [] else Flatten(vs[0]) + FlattenList(vs[1..])
  }

  /**
   * `v` is a pruned preorder of `t`: it visits `t` and then walks an in-order
   * selection of the list that `t`'s own result selects, each child again
   * pruned; an abstract `t` has no visited children.
   */
  ghost predicate Prunes(v: Visit, t: Task)
    decreases t, 1
  {
    && v.name == t.name
    && match Execute(t)
       case Raised(_) => v.children == []
       case Done(Success, _) => PrunesList(v.children, t.successList)
       case Done(Failure, _) => PrunesList(v.children, t.failureList)
  }

  /** The shapes `vs` prune an in-order selection of `kids`, one shape per selected child. */
  ghost predicate PrunesList(vs: seq<Visit>, kids: seq<Task>)
    decreases kids, 0
  {
    if vs == [] then true
    else if kids == [] then false
    else (Prunes(vs[0], kids[0]) && PrunesList(vs[1..], kids[1..])) || PrunesList(vs, kids[1..])
  }

  /**
   * The names a walk logs are a pruned preorder of the tree: the task, then
   * whole sub-walks of some of the successors its result selects, in list
   * order, each again a pruned preorder.
   */
  lemma {:induction false} WalkPrunesTree(t: Task, inbound: Outcome, params: seq<Payload>, trace: Trace)
    ensures exists v :: Prunes(v, t) && Flatten(v) == Names(Walk(t, inbound, params, trace).trace[|trace|..])
    decreases t, 1
  {
    var r := Walk(t, inbound, params, trace);
    var logged := trace + [Entry(t.name, params)];
    var tail := Names(r.trace[|logged|..]);
    assert Names(r.trace[|trace|..]) == [t.name] + tail;
    match Execute(t)
    case Raised(_) =>
      var v := Visit(t.name, []);
      assert tail == [] && Flatten(v) == [t.name];
      assert Prunes(v, t);
    case Done(Success, p) =>
      DrainPrunesList(t.successList, Success, logged, Success, p);
      var vs :| PrunesList(vs, t.successList) && FlattenList(vs) == tail;
      assert Prunes(Visit(t.name, vs), t);
    case Done(Failure, p) =>
      DrainPrunesList(t.failureList, Failure, logged, Failure, p);
      var vs :| PrunesList(vs, t.failureList) && FlattenList(vs) == tail;
      assert Prunes(Visit(t.name, vs), t);
  }

  /** The names a drain logs are the pruned preorders of an in-order selection of the list. */
  lemma {:induction false} DrainPrunesList(kids: seq<Task>, branch: Outcome, trace: Trace, outcome: Outcome, payload: Payload)
    ensures exists vs :: PrunesList(vs, kids) && FlattenList(vs) == Names(Drain(kids, branch, trace, outcome, payload).trace[|trace|..])
    decreases kids, 0
  {
    var r := Drain(kids, branch, trace, outcome, payload);
    if kids == [] {
      assert Names(r.trace[|trace|..]) == [] == FlattenList([]);
      assert PrunesList([], kids);
    } else if RepeatsLast(trace, kids[0].name) {
      DrainPrunesList(kids[1..], branch, trace, outcome, payload);
      var vs :| PrunesList(vs, kids[1..]) && FlattenList(vs) == Names(r.trace[|trace|..]);
      assert PrunesList(vs, kids);
    } else {
      var c := Walk(kids[0], outcome, [payload], trace);
      WalkPrunesTree(kids[0], outcome, [payload], trace);
      var v :| Prunes(v, kids[0]) && Flatten(v) == Names(c.trace[|trace|..]);
      if c.status.Raised? || (ShortCircuits(branch) && c.status.outcome == Failure) {
        assert FlattenList([v]) == Flatten(v) + FlattenList([]);
        assert PrunesList([v], kids);
      } else {
        DrainPrunesList(kids[1..], branch, c.trace, c.status.outcome, c.status.payload);
        var vs :| PrunesList(vs, kids[1..]) && FlattenList(vs) == Names(r.trace[|c.trace|..]);
        NamesOfExtension(trace, c.trace, r.trace);
        assert ([v] + vs)[0] == v && ([v] + vs)[1..] == vs;
        assert FlattenList([v] + vs) == Flatten(v) + FlattenList(vs);
        assert PrunesList([v] + vs, kids);
      }
    }
  }

  /** Every task of the tree implements `execute`. */
  predicate AllImplemented(t: Task)
    decreases t
  {
    && t.behaviour.Implemented?
    && (forall i :: 0 <= i < |t.successList| ==> AllImplemented(t.successList[i]))
    && (forall i :: 0 <= i < |t.failureList| ==> AllImplemented(t.failureList[i]))
  }

  /** A walk over a tree of implemented tasks never raises. */
  lemma {:induction false} ImplementedWalkReturns(t: Task, inbound: Outcome, params: seq<Payload>, trace: Trace)
    requires AllImplemented(t)
    ensures Walk(t, inbound, params, trace).status.Done?
    decreases t, 1
  {
    var logged := trace + [Entry(t.name, params)];
    match Execute(t)
    case Done(Success, p) =>
      ImplementedDrainReturns(t.successList, Success, logged, Success, p);
    case Done(Failure, p) =>
      ImplementedDrainReturns(t.failureList, Failure, logged, Failure, p);
  }

  /** A drain of a list of implemented trees never raises. */
  lemma {:induction false} ImplementedDrainReturns(kids: seq<Task>, branch: Outcome, trace: Trace, outcome: Outcome, payload: Payload)
    requires forall i :: 0 <= i < |kids| ==> AllImplemented(kids[i])
    ensures Drain(kids, branch, trace, outcome, payload).status.Done?
    decreases kids, 0
  {
    if kids != [] {
      if RepeatsLast(trace, kids[0].name) {
        ImplementedDrainReturns(kids[1..], branch, trace, outcome, payload);
      } else {
        var c := Walk(kids[0], outcome, [payload], trace);
        ImplementedWalkReturns(kids[0], outcome, [payload], trace);
        if !(ShortCircuits(branch) && c.status.outcome == Failure) {
          ImplementedDrainReturns(kids[1..], branch, c.trace, c.status.outcome, c.status.payload);
        }
      }
    }
  }

  /**
   * What one `run` appends to the trace: the initial task entered with no
   * parameters, then child entries only; the names form a pruned preorder of
   * the tree, so no more entries than the tree has tasks; and a tree of
   * implemented tasks runs without raising.
   */
  lemma RunAppendsWalk(m: Manager)
    requires m.root.Some?
    ensures
      var r := Run(m);
      var added := r.manager.trace[|m.trace|..];
      && |added| >= 1
      && added[0] == Entry(m.root.value.name, [])
      && ChildEntriesFrom(r.manager.trace, |m.trace| + 1)
      && IsSubsequence(Names(added), Preorder(m.root.value))
      && (exists v :: Prunes(v, m.root.value) && Flatten(v) == Names(added))
      && |added| <= |Preorder(m.root.value)|
      && (AllImplemented(m.root.value) ==> r.raised.None?)
  {
    var t := m.root.value;
    WalkEntries(t, Success, [], m.trace);
    WalkFollowsPreorder(t, Success, [], m.trace);
    WalkPrunesTree(t, Success, [], m.trace);
    SubsequenceNoLonger(Names(Run(m).manager.trace[|m.trace|..]), Preorder(t));
    if AllImplemented(t) {
      ImplementedWalkReturns(t, Success, [], m.trace);
    }
  }
}
