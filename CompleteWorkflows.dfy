/** The end-to-end runs of the automation: the label cascade down the sub-issue tree, the
    estimate rollup up the parent chain, the auto-close of a parent whose children are
    closed (or its reopening when one reopens), and the full synchronization run that
    removes the `sync` label. Every run works in the repository of its triggering issue;
    `owner` and `repo` stand for that context. */
module CompleteWorkflows {
  import opened Wrappers
  import opened JsLib
  import opened Tracker
  import opened WorkflowLogic

  // ---------------------------------------------------------------------------
  // runLabelCascade
  // ---------------------------------------------------------------------------

  /** `c` appears in the sub-issue listing of `p`. */
  predicate IsChild(t: Tracker, p: nat, c: nat) {
    p in t && exists k :: 0 <= k < |t[p].subIssues| && t[p].subIssues[k].number == c
  }

  /** No walk down the sub-issue listings from `n` through existing issues is longer than
      `depth` steps. The cascade keeps no record of what it has visited, so it ends only on
      such a tree (a listing that returns to an ancestor makes it recurse forever). */
  predicate Bounded(t: Tracker, n: nat, depth: nat)
    decreases depth, 0
  {
    n in t ==> depth > 0 && AllBounded(t, t[n].subIssues, depth - 1)
  }

  predicate AllBounded(t: Tracker, subs: seq<SubIssue>, depth: nat)
    decreases depth, 1
  {
    forall k :: 0 <= k < |subs| ==> Bounded(t, subs[k].number, depth)
  }

  /** The numbers `cascade(n)` pushes onto `updatedIssues`, in order: each child of the
      listing, followed by everything below it. Listing a number that does not exist fails. */
  function Cascade(t: Tracker, n: nat, depth: nat): Result<seq<nat>>
    requires Bounded(t, n, depth)
    decreases depth, 0
  {
    if n !in t then Failure(NotFound) else CascadeAll(t, t[n].subIssues, depth - 1)
  }

  /** The `for` loop of `cascade` after visiting the children `subs` in order. */
  function CascadeAll(t: Tracker, subs: seq<SubIssue>, depth: nat): Result<seq<nat>>
    requires AllBounded(t, subs, depth)
    decreases depth, 1, |subs|
  {
    if subs == [] then Success([])
    else
      match CascadeAll(t, subs[..|subs| - 1], depth)
      case Failure(f) => Failure(f)
      case Success(front) =>
        var c := subs[|subs| - 1].number;
        match Cascade(t, c, depth)
        case Failure(f) => Failure(f)
        case Success(below) => Success(front + [c] + below)
  }

  /** The `addLabels` calls made for the labelled numbers, one each, in order. */
  function LabelCalls(owner: string, repo: string, numbers: seq<nat>, labelName: string): (r: seq<Effect>)
    ensures |r| == |numbers|
  {
    if numbers == [] then []
    else LabelCalls(owner, repo, numbers[..|numbers| - 1], labelName)
         + [AddLabels(IssueRef(owner, repo, numbers[|numbers| - 1]), [labelName])]
  }

  /** The `i`th call labels the `i`th number. */
  lemma {:induction false} LabelCallsAt(owner: string, repo: string, numbers: seq<nat>, labelName: string)
    ensures forall i :: 0 <= i < |numbers| ==>
              LabelCalls(owner, repo, numbers, labelName)[i] == AddLabels(IssueRef(owner, repo, numbers[i]), [labelName])
  {
    if numbers != [] {
      var front := numbers[..|numbers| - 1];
      LabelCallsAt(owner, repo, front, labelName);
      assert forall i :: 0 <= i < |front| ==> front[i] == numbers[i];
    }
  }

  lemma {:induction false} LabelCallsAppend(owner: string, repo: string, a: seq<nat>, b: seq<nat>, labelName: string)
    ensures LabelCalls(owner, repo, a + b, labelName) == LabelCalls(owner, repo, a, labelName) + LabelCalls(owner, repo, b, labelName)
    decreases |b|
  {
    if b == [] {
      assert a + b == a;
    } else {
      var b' := b[..|b| - 1];
      assert (a + b)[..|a + b| - 1] == a + b';
      LabelCallsAppend(owner, repo, a, b', labelName);
    }
  }

  /** A failure part-way through the loop is the loop's result. */
  lemma {:induction false} CascadeAllFailure(t: Tracker, subs: seq<SubIssue>, k: nat, depth: nat)
    requires k <= |subs| && AllBounded(t, subs, depth)
    requires CascadeAll(t, subs[..k], depth).Failure?
    ensures CascadeAll(t, subs, depth) == CascadeAll(t, subs[..k], depth)
    decreases |subs|
  {
    if k < |subs| {
      var front := subs[..|subs| - 1];
      assert front[..k] == subs[..k];
      CascadeAllFailure(t, front, k, depth);
    } else {
      assert subs[..k] == subs;
    }
  }

  /** `updatedIssues` and the `addLabels` calls, the state the recursion shares. */
  class CascadeRun {
    var updatedIssues: seq<nat>
    var effects: seq<Effect>

    constructor ()
      ensures updatedIssues == [] && effects == []
    {
      updatedIssues := [];
      effects := [];
    }
  }

  /** `cascade(issueNumber)`: labels each child, records it and recurses into it; a
      rejection stops the walk and is passed up. */
  method CascadeFrom(t: Tracker, n: nat, ghost depth: nat, labelName: string, owner: string, repo: string,
                     run: CascadeRun)
    returns (fault: Option<Fault>)
    requires Bounded(t, n, depth)
    modifies run
    decreases depth, 0
    ensures Cascade(t, n, depth).Failure? ==> fault == Some(Cascade(t, n, depth).fault)
    ensures Cascade(t, n, depth).Success? ==>
              && fault.None?
              && run.updatedIssues == old(run.updatedIssues) + Cascade(t, n, depth).value
              && run.effects == old(run.effects) + LabelCalls(owner, repo, Cascade(t, n, depth).value, labelName)
  {
    if n !in t {
      return Some(NotFound);
    }
    var children := t[n].subIssues;
    ghost var done: seq<nat> := [];
    for k := 0 to |children|
      invariant CascadeAll(t, children[..k], depth - 1) == Success(done)
      invariant run.updatedIssues == old(run.updatedIssues) + done
      invariant run.effects == old(run.effects) + LabelCalls(owner, repo, done, labelName)
    {
      var c := children[k].number;
      CascadeAllStep(t, children, k, depth - 1);
      var f := LabelAndDescend(t, c, depth - 1, labelName, owner, repo, run);
      if f.Some? {
        return f;
      }
      ghost var below := [c] + Cascade(t, c, depth - 1).value;
      LabelCallsAppend(owner, repo, done, below, labelName);
      AppendAssoc(old(run.updatedIssues), done, below);
      AppendAssoc(old(run.effects), LabelCalls(owner, repo, done, labelName), LabelCalls(owner, repo, below, labelName));
      done := done + below;
    }
    assert children[..|children|] == children;
    fault := None;
  }

  /** The body of the loop of `cascade` for the child `c`: labels it, records it and
      recurses into it. */
  method LabelAndDescend(t: Tracker, c: nat, ghost depth: nat, labelName: string, owner: string, repo: string,
                         run: CascadeRun)
    returns (fault: Option<Fault>)
    requires Bounded(t, c, depth)
    modifies run
    decreases depth, 1
    ensures Cascade(t, c, depth).Failure? ==> fault == Some(Cascade(t, c, depth).fault)
    ensures Cascade(t, c, depth).Success? ==>
              && fault.None?
              && run.updatedIssues == old(run.updatedIssues) + ([c] + Cascade(t, c, depth).value)
              && run.effects == old(run.effects) + LabelCalls(owner, repo, [c] + Cascade(t, c, depth).value, labelName)
  {
    run.effects := run.effects + [AddLabels(IssueRef(owner, repo, c), [labelName])];
    run.updatedIssues := run.updatedIssues + [c];
    fault := CascadeFrom(t, c, depth, labelName, owner, repo, run);
    if fault.None? {
      var sub := Cascade(t, c, depth).value;
      LabelCallsAppend(owner, repo, [c], sub, labelName);
      assert LabelCalls(owner, repo, [c], labelName) == [AddLabels(IssueRef(owner, repo, c), [labelName])];
      AppendAssoc(old(run.updatedIssues), [c], sub);
      AppendAssoc(old(run.effects), LabelCalls(owner, repo, [c], labelName), LabelCalls(owner, repo, sub, labelName));
    }
  }

  lemma AppendAssoc<T>(a: seq<T>, b: seq<T>, c: seq<T>)
    ensures a + b + c == a + (b + c)
  {
  }

  /** One more turn of the loop. */
  lemma CascadeAllStep(t: Tracker, subs: seq<SubIssue>, k: nat, depth: nat)
    requires k < |subs| && AllBounded(t, subs, depth)
    requires CascadeAll(t, subs[..k], depth).Success?
    ensures Cascade(t, subs[k].number, depth).Failure? ==> CascadeAll(t, subs, depth) == Cascade(t, subs[k].number, depth)
    ensures Cascade(t, subs[k].number, depth).Success? ==>
              CascadeAll(t, subs[..k + 1], depth)
              == Success(CascadeAll(t, subs[..k], depth).value + ([subs[k].number] + Cascade(t, subs[k].number, depth).value))
  {
    assert subs[..k + 1][..k] == subs[..k];
    if Cascade(t, subs[k].number, depth).Failure? {
      CascadeAllFailure(t, subs, k + 1, depth);
    } else {
      AppendAssoc(CascadeAll(t, subs[..k], depth).value, [subs[k].number], Cascade(t, subs[k].number, depth).value);
    }
  }

  /** `runLabelCascade`: the numbers labelled, and the `addLabels` calls made, one per number. */
  method RunLabelCascade(t: Tracker, n: nat, ghost depth: nat, labelName: string, owner: string, repo: string)
    returns (r: Result<seq<nat>>, effects: seq<Effect>)
    requires Bounded(t, n, depth)
    ensures r == Cascade(t, n, depth)
    ensures r.Success? ==> effects == LabelCalls(owner, repo, r.value, labelName)
  {
    var run := new CascadeRun();
    var fault := CascadeFrom(t, n, depth, labelName, owner, repo, run);
    effects := run.effects;
    if fault.Some? {
      assert Cascade(t, n, depth).Failure?;
      r := Failure(fault.value);
      assert r == Cascade(t, n, depth);
    } else {
      assert Cascade(t, n, depth).Success?;
      assert run.updatedIssues == Cascade(t, n, depth).value;
      r := Success(run.updatedIssues);
    }
  }

  /** `c` appears in the listing `subs`. */
  predicate InListing(subs: seq<SubIssue>, c: nat) {
    exists k :: 0 <= k < |subs| && subs[k].number == c
  }

  /** The `i`th number of `r` is one of `subs`, or a child of a number before it. */
  predicate Reached(t: Tracker, subs: seq<SubIssue>, r: seq<nat>, i: nat)
    requires i < |r|
  {
    InListing(subs, r[i]) || exists j :: 0 <= j < i && IsChild(t, r[j], r[i])
  }

  lemma {:induction false} CascadeAllOrder(t: Tracker, subs: seq<SubIssue>, depth: nat)
    requires AllBounded(t, subs, depth)
    requires CascadeAll(t, subs, depth).Success?
    ensures var r := CascadeAll(t, subs, depth).value;
            forall i :: 0 <= i < |r| ==> Reached(t, subs, r, i)
    decreases depth, |subs|
  {
    if subs != [] {
      var pre := subs[..|subs| - 1];
      var c := subs[|subs| - 1].number;
      var front := CascadeAll(t, pre, depth).value;
      var below := Cascade(t, c, depth).value;
      var r := CascadeAll(t, subs, depth).value;
      assert r == front + [c] + below;
      CascadeAllOrder(t, pre, depth);
      CascadeAllOrder(t, t[c].subIssues, depth - 1);
      forall i | 0 <= i < |r| ensures Reached(t, subs, r, i) {
        if i < |front| {
          assert r[i] == front[i];
          assert Reached(t, pre, front, i);
          if InListing(pre, front[i]) {
            var k :| 0 <= k < |pre| && pre[k].number == front[i];
            assert subs[k] == pre[k];
          } else {
            var j :| 0 <= j < i && IsChild(t, front[j], front[i]);
            assert r[j] == front[j];
          }
        } else if i == |front| {
          assert subs[|subs| - 1].number == r[i];
        } else {
          var m := i - |front| - 1;
          assert r[i] == below[m];
          assert Reached(t, t[c].subIssues, below, m);
          if InListing(t[c].subIssues, below[m]) {
            assert r[|front|] == c;
            assert IsChild(t, r[|front|], r[i]);
          } else {
            var j :| 0 <= j < m && IsChild(t, below[j], below[m]);
            assert r[|front| + 1 + j] == below[j];
          }
        }
      }
    }
  }

  /** Every labelled number is a descendant of the triggering issue, listed after its
      parent: the first is a child of the triggering issue, and each one is a child of the
      triggering issue or of a number labelled before it. */
  lemma CascadeOrder(t: Tracker, n: nat, depth: nat)
    requires Bounded(t, n, depth)
    requires Cascade(t, n, depth).Success?
    ensures var r := Cascade(t, n, depth).value;
            forall i :: 0 <= i < |r| ==> IsChild(t, n, r[i]) || exists j :: 0 <= j < i && IsChild(t, r[j], r[i])
  {
    CascadeAllOrder(t, t[n].subIssues, depth - 1);
    var r := Cascade(t, n, depth).value;
    forall i | 0 <= i < |r| ensures IsChild(t, n, r[i]) || exists j :: 0 <= j < i && IsChild(t, r[j], r[i]) {
      assert Reached(t, t[n].subIssues, r, i);
    }
  }

  /** Everything the loop should reach is labelled: each number of `subs`, and each child
      of a labelled number. */
  lemma {:induction false} CascadeAllComplete(t: Tracker, subs: seq<SubIssue>, depth: nat)
    requires AllBounded(t, subs, depth)
    requires CascadeAll(t, subs, depth).Success?
    ensures var r := CascadeAll(t, subs, depth).value;
            (forall k :: 0 <= k < |subs| ==> subs[k].number in r)
            && forall m, c :: m in r && IsChild(t, m, c) ==> c in r
    decreases depth, |subs|
  {
    if subs != [] {
      var pre := subs[..|subs| - 1];
      var c := subs[|subs| - 1].number;
      var front := CascadeAll(t, pre, depth).value;
      var below := Cascade(t, c, depth).value;
      var r := CascadeAll(t, subs, depth).value;
      assert r == front + [c] + below;
      CascadeAllComplete(t, pre, depth);
      CascadeAllComplete(t, t[c].subIssues, depth - 1);
      forall k | 0 <= k < |subs| ensures subs[k].number in r {
        if k < |pre| {
          assert subs[k] == pre[k];
        }
      }
      forall m, x | m in r && IsChild(t, m, x) ensures x in r {
        if m in front {
          assert x in front;
        } else if m == c {
          var k :| 0 <= k < |t[c].subIssues| && t[c].subIssues[k].number == x;
          assert x in below;
        } else {
          assert m in below;
          assert x in below;
        }
      }
    }
  }

  /** The other half of `CascadeOrder`: every child of the triggering issue, and every
      child of a labelled number, is labelled. With `CascadeOrder`, the labelled numbers
      are exactly the descendants of the triggering issue. */
  lemma CascadeComplete(t: Tracker, n: nat, depth: nat)
    requires Bounded(t, n, depth)
    requires Cascade(t, n, depth).Success?
    ensures var r := Cascade(t, n, depth).value;
            (forall c :: IsChild(t, n, c) ==> c in r)
            && forall m, c :: m in r && IsChild(t, m, c) ==> c in r
  {
    CascadeAllComplete(t, t[n].subIssues, depth - 1);
  }

  lemma {:induction false} BoundedMonotone(t: Tracker, n: nat, d: nat, e: nat)
    requires Bounded(t, n, d) && d <= e
    ensures Bounded(t, n, e)
    decreases d
  {
    if n in t {
      forall k | 0 <= k < |t[n].subIssues| ensures Bounded(t, t[n].subIssues[k].number, e - 1) {
        BoundedMonotone(t, t[n].subIssues[k].number, d - 1, e - 1);
      }
    }
  }

  /** Everything the loop labels has a tree of height at most `depth` below it. */
  lemma {:induction false} CascadeAllBounded(t: Tracker, subs: seq<SubIssue>, depth: nat)
    requires AllBounded(t, subs, depth)
    requires CascadeAll(t, subs, depth).Success?
    ensures forall m :: m in CascadeAll(t, subs, depth).value ==> Bounded(t, m, depth)
    decreases depth, |subs|
  {
    if subs != [] {
      var pre := subs[..|subs| - 1];
      var c := subs[|subs| - 1].number;
      CascadeAllBounded(t, pre, depth);
      CascadeAllBounded(t, t[c].subIssues, depth - 1);
      forall m | m in Cascade(t, c, depth).value ensures Bounded(t, m, depth) {
        BoundedMonotone(t, m, depth - 1, depth);
      }
    }
  }

  /** The bound only has to be large enough: the labelled numbers do not depend on it. */
  lemma {:induction false} CascadeDepthIrrelevant(t: Tracker, n: nat, d: nat, e: nat)
    requires Bounded(t, n, d) && Bounded(t, n, e)
    ensures Cascade(t, n, d) == Cascade(t, n, e)
    decreases d, 0
  {
    if n in t {
      CascadeAllDepthIrrelevant(t, t[n].subIssues, d - 1, e - 1);
    }
  }

  lemma {:induction false} CascadeAllDepthIrrelevant(t: Tracker, subs: seq<SubIssue>, d: nat, e: nat)
    requires AllBounded(t, subs, d) && AllBounded(t, subs, e)
    ensures CascadeAll(t, subs, d) == CascadeAll(t, subs, e)
    decreases d, 1, |subs|
  {
    if subs != [] {
      CascadeAllDepthIrrelevant(t, subs[..|subs| - 1], d, e);
      CascadeDepthIrrelevant(t, subs[|subs| - 1].number, d, e);
    }
  }

  /** On a tree that ends, the triggering issue is never labelled by its own cascade. */
  lemma {:induction false} CascadeNeverLabelsRoot(t: Tracker, n: nat, depth: nat)
    requires Bounded(t, n, depth)
    requires Cascade(t, n, depth).Success?
    ensures n !in Cascade(t, n, depth).value
    decreases depth
  {
    if n in Cascade(t, n, depth).value {
      CascadeAllBounded(t, t[n].subIssues, depth - 1);
      assert Bounded(t, n, depth - 1);
      CascadeDepthIrrelevant(t, n, depth - 1, depth);
      CascadeNeverLabelsRoot(t, n, depth - 1);
    }
  }

  /** An open issue with the given sub-issues, all open. */
  function Parent(children: seq<nat>): IssueRecord {
    IssueRecord("", "open", None, None, seq(|children|, i requires 0 <= i < |children| => SubIssue(children[i], "open", None)))
  }

  /** 5 has sub-issues 10 and 11, and 11 has sub-issue 20. */
  const CascadeTree: Tracker := map[5 := Parent([10, 11]), 10 := Parent([]), 11 := Parent([20]), 20 := Parent([])]

  /** The loop over a listing of one or two sub-issues, one step at a time. */
  lemma CascadeAllOne(t: Tracker, a: SubIssue, depth: nat)
    requires Bounded(t, a.number, depth)
    ensures AllBounded(t, [a], depth)
    ensures Cascade(t, a.number, depth).Success? ==>
              CascadeAll(t, [a], depth) == Success([a.number] + Cascade(t, a.number, depth).value)
  {
    assert [a][..0] == [];
    assert CascadeAll(t, [a][..0], depth) == Success([]);
    if Cascade(t, a.number, depth).Success? {
      var below := Cascade(t, a.number, depth).value;
      assert [] + [a.number] + below == [a.number] + below;
    }
  }

  lemma CascadeAllTwo(t: Tracker, a: SubIssue, b: SubIssue, depth: nat)
    requires Bounded(t, a.number, depth) && Bounded(t, b.number, depth)
    ensures AllBounded(t, [a, b], depth)
    ensures Cascade(t, a.number, depth).Success? && Cascade(t, b.number, depth).Success? ==>
              CascadeAll(t, [a, b], depth)
              == Success([a.number] + Cascade(t, a.number, depth).value + [b.number] + Cascade(t, b.number, depth).value)
  {
    assert [a, b][..1] == [a];
    CascadeAllOne(t, a, depth);
  }

  lemma CascadeTreeExample()
    ensures Bounded(CascadeTree, 5, 3)
    ensures Cascade(CascadeTree, 5, 3) == Success([10, 11, 20])
  {
    var t := CascadeTree;
    var s20 := SubIssue(20, "open", None);
    var s10 := SubIssue(10, "open", None);
    var s11 := SubIssue(11, "open", None);
    assert t[11].subIssues == [s20];
    assert t[5].subIssues == [s10, s11];
    assert t[10].subIssues == [] && t[20].subIssues == [];
    assert Bounded(t, 20, 1);
    assert Bounded(t, 10, 2);
    assert Bounded(t, 11, 2);
    assert Bounded(t, 5, 3);
    assert Cascade(t, 20, 1) == Success([]);
    assert Cascade(t, 10, 2) == Success([]);
    CascadeAllOne(t, s20, 1);
    assert [20] + [] == [20];
    assert CascadeAll(t, [s20], 1) == Success([20]);
    assert Cascade(t, 11, 2) == CascadeAll(t, [s20], 1);
    CascadeAllTwo(t, s10, s11, 2);
    assert [10] + [] + [11] + [20] == [10, 11, 20];
    assert Cascade(t, 5, 3) == CascadeAll(t, [s10, s11], 2);
  }

  /** The cascade of a label onto 5 labels 10, 11 and 20, in that order, with one
      `addLabels` call each. */
  method CascadeTreeRun() returns (updated: seq<nat>, effects: seq<Effect>)
    ensures updated == [10, 11, 20]
    ensures effects == [AddLabels(IssueRef("test-org", "test-repo", 10), ["priority:critical"]),
                        AddLabels(IssueRef("test-org", "test-repo", 11), ["priority:critical"]),
                        AddLabels(IssueRef("test-org", "test-repo", 20), ["priority:critical"])]
  {
    CascadeTreeExample();
    var r;
    r, effects := RunLabelCascade(CascadeTree, 5, 3, "priority:critical", "test-org", "test-repo");
    updated := r.value;
  }

  /** With no record of visited issues, a sub-issue listed under two parents is labelled
      once for each: 1 has 2 and 3, and both have 4. */
  lemma SharedChildLabelledTwice()
    ensures var t := map[1 := Parent([2, 3]), 2 := Parent([4]), 3 := Parent([4]), 4 := Parent([])];
            Bounded(t, 1, 3) && Cascade(t, 1, 3) == Success([2, 4, 3, 4])
  {
    var t := map[1 := Parent([2, 3]), 2 := Parent([4]), 3 := Parent([4]), 4 := Parent([])];
    var s2 := SubIssue(2, "open", None);
    var s3 := SubIssue(3, "open", None);
    var s4 := SubIssue(4, "open", None);
    assert t[1].subIssues == [s2, s3];
    assert t[2].subIssues == [s4] && t[3].subIssues == [s4] && t[4].subIssues == [];
    assert Bounded(t, 4, 1);
    assert Bounded(t, 2, 2) && Bounded(t, 3, 2);
    assert Bounded(t, 1, 3);
    assert Cascade(t, 4, 1) == Success([]);
    CascadeAllOne(t, s4, 1);
    assert [4] + [] == [4];
    assert CascadeAll(t, [s4], 1) == Success([4]);
    assert Cascade(t, 2, 2) == CascadeAll(t, [s4], 1);
    assert Cascade(t, 3, 2) == CascadeAll(t, [s4], 1);
    CascadeAllTwo(t, s2, s3, 2);
    assert [2] + [4] + [3] + [4] == [2, 4, 3, 4];
    assert Cascade(t, 1, 3) == CascadeAll(t, [s2, s3], 2);
  }

  // ---------------------------------------------------------------------------
  // runEstimateRollup
  // ---------------------------------------------------------------------------

  /** One step up from issue `n`: its parent's number, read from `parent_issue_url`;
      `null` when the URL is missing or empty. A parent that `parseInt` cannot read, or
      that does not exist, makes the sub-issue listing reject. */
  function ParentStep(t: Tracker, n: nat): (r: Result<Option<nat>>)
    ensures n !in t ==> r == Failure(NotFound)
    ensures r.Success? && r.value.Some? ==> r.value.value in t
  {
    match FindParentIssue(t, n)
    case Failure(f) => Failure(f)
    case Success(None) => Success(None)
    case Success(Some(parsed)) =>
      if parsed.Int? && Exists(t, parsed.value) then Success(Some(parsed.value as nat)) else Failure(NotFound)
  }

  /** A parent URL ending in `/` and the number of an existing issue leads to that issue;
      one ending in the number of a missing issue fails. */
  lemma ParentStepOfUrl(t: Tracker, n: nat, prefix: string, p: nat)
    requires n in t && t[n].parentIssueUrl == Some(prefix + "/" + NatToString(p))
    ensures p in t ==> ParentStep(t, n) == Success(Some(p))
    ensures p !in t ==> ParentStep(t, n) == Failure(NotFound)
  {
    ParentFromUrl(t, n, prefix, p);
  }

  /** What one step of the climb finds above an issue. The rollup below is written
      against any such lookup; the workflow's own is `ParentLookup(t)`. */
  type Lookup = nat -> Result<Option<nat>>

  function ParentLookup(t: Tracker): Lookup {
    n => ParentStep(t, n)
  }

  /** Every parent the lookup finds is an issue of the tracker. */
  ghost predicate LeadsInto(t: Tracker, up: Lookup) {
    forall m: nat :: up(m).Success? && up(m).value.Some? ==> up(m).value.value in t
  }

  lemma ParentLookupLeadsInto(t: Tracker)
    ensures LeadsInto(t, ParentLookup(t))
  {
  }

  /** The chain of parents above `n` has at most `depth` links: the rollup climbs without
      remembering where it has been, so it ends only on such a chain. */
  predicate ChainBounded(up: Lookup, n: nat, depth: nat)
    decreases depth
  {
    match up(n)
    case Success(Some(p)) => depth > 0 && ChainBounded(up, p, depth - 1)
    case _ => true
  }

  /** How the loop reads one child's totals. */
  type SumsLookup = nat -> Result<Sums>

  /** The rollup's reading: the child's item's Estimate and Remaining. */
  function ItemLookup(items: seq<ProjectItem>): SumsLookup {
    (c: nat) => ItemSums(items, c)
  }

  /** The totals after a loop over the children that reads each with `sumOf` has visited
      `children`: the first failure, or every child's totals added up. */
  function SumsOf(sumOf: SumsLookup, children: seq<SubIssue>): Result<Sums> {
    if children == [] then Success(Sums(0, 0))
    else Add(SumsOf(sumOf, children[..|children| - 1]), sumOf(children[|children| - 1].number))
  }

  /** The totals after the loop over the parent's children: every child counts, closed or
      open. */
  function ListingSums(items: seq<ProjectItem>, children: seq<SubIssue>): Result<Sums> {
    SumsOf(ItemLookup(items), children)
  }

  /** What one call of `rollupToParent` writes: the parent and its totals. */
  datatype Write = Write(parent: nat, sums: Sums)

  /** The writes of `rollupToParent(n)` and of the calls it makes, in order. */
  function Rollup(t: Tracker, items: seq<ProjectItem>, up: Lookup, n: nat, depth: nat): Result<seq<Write>>
    requires LeadsInto(t, up) && ChainBounded(up, n, depth)
    decreases depth
  {
    match up(n)
    case Failure(f) => Failure(f)
    case Success(None) => Success([])
    case Success(Some(p)) =>
      match ListingSums(items, t[p].subIssues)
      case Failure(f) => Failure(f)
      case Success(sums) =>
        match Rollup(t, items, up, p, depth - 1)
        case Failure(f) => Failure(f)
        case Success(rest) => Success([Write(p, sums)] + rest)
  }

  function Parents(ws: seq<Write>): (r: seq<nat>)
    ensures |r| == |ws| && forall i :: 0 <= i < |r| ==> r[i] == ws[i].parent
  {
    seq(|ws|, i requires 0 <= i < |ws| => ws[i].parent)
  }

  function Value(w: Write, estimate: bool): int {
    if estimate then w.sums.estimate else w.sums.remaining
  }

  /** The `estimates` (or `remaining`) object after the writes `ws`, applied in order. */
  function Record(m: map<nat, int>, ws: seq<Write>, estimate: bool): map<nat, int>
    decreases |ws|
  {
    if ws == [] then m else Record(m[ws[0].parent := Value(ws[0], estimate)], ws[1..], estimate)
  }

  /** `updatedParents`, `estimates` and `remaining`, the state the recursion shares. */
  class RollupRun {
    var updatedParents: seq<nat>
    var estimates: map<nat, int>
    var remaining: map<nat, int>

    constructor ()
      ensures Snapshot() == RollupResult([], map[], map[])
    {
      updatedParents := [];
      estimates := map[];
      remaining := map[];
    }

    function Snapshot(): RollupResult
      reads this
    {
      RollupResult(updatedParents, estimates, remaining)
    }
  }

  /** `{updatedParents, estimates, remaining}` */
  datatype RollupResult = RollupResult(updatedParents: seq<nat>, estimates: map<nat, int>, remaining: map<nat, int>)

  /** The shared state after the writes `ws`, applied in order. */
  function Apply(s: RollupResult, ws: seq<Write>): RollupResult {
    RollupResult(s.updatedParents + Parents(ws), Record(s.estimates, ws, true), Record(s.remaining, ws, false))
  }

  /** Applying one write and then the rest. */
  lemma ApplyCons(s: RollupResult, w: Write, rest: seq<Write>)
    ensures Apply(s, [w] + rest)
            == Apply(RollupResult(s.updatedParents + [w.parent], s.estimates[w.parent := w.sums.estimate],
                                  s.remaining[w.parent := w.sums.remaining]), rest)
  {
    assert ([w] + rest)[1..] == rest;
    assert Parents([w] + rest) == [w.parent] + Parents(rest);
  }

  /** A failure part-way through the loop over the children is the loop's result. */
  lemma {:induction false} SumsOfFailure(sumOf: SumsLookup, children: seq<SubIssue>, k: nat)
    requires k <= |children|
    requires SumsOf(sumOf, children[..k]).Failure?
    ensures SumsOf(sumOf, children) == SumsOf(sumOf, children[..k])
    decreases |children|
  {
    if k < |children| {
      var front := children[..|children| - 1];
      assert front[..k] == children[..k];
      SumsOfFailure(sumOf, front, k);
    } else {
      assert children[..k] == children;
    }
  }

  /** One more child of the loop: its totals are added to the totals so far, and a failure
      ends the whole loop. */
  lemma {:induction false} SumsOfNext(sumOf: SumsLookup, children: seq<SubIssue>, k: nat, total: Sums)
    requires k < |children|
    requires SumsOf(sumOf, children[..k]) == Success(total)
    ensures sumOf(children[k].number).Failure? ==> SumsOf(sumOf, children) == Failure(sumOf(children[k].number).fault)
    ensures sumOf(children[k].number).Success? ==>
              SumsOf(sumOf, children[..k + 1])
              == Success(Sums(total.estimate + sumOf(children[k].number).value.estimate,
                              total.remaining + sumOf(children[k].number).value.remaining))
  {
    assert children[..k + 1][..k] == children[..k];
    if sumOf(children[k].number).Failure? {
      SumsOfFailure(sumOf, children, k + 1);
    }
  }

  /** The `for` loop over the parent's children in `rollupToParent`: each child's totals
      are read with `sumOf` and added up, and the first failure ends the loop. */
  method SumChildren(sumOf: SumsLookup, children: seq<SubIssue>) returns (r: Result<Sums>)
    ensures r == SumsOf(sumOf, children)
  {
    var totalEst, totalRem := 0, 0;
    assert children[..0] == [];
    for k := 0 to |children|
      invariant SumsOf(sumOf, children[..k]) == Success(Sums(totalEst, totalRem))
    {
      SumsOfNext(sumOf, children, k, Sums(totalEst, totalRem));
      var sums := sumOf(children[k].number);
      if sums.Failure? {
        return Failure(sums.fault);
      }
      totalEst := totalEst + sums.value.estimate;
      totalRem := totalRem + sums.value.remaining;
    }
    assert children[..|children|] == children;
    r := Success(Sums(totalEst, totalRem));
  }

  /** `rollupToParent(issueNumber)`, with `up` finding the parent: stops at the top,
      otherwise adds up the Estimate and Remaining of every child of the parent, records
      them for the parent and carries on from the parent. */
  method RollupToParent(t: Tracker, items: seq<ProjectItem>, up: Lookup, n: nat, ghost depth: nat, run: RollupRun)
    returns (fault: Option<Fault>)
    requires LeadsInto(t, up) && ChainBounded(up, n, depth)
    modifies run
    decreases depth
    ensures var ws := Rollup(t, items, up, n, depth);
            && (ws.Failure? ==> fault == Some(ws.fault))
            && (ws.Success? ==> fault.None? && run.Snapshot() == Apply(old(run.Snapshot()), ws.value))
  {
    var step := up(n);
    if step.Failure? {
      return Some(step.fault);
    }
    if step.value.None? {
      assert Parents([]) == [];
      return None;
    }
    var p := step.value.value;
    var sums := SumChildren(ItemLookup(items), t[p].subIssues);
    if sums.Failure? {
      return Some(sums.fault);
    }
    RollupAt(t, items, up, n, depth, p, sums.value);
    ghost var before := run.Snapshot();
    run.estimates := run.estimates[p := sums.value.estimate];
    run.remaining := run.remaining[p := sums.value.remaining];
    run.updatedParents := run.updatedParents + [p];
    fault := RollupToParent(t, items, up, p, depth - 1, run);
    if fault.None? {
      ApplyCons(before, Write(p, sums.value), Rollup(t, items, up, p, depth - 1).value);
    }
  }

  /** The writes once the parent `p` and its totals are known. */
  lemma RollupAt(t: Tracker, items: seq<ProjectItem>, up: Lookup, n: nat, depth: nat, p: nat, sums: Sums)
    requires LeadsInto(t, up) && ChainBounded(up, n, depth)
    requires up(n) == Success(Some(p))
    requires ListingSums(items, t[p].subIssues) == Success(sums)
    ensures depth > 0 && ChainBounded(up, p, depth - 1)
    ensures Rollup(t, items, up, p, depth - 1).Failure? ==> Rollup(t, items, up, n, depth) == Rollup(t, items, up, p, depth - 1)
    ensures Rollup(t, items, up, p, depth - 1).Success? ==>
              Rollup(t, items, up, n, depth) == Success([Write(p, sums)] + Rollup(t, items, up, p, depth - 1).value)
  {
  }

  /** What `runEstimateRollup` returns when triggered on issue `n`. */
  function RollupOutcome(t: Tracker, items: seq<ProjectItem>, n: nat, depth: nat): Result<RollupResult>
    requires ChainBounded(ParentLookup(t), n, depth)
  {
    ParentLookupLeadsInto(t);
    match Rollup(t, items, ParentLookup(t), n, depth)
    case Failure(f) => Failure(f)
    case Success(ws) => Success(Apply(RollupResult([], map[], map[]), ws))
  }

  /** `runEstimateRollup` */
  method RunEstimateRollup(t: Tracker, items: seq<ProjectItem>, n: nat, ghost depth: nat)
    returns (r: Result<RollupResult>)
    requires ChainBounded(ParentLookup(t), n, depth)
    ensures r == RollupOutcome(t, items, n, depth)
  {
    ParentLookupLeadsInto(t);
    var run := new RollupRun();
    var fault := RollupToParent(t, items, ParentLookup(t), n, depth, run);
    if fault.Some? {
      assert Rollup(t, items, ParentLookup(t), n, depth).Failure?;
      r := Failure(fault.value);
    } else {
      assert Rollup(t, items, ParentLookup(t), n, depth).Success?;
      r := Success(RollupResult(run.updatedParents, run.estimates, run.remaining));
    }
  }

  /** Every write gives its parent the totals of that parent's own listing of children. */
  ghost predicate Consistent(t: Tracker, items: seq<ProjectItem>, ws: seq<Write>) {
    forall i :: 0 <= i < |ws| ==>
      ws[i].parent in t && ListingSums(items, t[ws[i].parent].subIssues) == Success(ws[i].sums)
  }

  /** `ps` is the chain of parents above `n`, in order, up to an issue with no parent. */
  ghost predicate Chain(up: Lookup, n: nat, ps: seq<nat>)
    decreases |ps|
  {
    match up(n)
    case Success(None) => ps == []
    case Success(Some(p)) => ps != [] && ps[0] == p && Chain(up, p, ps[1..])
    case Failure(_) => false
  }

  /** The chain of parents above `n` as the workflow reads them from `parent_issue_url`. */
  ghost predicate ParentChain(t: Tracker, n: nat, ps: seq<nat>)
    decreases |ps|
  {
    match ParentStep(t, n)
    case Success(None) => ps == []
    case Success(Some(p)) => ps != [] && ps[0] == p && ParentChain(t, p, ps[1..])
    case Failure(_) => false
  }

  lemma {:induction false} ChainOfParentLookup(t: Tracker, n: nat, ps: seq<nat>)
    ensures Chain(ParentLookup(t), n, ps) <==> ParentChain(t, n, ps)
    decreases |ps|
  {
    if ps != [] {
      ChainOfParentLookup(t, ps[0], ps[1..]);
    }
  }

  /** The writes stay within the bound, each gives its parent that parent's totals, and
      their parents are the chain above `n`. */
  lemma {:induction false} RollupClimbs(t: Tracker, items: seq<ProjectItem>, up: Lookup, n: nat, depth: nat)
    requires LeadsInto(t, up) && ChainBounded(up, n, depth)
    requires Rollup(t, items, up, n, depth).Success?
    ensures var ws := Rollup(t, items, up, n, depth).value;
            |ws| <= depth && Consistent(t, items, ws) && Chain(up, n, Parents(ws))
    decreases depth
  {
    var ws := Rollup(t, items, up, n, depth).value;
    if ws != [] {
      var p := ws[0].parent;
      assert up(n) == Success(Some(p));
      RollupAt(t, items, up, n, depth, p, ws[0].sums);
      var rest := Rollup(t, items, up, p, depth - 1).value;
      RollupClimbs(t, items, up, p, depth - 1);
      assert ws == [ws[0]] + rest;
      assert Parents(ws)[1..] == Parents(rest);
    }
  }

  /** A chain is determined by where it starts. */
  lemma {:induction false} ChainUnique(up: Lookup, n: nat, a: seq<nat>, b: seq<nat>)
    requires Chain(up, n, a) && Chain(up, n, b)
    ensures a == b
    decreases |a|
  {
    if a != [] {
      ChainUnique(up, a[0], a[1..], b[1..]);
    }
  }

  /** What follows a link of a chain is the chain above that link. */
  lemma {:induction false} ChainSuffix(up: Lookup, n: nat, ps: seq<nat>, i: nat)
    requires Chain(up, n, ps) && i < |ps|
    ensures Chain(up, ps[i], ps[i + 1..])
    decreases i
  {
    if i > 0 {
      ChainSuffix(up, ps[0], ps[1..], i - 1);
      assert ps[1..][i - 1] == ps[i] && ps[1..][i..] == ps[i + 1..];
    }
  }

  /** No issue appears twice on a chain: a repeat would make it go round forever. */
  lemma ChainDistinct(up: Lookup, n: nat, ps: seq<nat>)
    requires Chain(up, n, ps)
    ensures forall i, j :: 0 <= i < j < |ps| ==> ps[i] != ps[j]
  {
    forall i, j | 0 <= i < j < |ps|
      ensures ps[i] != ps[j]
    {
      if ps[i] == ps[j] {
        ChainSuffix(up, n, ps, i);
        ChainSuffix(up, n, ps, j);
        ChainUnique(up, ps[i], ps[i + 1..], ps[j + 1..]);
      }
    }
  }

  /** A number that some write names ends with the value every write to it gave; any
      other keeps its value from before. */
  lemma {:induction false} RecordAt(m: map<nat, int>, ws: seq<Write>, estimate: bool, k: nat, v: int)
    ensures k in Record(m, ws, estimate) <==> k in m || k in Parents(ws)
    ensures k !in Parents(ws) && k in m ==> Record(m, ws, estimate)[k] == m[k]
    ensures k in Parents(ws) && (forall i :: 0 <= i < |ws| && ws[i].parent == k ==> Value(ws[i], estimate) == v)
            ==> Record(m, ws, estimate)[k] == v
    decreases |ws|
  {
    if ws != [] {
      var m' := m[ws[0].parent := Value(ws[0], estimate)];
      var rest := ws[1..];
      RecordAt(m', rest, estimate, k, v);
      assert Parents(ws) == [ws[0].parent] + Parents(rest);
      assert forall i :: 0 <= i < |rest| ==> rest[i] == ws[i + 1];
    }
  }

  /** Consistent writes applied to the empty state record, for each parent written and
      for no other number, exactly that parent's totals. */
  lemma ConsistentTotals(t: Tracker, items: seq<ProjectItem>, ws: seq<Write>)
    requires Consistent(t, items, ws)
    ensures var res := Apply(RollupResult([], map[], map[]), ws);
            && res.updatedParents == Parents(ws)
            && (forall p :: p in res.estimates <==> p in res.updatedParents)
            && (forall p :: p in res.remaining <==> p in res.updatedParents)
            && (forall p :: p in res.updatedParents ==>
                  p in t && ListingSums(items, t[p].subIssues) == Success(Sums(res.estimates[p], res.remaining[p])))
  {
    var ps := Parents(ws);
    assert [] + ps == ps;
    forall p
      ensures p in Record(map[], ws, true) <==> p in ps
      ensures p in Record(map[], ws, false) <==> p in ps
      ensures p in ps ==> p in t && ListingSums(items, t[p].subIssues)
                                    == Success(Sums(Record(map[], ws, true)[p], Record(map[], ws, false)[p]))
    {
      if p in ps {
        var i :| 0 <= i < |ws| && ws[i].parent == p;
        var sums := ws[i].sums;
        RecordAt(map[], ws, true, p, sums.estimate);
        RecordAt(map[], ws, false, p, sums.remaining);
      } else {
        RecordAt(map[], ws, true, p, 0);
        RecordAt(map[], ws, false, p, 0);
      }
    }
  }

  /** `runEstimateRollup` reports the chain of parents above the trigger issue, in order
      and up to the top (an issue whose URL is missing or empty), each parent once. */
  lemma RollupChain(t: Tracker, items: seq<ProjectItem>, n: nat, depth: nat)
    requires ChainBounded(ParentLookup(t), n, depth)
    requires RollupOutcome(t, items, n, depth).Success?
    ensures var ps := RollupOutcome(t, items, n, depth).value.updatedParents;
            && |ps| <= depth
            && ParentChain(t, n, ps)
            && forall i, j :: 0 <= i < j < |ps| ==> ps[i] != ps[j]
  {
    ParentLookupLeadsInto(t);
    var ws := Rollup(t, items, ParentLookup(t), n, depth).value;
    RollupClimbs(t, items, ParentLookup(t), n, depth);
    assert [] + Parents(ws) == Parents(ws);
    ChainOfParentLookup(t, n, Parents(ws));
    ChainDistinct(ParentLookup(t), n, Parents(ws));
  }

  /** `runEstimateRollup` gives each reported parent exactly the totals of its own listing
      of children, and records nothing for any other number. */
  lemma RollupTotals(t: Tracker, items: seq<ProjectItem>, n: nat, depth: nat)
    requires ChainBounded(ParentLookup(t), n, depth)
    requires RollupOutcome(t, items, n, depth).Success?
    ensures var res := RollupOutcome(t, items, n, depth).value;
            && (forall p :: p in res.estimates <==> p in res.updatedParents)
            && (forall p :: p in res.remaining <==> p in res.updatedParents)
            && (forall p :: p in res.updatedParents ==>
                  p in t && ListingSums(items, t[p].subIssues) == Success(Sums(res.estimates[p], res.remaining[p])))
  {
    ParentLookupLeadsInto(t);
    var up := ParentLookup(t);
    var ws := Rollup(t, items, up, n, depth).value;
    RollupClimbs(t, items, up, n, depth);
    ConsistentTotals(t, items, ws);
  }

  /** An issue without a parent URL, or with an empty one, updates nothing. */
  lemma NoParentNoRollup(t: Tracker, items: seq<ProjectItem>, n: nat, depth: nat)
    requires n in t && (t[n].parentIssueUrl.None? || t[n].parentIssueUrl == Some(""))
    ensures ChainBounded(ParentLookup(t), n, depth)
    ensures RollupOutcome(t, items, n, depth) == Success(RollupResult([], map[], map[]))
  {
    assert ParentStep(t, n) == Success(None);
    ParentLookupLeadsInto(t);
    assert Rollup(t, items, ParentLookup(t), n, depth) == Success([]);
    assert [] + Parents([]) == [];
  }

  /** The numbers of a listing, in order. */
  function Numbers(subs: seq<SubIssue>): (r: seq<nat>)
    ensures |r| == |subs| && forall i :: 0 <= i < |r| ==> r[i] == subs[i].number
  {
    seq(|subs|, i requires 0 <= i < |subs| => subs[i].number)
  }

  /** Over children that all exist and are open, the rollup's loop and
      `calculateChildrenSums` give the same totals. */
  lemma {:induction false} OpenListingAgrees(t: Tracker, items: seq<ProjectItem>, subs: seq<SubIssue>)
    requires forall i :: 0 <= i < |subs| ==> subs[i].number in t && t[subs[i].number].state != "closed"
    ensures ListingSums(items, subs) == ChildrenSums(t, items, Numbers(subs))
    decreases |subs|
  {
    if subs != [] {
      var front := subs[..|subs| - 1];
      var last := subs[|subs| - 1].number;
      OpenListingAgrees(t, items, front);
      assert Numbers(subs)[..|subs| - 1] == Numbers(front);
      assert Contribution(t, items, last) == ItemSums(items, last);
      assert ChildrenSums(t, items, Numbers(subs))
             == Add(ChildrenSums(t, items, Numbers(front)), Contribution(t, items, last));
    }
  }

  /** The two disagree on a closed child: the rollup counts its estimate, where
      `calculateChildrenSums` skips it. */
  lemma ClosedChildCountedHere()
    ensures var t := map[10 := Child("closed")];
            var items := [ChildItem(10, 5, Some(3))];
            && ListingSums(items, [SubIssue(10, "closed", None)]) == Success(Sums(5, 3))
            && ChildrenSums(t, items, [10]) == Success(Sums(0, 0))
  {
    var items := [ChildItem(10, 5, Some(3))];
    assert FindByNumber(items, 10) == Success(Some(items[0]));
    assert ItemSums(items, 10) == Success(Sums(5, 3));
    assert [SubIssue(10, "closed", None)][..0] == [];
    assert [10][..0] == [];
  }

  // The hierarchy of the rollup test: epic #5 above feature #10 above task #20, and #11
  // a second child of #5.

  const IssuesUrl := "https://api.github.com/repos/test-org/test-repo/issues"

  function OpenSub(n: nat): SubIssue {
    SubIssue(n, "open", None)
  }

  const RollupTree := map[20 := IssueRecord("", "open", None, Some(IssuesUrl + "/10"), []),
                          10 := IssueRecord("", "open", None, Some(IssuesUrl + "/5"), [OpenSub(20)]),
                          5 := IssueRecord("", "open", None, None, [OpenSub(10), OpenSub(11)])]

  const RollupItems := [ChildItem(20, 5, Some(3)), ChildItem(10, 5, Some(3)), ChildItem(11, 8, Some(5))]

  /** The parent URLs of the hierarchy lead from #20 to #10 to #5, the top. */
  lemma RollupTreeSteps()
    ensures ParentStep(RollupTree, 20) == Success(Some(10))
    ensures ParentStep(RollupTree, 10) == Success(Some(5))
    ensures ParentStep(RollupTree, 5) == Success(None)
  {
    var t := RollupTree;
    assert NatToString(10) == "10" && NatToString(5) == "5";
    assert IssuesUrl + "/10" == IssuesUrl + "/" + NatToString(10);
    assert IssuesUrl + "/5" == IssuesUrl + "/" + NatToString(5);
    ParentStepOfUrl(t, 20, IssuesUrl, 10);
    ParentStepOfUrl(t, 10, IssuesUrl, 5);
  }

  /** #10's only child #20 has 5 and 3; #5's children #10 and #11 add up to 13 and 8. */
  lemma RollupTreeListings()
    ensures ListingSums(RollupItems, RollupTree[10].subIssues) == Success(Sums(5, 3))
    ensures ListingSums(RollupItems, RollupTree[5].subIssues) == Success(Sums(13, 8))
  {
    var items := RollupItems;
    assert FindByNumber(items, 20) == Success(Some(items[0]));
    assert FindByNumber(items[1..], 10) == Success(Some(items[1]));
    assert FindByNumber(items[1..][1..], 11) == Success(Some(items[2]));
    assert ItemSums(items, 10) == Success(Sums(5, 3));
    assert ItemSums(items, 11) == Success(Sums(8, 5));
    assert [OpenSub(20)][..0] == [];
    assert [OpenSub(10), OpenSub(11)][..1] == [OpenSub(10)] && [OpenSub(10)][..0] == [];
  }

  /** Two links up from `a` to `b` to the top `c`: one write for each parent, each with
      the totals of its own children. */
  lemma TwoLinkRollup(t: Tracker, items: seq<ProjectItem>, up: Lookup, a: nat, b: nat, c: nat, sb: Sums, sc: Sums)
    requires up(a) == Success(Some(b)) && up(b) == Success(Some(c)) && up(c) == Success(None)
    requires LeadsInto(t, up)
    requires b in t && ListingSums(items, t[b].subIssues) == Success(sb)
    requires c in t && ListingSums(items, t[c].subIssues) == Success(sc)
    ensures ChainBounded(up, a, 2)
    ensures Rollup(t, items, up, a, 2) == Success([Write(b, sb), Write(c, sc)])
  {
    assert ChainBounded(up, c, 0);
    assert ChainBounded(up, b, 1);
    assert Rollup(t, items, up, c, 0) == Success([]);
    RollupAt(t, items, up, b, 1, c, sc);
    assert [Write(c, sc)] + [] == [Write(c, sc)];
    RollupAt(t, items, up, a, 2, b, sb);
    assert [Write(b, sb)] + [Write(c, sc)] == [Write(b, sb), Write(c, sc)];
  }

  /** The state those writes leave, starting empty. */
  lemma RollupTreeState()
    ensures Apply(RollupResult([], map[], map[]), [Write(10, Sums(5, 3)), Write(5, Sums(13, 8))])
            == RollupResult([10, 5], map[10 := 5, 5 := 13], map[10 := 3, 5 := 8])
  {
    var ws := [Write(10, Sums(5, 3)), Write(5, Sums(13, 8))];
    assert Parents(ws) == [10, 5];
    assert ws[1..] == [Write(5, Sums(13, 8))] && ws[1..][1..] == [];
    assert Record(map[], ws, true) == map[10 := 5, 5 := 13];
    assert Record(map[], ws, false) == map[10 := 3, 5 := 8];
  }

  /** A change to #20 updates #10 with the totals of #20 and then #5 with those of #10
      and #11. */
  lemma ChainRollupExample()
    ensures ChainBounded(ParentLookup(RollupTree), 20, 2)
    ensures RollupOutcome(RollupTree, RollupItems, 20, 2)
            == Success(RollupResult([10, 5], map[10 := 5, 5 := 13], map[10 := 3, 5 := 8]))
  {
    RollupTreeSteps();
    RollupTreeListings();
    ParentLookupLeadsInto(RollupTree);
    TwoLinkRollup(RollupTree, RollupItems, ParentLookup(RollupTree), 20, 10, 5, Sums(5, 3), Sums(13, 8));
    RollupTreeState();
  }

  // ---------------------------------------------------------------------------
  // runAutoClose
  // ---------------------------------------------------------------------------

  const Marker := "Parent Epic: #"

  /** `/Parent Epic: #(\d+)/` matches at `i`: the marker, then at least one digit. */
  predicate MatchesAt(body: string, i: nat) {
    OccursAt(body, Marker, i) && i + |Marker| < |body| && IsDigit(body[i + |Marker|])
  }

  /** The leftmost match at `i` or after. */
  function FirstMatch(body: string, i: nat): (r: Option<nat>)
    requires i <= |body|
    ensures r.None? ==> forall j :: i <= j <= |body| ==> !MatchesAt(body, j)
    ensures r.Some? ==> i <= r.value < |body| && MatchesAt(body, r.value)
                        && forall j :: i <= j < r.value ==> !MatchesAt(body, j)
    decreases |body| - i
  {
    if MatchesAt(body, i) then Some(i)
    else if i == |body| then None
    else FirstMatch(body, i + 1)
  }

  /** The leftmost match is found past positions that hold none. */
  lemma {:induction false} FirstMatchAt(body: string, i: nat, k: nat)
    requires i <= k <= |body| && MatchesAt(body, k)
    requires forall j :: i <= j < k ==> !MatchesAt(body, j)
    ensures FirstMatch(body, i) == Some(k)
    decreases k - i
  {
    if i < k {
      FirstMatchAt(body, i + 1, k);
    }
  }

  /** The captured group `match[1]`: the greedy run of digits after the leftmost marker
      that is followed by a digit. */
  function CapturedDigits(body: string): (r: Option<string>)
    ensures r.Some? ==> r.value != [] && forall k :: 0 <= k < |r.value| ==> IsDigit(r.value[k])
  {
    match FirstMatch(body, 0)
    case None => None
    case Some(i) =>
      var start := i + |Marker|;
      Some(body[start..start + RunWhile(body, start, IsDigit)])
  }

  /** `parseInt(match[1])`, or nothing without a match. */
  function ParentEpic(body: string): (r: Option<nat>)
    ensures r.None? <==> forall i :: 0 <= i <= |body| ==> !MatchesAt(body, i)
    ensures r.Some? ==> ParseInt(CapturedDigits(body).value) == Int(r.value)
  {
    match CapturedDigits(body)
    case None => None
    case Some(digits) =>
      ParseIntOfDigits(digits);
      Some(RadixValue(digits, 10))
  }

  /** Text without a `P` holds no match: the marker starts with one. */
  lemma NoMatchBefore(pre: string, rest: string)
    requires 'P' !in pre
    ensures forall j :: 0 <= j < |pre| ==> !MatchesAt(pre + rest, j)
  {
    var body := pre + rest;
    forall j | 0 <= j < |pre|
      ensures !MatchesAt(body, j)
    {
      assert body[j] == pre[j] && pre[j] != Marker[0];
      if j + |Marker| <= |body| {
        assert body[j..j + |Marker|][0] != Marker[0];
      }
    }
  }

  /** The marker followed by a digit is a match. */
  lemma MatchAtMarker(pre: string, rest: string)
    requires rest != [] && IsDigit(rest[0])
    ensures MatchesAt(pre + Marker + rest, |pre|)
  {
    var body := pre + Marker + rest;
    assert body[|pre|..|pre| + |Marker|] == Marker;
    assert body[|pre| + |Marker|] == rest[0];
  }

  /** After text without a `P`, the marker followed by a digit is the leftmost match. */
  lemma MarkerAfter(pre: string, rest: string)
    requires 'P' !in pre
    requires rest != [] && IsDigit(rest[0])
    ensures FirstMatch(pre + Marker + rest, 0) == Some(|pre|)
  {
    assert pre + Marker + rest == pre + (Marker + rest);
    NoMatchBefore(pre, Marker + rest);
    MatchAtMarker(pre, rest);
    FirstMatchAt(pre + Marker + rest, 0, |pre|);
  }

  /** A run of digits that text without a leading digit ends is read whole. */
  lemma DigitRunAfter(head: string, digits: string, post: string)
    requires forall k :: 0 <= k < |digits| ==> IsDigit(digits[k])
    requires post == [] || !IsDigit(post[0])
    ensures RunWhile(head + digits + post, |head|, IsDigit) == |digits|
    ensures (head + digits + post)[|head|..|head| + |digits|] == digits
  {
    var body := head + digits + post;
    forall k | |head| <= k < |head| + |digits|
      ensures IsDigit(body[k])
    {
      assert body[k] == digits[k - |head|];
    }
    RunWhileExact(body, |head|, |digits|, IsDigit);
  }

  /** The group captures the whole run of digits after the marker, and no more. */
  lemma DigitsCaptured(pre: string, digits: string, post: string)
    requires 'P' !in pre
    requires digits != [] && forall k :: 0 <= k < |digits| ==> IsDigit(digits[k])
    requires post == [] || !IsDigit(post[0])
    ensures CapturedDigits(pre + Marker + digits + post) == Some(digits)
  {
    assert pre + Marker + (digits + post) == pre + Marker + digits + post;
    MarkerAfter(pre, digits + post);
    DigitRunAfter(pre + Marker, digits, post);
  }

  /** A body with the marker and a number, after text without a `P` and before text that
      does not go on with a digit, names exactly that number. */
  lemma ParentEpicAfter(pre: string, p: nat, post: string)
    requires 'P' !in pre
    requires post == [] || !IsDigit(post[0])
    ensures ParentEpic(pre + Marker + NatToString(p) + post) == Some(p)
  {
    DigitsCaptured(pre, NatToString(p), post);
  }

  /** `children.data.some(c => c.state === 'open')` */
  predicate AnyOpen(subs: seq<SubIssue>) {
    exists i :: 0 <= i < |subs| && subs[i].state == "open"
  }

  /** `{parentClosed, parentReopened}`, with the updates made. */
  datatype AutoCloseResult = AutoCloseResult(parentClosed: bool, parentReopened: bool, effects: seq<Effect>)

  const NoChange := AutoCloseResult(false, false, [])

  /** `runAutoClose` for issue `n`: the parent named in its body is closed when every
      child in its listing is closed and it is open, and reopened when some child is open
      and it is closed. */
  function AutoClose(t: Tracker, n: nat, owner: string, repo: string): (r: Result<AutoCloseResult>)
    ensures n !in t ==> r == Failure(NotFound)
    ensures r.Success? ==> !(r.value.parentClosed && r.value.parentReopened)
    ensures r.Success? ==> (r.value.effects == [] <==> !r.value.parentClosed && !r.value.parentReopened)
  {
    if n !in t then Failure(NotFound)
    else
      match ParentEpic(t[n].body.GetOr(""))
      case None => Success(NoChange)
      case Some(p) =>
        if p !in t then Failure(NotFound)
        else
          var parent := IssueRef(owner, repo, p);
          if AllClosed(t[p].subIssues) && t[p].state == "open" then
            Success(AutoCloseResult(true, false, [UpdateState(parent, "closed", Some("completed"))]))
          else if AnyOpen(t[p].subIssues) && t[p].state == "closed" then
            Success(AutoCloseResult(false, true, [UpdateState(parent, "open", None)]))
          else Success(NoChange)
  }

  /** Once the parent is known and exists: closed exactly when every listed child is closed
      and the parent is open, with one update closing it as completed; reopened exactly
      when some listed child is open and the parent is closed, with one update opening it;
      otherwise nothing. */
  lemma AutoCloseDecision(t: Tracker, n: nat, owner: string, repo: string, p: nat)
    requires n in t && ParentEpic(t[n].body.GetOr("")) == Some(p) && p in t
    ensures var r := AutoClose(t, n, owner, repo);
            var subs := t[p].subIssues;
            && r.Success?
            && (r.value.parentClosed <==> (forall i :: 0 <= i < |subs| ==> subs[i].state == "closed")
                                          && t[p].state == "open")
            && (r.value.parentReopened <==> (exists i :: 0 <= i < |subs| && subs[i].state == "open")
                                            && t[p].state == "closed")
            && (r.value.parentClosed ==> r.value.effects == [UpdateState(IssueRef(owner, repo, p), "closed", Some("completed"))])
            && (r.value.parentReopened ==> r.value.effects == [UpdateState(IssueRef(owner, repo, p), "open", None)])
  {
  }

  /** A body without a match, or no body at all, changes nothing. */
  lemma NoMarkerNoChange(t: Tracker, n: nat, owner: string, repo: string)
    requires n in t
    requires forall i :: 0 <= i <= |t[n].body.GetOr("")| ==> !MatchesAt(t[n].body.GetOr(""), i)
    ensures AutoClose(t, n, owner, repo) == Success(NoChange)
  {
  }

  /** A parent named in the body that does not exist makes the run reject. */
  lemma MissingParentRejects(t: Tracker, n: nat, owner: string, repo: string, p: nat)
    requires n in t && ParentEpic(t[n].body.GetOr("")) == Some(p) && p !in t
    ensures AutoClose(t, n, owner, repo) == Failure(NotFound)
  {
  }

  /** A parent without sub-issues counts as having all of them closed: an open one is closed. */
  lemma EmptyListingCloses(t: Tracker, n: nat, owner: string, repo: string, p: nat)
    requires n in t && ParentEpic(t[n].body.GetOr("")) == Some(p)
    requires p in t && t[p].subIssues == [] && t[p].state == "open"
    ensures AutoClose(t, n, owner, repo).Success? && AutoClose(t, n, owner, repo).value.parentClosed
  {
  }

  lemma EpicFiveBody()
    ensures ParentEpic("Parent Epic: #5") == Some(5)
  {
    assert NatToString(5) == "5";
    ParentEpicAfter("", 5, "");
    assert "" + Marker + "5" + "" == "Parent Epic: #5";
  }

  /** The last child #11 closing closes the open epic #5 as completed. */
  lemma AutoCloseExample()
    ensures var t := map[11 := IssueRecord("", "closed", Some("Parent Epic: #5"), None, []),
                         5 := IssueRecord("[EPIC] Parent", "open", None, None,
                                          [SubIssue(10, "closed", None), SubIssue(11, "closed", None)])];
            AutoClose(t, 11, "test-org", "test-repo")
            == Success(AutoCloseResult(true, false, [UpdateState(IssueRef("test-org", "test-repo", 5), "closed", Some("completed"))]))
  {
    EpicFiveBody();
  }

  /** #11 reopening reopens the closed epic #5. */
  lemma ReopenExample()
    ensures var t := map[11 := IssueRecord("", "open", Some("Parent Epic: #5"), None, []),
                         5 := IssueRecord("[EPIC] Parent", "closed", None, None,
                                          [SubIssue(10, "closed", None), SubIssue(11, "open", None)])];
            AutoClose(t, 11, "test-org", "test-repo")
            == Success(AutoCloseResult(false, true, [UpdateState(IssueRef("test-org", "test-repo", 5), "open", None)]))
  {
    EpicFiveBody();
    var subs := [SubIssue(10, "closed", None), SubIssue(11, "open", None)];
    assert subs[1].state == "open";
  }

  // ---------------------------------------------------------------------------
  // runFullSync
  // ---------------------------------------------------------------------------

  const SyncLabel := "sync"

  /** `{typesUpdated, iterationsUpdated, estimatesRolledUp, syncLabelRemoved}`, with the
      call made. */
  datatype FullSyncResult = FullSyncResult(typesUpdated: bool, iterationsUpdated: bool, estimatesRolledUp: bool,
                                           syncLabelRemoved: bool, effects: seq<Effect>)

  /** `runFullSync` for issue `n`: removes the `sync` label from the issue, the one call it
      makes, and reports every step done. */
  function FullSync(owner: string, repo: string, n: nat): (r: FullSyncResult)
    ensures r.typesUpdated && r.iterationsUpdated && r.estimatesRolledUp && r.syncLabelRemoved
    ensures |r.effects| == 1 && r.effects[0].RemoveLabel? && r.effects[0].target == IssueRef(owner, repo, n)
    ensures r.effects[0].name == SyncLabel && !ShouldCascadeLabel(r.effects[0].name)
  {
    FullSyncResult(true, true, true, true, [RemoveLabel(IssueRef(owner, repo, n), SyncLabel)])
  }
}
