/** The workflow steps of the hierarchy automation, each over one repository: the issue type
    from a title, the parent from `parent_issue_url`, the sub-issue listing, the sums of the
    open children's Estimate and Remaining, the one-level label cascade, the parent's
    iteration, and whether a parent is to be closed. Reads of issues that do not exist reject
    with `NotFound`; a property read on `undefined` throws a `TypeError`. */
module WorkflowLogic {
  import opened Wrappers
  import opened JsLib
  import opened Tracker
  import opened CrossRepoHelper
  import opened CycleDetection

  // ---------------------------------------------------------------------------
  // getTypeFromTitle
  // ---------------------------------------------------------------------------

  /** `getTypeFromTitle(title)`: the checks in order EPIC, FEATURE, STORY, TASK, BUG. */
  function GetTypeFromTitle(title: string): Option<string> {
    if StartsWith(title, "[EPIC]") then Some("Epic")
    else if StartsWith(title, "[FEATURE]") then Some("Feature")
    else if StartsWith(title, "[STORY]") then Some("User Story")
    else if StartsWith(title, "[TASK]") then Some("Task")
    else if StartsWith(title, "[BUG]") then Some("Bug")
    else None
  }

  /** The workflow's type detection and the helper module's agree on every title except those
      that start with `[USER STORY]`, which only the helper recognises; the order of the checks
      does not matter because no title starts with two of the prefixes. */
  lemma {:induction false} TypeDetectionsAgree(title: string)
    ensures !StartsWith(title, "[USER STORY]") ==> GetTypeFromTitle(title) == GetIssueTypeFromTitle(title)
    ensures StartsWith(title, "[USER STORY]") ==>
              GetTypeFromTitle(title) == None && GetIssueTypeFromTitle(title) == Some("User Story")
  {
    var r := GetIssueTypeFromTitle(title);
    if r.Some? {
      var k :| 0 <= k < |TypeTable| && StartsWith(title, TypeTable[k].0) && r.value == TypeTable[k].1;
      forall i | 0 <= i < |TypeTable| && StartsWith(title, TypeTable[i].0)
        ensures i == k
      {
        PrefixesDisjoint(i, k, title);
      }
      assert TypeTable[1].0 == "[EPIC]" && TypeTable[2].0 == "[FEATURE]" && TypeTable[5].0 == "[STORY]";
      assert TypeTable[3].0 == "[TASK]" && TypeTable[0].0 == "[BUG]" && TypeTable[4].0 == "[USER STORY]";
    } else {
      assert !StartsWith(title, TypeTable[1].0) && !StartsWith(title, TypeTable[2].0);
      assert !StartsWith(title, TypeTable[5].0) && !StartsWith(title, TypeTable[3].0);
      assert !StartsWith(title, TypeTable[0].0) && !StartsWith(title, TypeTable[4].0);
    }
  }

  /** A title that differs from a prefix at one of the prefix's positions does not start
      with it. */
  lemma DiffersAt(title: string, prefix: string, i: nat)
    requires i < |prefix| && i < |title| && title[i] != prefix[i]
    ensures !StartsWith(title, prefix)
  {
    if |prefix| <= |title| {
      assert title[..|prefix|][i] == title[i];
    }
  }

  /** The titles the workflow is exercised with. */
  lemma TypeExamples()
    ensures GetTypeFromTitle("[EPIC] Implement authentication system") == Some("Epic")
    ensures GetTypeFromTitle("[FEATURE] Login page") == Some("Feature")
    ensures GetTypeFromTitle("[STORY] User can reset password") == Some("User Story")
    ensures GetTypeFromTitle("[TASK] Update documentation") == Some("Task")
  {
    var epic, feature, story, task := "[EPIC] Implement authentication system", "[FEATURE] Login page",
                                      "[STORY] User can reset password", "[TASK] Update documentation";
    assert epic[..6] == "[EPIC]";
    assert feature[..9] == "[FEATURE]";
    assert story[..7] == "[STORY]";
    assert task[..6] == "[TASK]";
    DiffersAt(feature, "[EPIC]", 1);
    DiffersAt(story, "[EPIC]", 1);
    DiffersAt(story, "[FEATURE]", 1);
    DiffersAt(task, "[EPIC]", 1);
    DiffersAt(task, "[FEATURE]", 1);
    DiffersAt(task, "[STORY]", 1);
  }

  // ---------------------------------------------------------------------------
  // findParentIssue and findChildIssues
  // ---------------------------------------------------------------------------

  /** `findParentIssue`: a missing or empty `parent_issue_url` gives `null`; otherwise
      `parseInt` of the text after its last `/`. */
  function FindParentIssue(t: Tracker, n: nat): (r: Result<Option<ParsedInt>>)
    ensures r.Failure? <==> n !in t
    ensures r.Success? ==> (r.value.Some? <==> t[n].parentIssueUrl.Some? && t[n].parentIssueUrl.value != "")
  {
    if n !in t then Failure(NotFound)
    else match t[n].parentIssueUrl
      case None => Success(None)
      case Some(url) => if url == "" then Success(None) else Success(Some(ParseInt(LastSegment(url))))
  }

  /** A parent URL that ends in `/` and a number, as the sub-issue API writes it, gives
      exactly that number; no URL gives `null`. */
  lemma ParentFromUrl(t: Tracker, n: nat, prefix: string, parent: nat)
    requires n in t
    ensures t[n].parentIssueUrl == Some(prefix + "/" + NatToString(parent))
            ==> FindParentIssue(t, n) == Success(Some(Int(parent)))
    ensures t[n].parentIssueUrl.None? ==> FindParentIssue(t, n) == Success(None)
  {
    var digits := NatToString(parent);
    assert '/' !in digits by {
      forall i | 0 <= i < |digits| ensures digits[i] != '/' {
        assert IsDigit(digits[i]);
      }
    }
    LastSegmentAfterSlash(prefix, digits);
    ParseIntOfNatToString(parent);
  }

  const OwnerRepoIssues := "https://api.github.com/repos/owner/repo/issues"

  /** A task whose parent URL ends in `/3` has parent 3. */
  lemma ParentExample()
    ensures var rec := IssueRecord("[TASK] Child task", "open", None, Some(OwnerRepoIssues + "/3"), []);
            FindParentIssue(map[5 := rec], 5) == Success(Some(Int(3)))
  {
    var rec := IssueRecord("[TASK] Child task", "open", None, Some(OwnerRepoIssues + "/3"), []);
    var t := map[5 := rec];
    assert NatToString(3) == "3";
    assert OwnerRepoIssues + "/3" == OwnerRepoIssues + "/" + NatToString(3);
    assert t[5].parentIssueUrl == Some(OwnerRepoIssues + "/" + NatToString(3));
    ParentFromUrl(t, 5, OwnerRepoIssues, 3);
  }

  /** `{number, repository}` of one sub-issue. */
  datatype ChildRef = ChildRef(number: nat, repository: Option<Repository>)

  function ChildRefs(subs: seq<SubIssue>): (r: seq<ChildRef>)
    ensures |r| == |subs|
    ensures forall i :: 0 <= i < |r| ==> r[i].number == subs[i].number && r[i].repository == subs[i].repository
  {
    if subs == [] then [] else [ChildRef(subs[0].number, subs[0].repository)] + ChildRefs(subs[1..])
  }

  /** `findChildIssues`: the sub-issue listing mapped to numbers and repositories, in order. */
  function FindChildIssues(t: Tracker, n: nat): (r: Result<seq<ChildRef>>)
    ensures n !in t <==> r == Failure(NotFound)
    ensures r.Success? ==> |r.value| == |t[n].subIssues|
                           && forall i :: 0 <= i < |r.value| ==> r.value[i].number == t[n].subIssues[i].number
                                                                 && r.value[i].repository == t[n].subIssues[i].repository
  {
    if n !in t then Failure(NotFound) else Success(ChildRefs(t[n].subIssues))
  }

  // ---------------------------------------------------------------------------
  // Finding an item by its number on the first project
  // ---------------------------------------------------------------------------

  predicate HasNumber(i: ProjectItem, n: int) {
    i.content.Some? && i.content.value.number == Some(n)
  }

  /** `items.find(i => i.content.number === n)`: the scan stops at the first item of the
      number, and throws at an earlier item that has no content. */
  function FindByNumber(items: seq<ProjectItem>, n: int): (r: Result<Option<ProjectItem>>)
    ensures r.Success? && r.value.Some? ==>
              exists i :: 0 <= i < |items| && items[i] == r.value.value && HasNumber(items[i], n)
                          && forall j :: 0 <= j < i ==> items[j].content.Some? && !HasNumber(items[j], n)
    ensures r.Success? && r.value.None? ==> forall i :: 0 <= i < |items| ==> items[i].content.Some? && !HasNumber(items[i], n)
    ensures r.Failure? ==> r.fault == TypeError
                           && exists i :: 0 <= i < |items| && items[i].content.None?
                                          && forall j :: 0 <= j < i ==> !HasNumber(items[j], n)
  {
    if items == [] then Success(None)
    else if items[0].content.None? then Failure(TypeError)
    else if HasNumber(items[0], n) then Success(Some(items[0]))
    else
      var r := FindByNumber(items[1..], n);
      assert forall j :: 1 <= j < |items| ==> items[j] == items[1..][j - 1];
      r
  }

  /** `fvs.find(fv => fv.field.name === name)?.number || 0`: the number of the first value of
      that field, 0 when there is none or it has no number; a value without its field
      before it throws. */
  function FieldNumberOrZero(fvs: seq<FieldValue>, name: string): Result<int> {
    if fvs == [] then Success(0)
    else if fvs[0].field.None? then Failure(TypeError)
    else if fvs[0].field.value.name == name then Success(fvs[0].number.GetOr(0))
    else FieldNumberOrZero(fvs[1..], name)
  }

  predicate Named(fv: FieldValue, name: string) {
    fv.field.Some? && fv.field.value.name == name
  }

  lemma {:induction false} FieldNumberOfFirst(fvs: seq<FieldValue>, name: string)
    requires forall i :: 0 <= i < |fvs| ==> fvs[i].field.Some?
    ensures FieldNumberOrZero(fvs, name).Success?
    ensures (forall i :: 0 <= i < |fvs| ==> !Named(fvs[i], name)) ==> FieldNumberOrZero(fvs, name).value == 0
    ensures forall i :: 0 <= i < |fvs| && Named(fvs[i], name) && (forall j :: 0 <= j < i ==> !Named(fvs[j], name))
                        ==> FieldNumberOrZero(fvs, name).value == fvs[i].number.GetOr(0)
  {
    if fvs != [] && !Named(fvs[0], name) {
      FieldNumberOfFirst(fvs[1..], name);
      forall i | 0 <= i < |fvs| && Named(fvs[i], name) && (forall j :: 0 <= j < i ==> !Named(fvs[j], name))
        ensures FieldNumberOrZero(fvs, name).value == fvs[i].number.GetOr(0)
      {
        assert fvs[1..][i - 1] == fvs[i];
        assert forall j :: 0 <= j < i - 1 ==> fvs[1..][j] == fvs[j + 1];
      }
    }
  }

  /** A value without its field, met before any value of that field, makes `fv.field.name`
      throw. */
  lemma {:induction false} FieldNumberTypeError(fvs: seq<FieldValue>, name: string, k: nat)
    requires k < |fvs| && fvs[k].field.None?
    requires forall j :: 0 <= j < k ==> fvs[j].field.Some? && !Named(fvs[j], name)
    ensures FieldNumberOrZero(fvs, name) == Failure(TypeError)
  {
    if k > 0 {
      assert fvs[1..][k - 1] == fvs[k];
      assert forall j :: 0 <= j < k - 1 ==> fvs[1..][j] == fvs[j + 1];
      FieldNumberTypeError(fvs[1..], name, k - 1);
    }
  }

  // ---------------------------------------------------------------------------
  // calculateChildrenSums
  // ---------------------------------------------------------------------------

  datatype Sums = Sums(estimate: int, remaining: int)

  /** The first failure, or the sums added up. */
  function Add(a: Result<Sums>, b: Result<Sums>): Result<Sums> {
    match a
    case Failure(f) => Failure(f)
    case Success(x) =>
      match b
      case Failure(f) => Failure(f)
      case Success(y) => Success(Sums(x.estimate + y.estimate, x.remaining + y.remaining))
  }

  /** The Estimate and Remaining of issue `c`'s item, read as the rollup loops read them:
      nothing when it has no item, 0 for a field it lacks. */
  function ItemSums(items: seq<ProjectItem>, c: nat): Result<Sums> {
    match FindByNumber(items, c)
    case Failure(f) => Failure(f)
    case Success(None) => Success(Sums(0, 0))
    case Success(Some(item)) =>
      match FieldNumberOrZero(item.fieldValues, "Estimate")
      case Failure(f) => Failure(f)
      case Success(e) =>
        match FieldNumberOrZero(item.fieldValues, "Remaining")
        case Failure(f) => Failure(f)
        case Success(r) => Success(Sums(e, r))
  }

  /** What one child of the loop adds: nothing when it is closed, its item's values otherwise. */
  function Contribution(t: Tracker, items: seq<ProjectItem>, c: nat): Result<Sums> {
    if c !in t then Failure(NotFound)
    else if t[c].state == "closed" then Success(Sums(0, 0))
    else ItemSums(items, c)
  }

  /** On a well-formed board (every item has content, every field value its field) an item's
      values are those of the first Estimate and the first Remaining value, 0 for a missing
      field or a missing item. */
  lemma ItemSumsOfFirst(items: seq<ProjectItem>, c: nat)
    requires forall i :: 0 <= i < |items| ==> items[i].content.Some?
    requires forall i, j :: 0 <= i < |items| && 0 <= j < |items[i].fieldValues| ==> items[i].fieldValues[j].field.Some?
    ensures ItemSums(items, c).Success?
    ensures FindByNumber(items, c).value.None? ==> ItemSums(items, c).value == Sums(0, 0)
    ensures FindByNumber(items, c).value.Some? ==>
              var fvs := FindByNumber(items, c).value.value.fieldValues;
              && ((forall j :: 0 <= j < |fvs| ==> !Named(fvs[j], "Estimate")) ==> ItemSums(items, c).value.estimate == 0)
              && ((forall j :: 0 <= j < |fvs| ==> !Named(fvs[j], "Remaining")) ==> ItemSums(items, c).value.remaining == 0)
              && (forall i :: 0 <= i < |fvs| && Named(fvs[i], "Estimate") && (forall j :: 0 <= j < i ==> !Named(fvs[j], "Estimate"))
                    ==> ItemSums(items, c).value.estimate == fvs[i].number.GetOr(0))
              && (forall i :: 0 <= i < |fvs| && Named(fvs[i], "Remaining") && (forall j :: 0 <= j < i ==> !Named(fvs[j], "Remaining"))
                    ==> ItemSums(items, c).value.remaining == fvs[i].number.GetOr(0))
  {
    var r := FindByNumber(items, c);
    if r.Success? && r.value.Some? {
      var i :| 0 <= i < |items| && items[i] == r.value.value && HasNumber(items[i], c);
      var fvs := items[i].fieldValues;
      FieldNumberOfFirst(fvs, "Estimate");
      FieldNumberOfFirst(fvs, "Remaining");
      assert ItemSums(items, c)
             == Success(Sums(FieldNumberOrZero(fvs, "Estimate").value, FieldNumberOrZero(fvs, "Remaining").value));
      assert fvs == FindByNumber(items, c).value.value.fieldValues;
      if forall j :: 0 <= j < |fvs| ==> !Named(fvs[j], "Estimate") {
        assert FieldNumberOrZero(fvs, "Estimate").value == 0;
        assert ItemSums(items, c).value.estimate == 0;
      }
    }
  }

  /** The totals after the loop has visited `children` in order. */
  function ChildrenSums(t: Tracker, items: seq<ProjectItem>, children: seq<nat>): Result<Sums> {
    if children == [] then Success(Sums(0, 0))
    else Add(ChildrenSums(t, items, children[..|children| - 1]), Contribution(t, items, children[|children| - 1]))
  }

  /** `calculateChildrenSums(github, childNumbers, owner, repo)` over the first project's items. */
  method CalculateChildrenSums(t: Tracker, items: seq<ProjectItem>, children: seq<nat>) returns (r: Result<Sums>)
    ensures r == ChildrenSums(t, items, children)
  {
    var totalEstimate, totalRemaining := 0, 0;
    for k := 0 to |children|
      invariant ChildrenSums(t, items, children[..k]) == Success(Sums(totalEstimate, totalRemaining))
    {
      var c := children[k];
      assert children[..k + 1][..k] == children[..k];
      var step := Contribution(t, items, c);
      if step.Failure? {
        ChildrenSumsAppend(t, items, children[..k + 1], children[k + 1..]);
        assert children[..k + 1] + children[k + 1..] == children;
        return Failure(step.fault);
      }
      totalEstimate := totalEstimate + step.value.estimate;
      totalRemaining := totalRemaining + step.value.remaining;
    }
    assert children[..|children|] == children;
    r := Success(Sums(totalEstimate, totalRemaining));
  }

  lemma AddAssociative(a: Result<Sums>, b: Result<Sums>, c: Result<Sums>)
    ensures Add(Add(a, b), c) == Add(a, Add(b, c))
  {
  }

  /** The loop over two lists of children one after the other is the two loops' totals
      added up; a failure in the first list is the failure of the whole. */
  lemma {:induction false} ChildrenSumsAppend(t: Tracker, items: seq<ProjectItem>, a: seq<nat>, b: seq<nat>)
    ensures ChildrenSums(t, items, a + b) == Add(ChildrenSums(t, items, a), ChildrenSums(t, items, b))
    decreases |b|
  {
    if b == [] {
      assert a + b == a;
    } else {
      var b' := b[..|b| - 1];
      assert (a + b)[..|a + b| - 1] == a + b';
      ChildrenSumsAppend(t, items, a, b');
      AddAssociative(ChildrenSums(t, items, a), ChildrenSums(t, items, b'), Contribution(t, items, b[|b| - 1]));
    }
  }

  /** The open children among `children`, in order. */
  function OpenChildren(t: Tracker, children: seq<nat>): seq<nat> {
    if children == [] then []
    else
      var c := children[|children| - 1];
      OpenChildren(t, children[..|children| - 1]) + if c in t && t[c].state == "closed" then [] else [c]
  }

  /** Closed children are skipped: the totals over the children are the totals over the open
      ones alone. */
  lemma {:induction false} ClosedChildrenSkipped(t: Tracker, items: seq<ProjectItem>, children: seq<nat>)
    ensures ChildrenSums(t, items, children) == ChildrenSums(t, items, OpenChildren(t, children))
  {
    if children != [] {
      var front := children[..|children| - 1];
      var c := children[|children| - 1];
      ClosedChildrenSkipped(t, items, front);
      if c in t && t[c].state == "closed" {
        assert OpenChildren(t, children) == OpenChildren(t, front) + [];
        assert OpenChildren(t, front) + [] == OpenChildren(t, front);
      } else {
        var o := OpenChildren(t, front);
        assert (o + [c])[..|o|] == o;
      }
    }
  }

  /** Children that all exist and are closed add up to nothing. */
  lemma {:induction false} AllClosedSumZero(t: Tracker, items: seq<ProjectItem>, children: seq<nat>)
    requires forall i :: 0 <= i < |children| ==> children[i] in t && t[children[i]].state == "closed"
    ensures ChildrenSums(t, items, children) == Success(Sums(0, 0))
  {
    if children != [] {
      AllClosedSumZero(t, items, children[..|children| - 1]);
    }
  }

  /** An item of the first project: content with a number only, and an Estimate and a
      Remaining value. */
  function ChildItem(n: nat, estimate: int, remaining: Option<int>): ProjectItem {
    ProjectItem(None, Some(Content(Some(n), None)),
                [FieldValue(Some(FieldRef("Estimate", None)), Some(estimate), None, None)]
                + if remaining.Some? then [FieldValue(Some(FieldRef("Remaining", None)), remaining, None, None)] else [])
  }

  function Child(state: string): IssueRecord {
    IssueRecord("", state, None, None, [])
  }

  /** Two open children with 5/3 and 8/8 give 13 and 11. */
  lemma SumsExample()
    ensures ChildrenSums(map[10 := Child("open"), 11 := Child("open")],
                         [ChildItem(10, 5, Some(3)), ChildItem(11, 8, Some(8))], [10, 11])
            == Success(Sums(13, 11))
  {
    var items := [ChildItem(10, 5, Some(3)), ChildItem(11, 8, Some(8))];
    var t := map[10 := Child("open"), 11 := Child("open")];
    assert FindByNumber(items, 10) == Success(Some(items[0]));
    assert FindByNumber(items[1..], 11) == Success(Some(items[1]));
    assert Contribution(t, items, 10) == Success(Sums(5, 3));
    assert Contribution(t, items, 11) == Success(Sums(8, 8));
    assert [10, 11][..1] == [10] && [10][..0] == [];
  }

  /** An open child with Estimate 5 and a closed one: only the open one counts. */
  lemma SkipClosedExample()
    ensures var r := ChildrenSums(map[10 := Child("open"), 11 := Child("closed")], [ChildItem(10, 5, None)], [10, 11]);
            r.Success? && r.value.estimate == 5
  {
    var items := [ChildItem(10, 5, None)];
    var t := map[10 := Child("open"), 11 := Child("closed")];
    assert FindByNumber(items, 10) == Success(Some(items[0]));
    assert Contribution(t, items, 10) == Success(Sums(5, 0));
    assert [10, 11][..1] == [10] && [10][..0] == [];
  }

  // ---------------------------------------------------------------------------
  // cascadeLabelToDescendants and shouldCascadeLabel
  // ---------------------------------------------------------------------------

  /** The `addLabels` calls of one cascade step: one per direct child, in listing order,
      when the operation is `add`, and none otherwise. */
  function LabelEffects(owner: string, repo: string, subs: seq<SubIssue>, labelName: string, op: string): (r: seq<Effect>)
    ensures |r| == if op == "add" then |subs| else 0
    ensures forall i :: 0 <= i < |r| ==> r[i] == AddLabels(IssueRef(owner, repo, subs[i].number), [labelName])
  {
    if op != "add" || subs == [] then []
    else [AddLabels(IssueRef(owner, repo, subs[0].number), [labelName])] + LabelEffects(owner, repo, subs[1..], labelName, op)
  }

  function ChildNumbers(subs: seq<SubIssue>): set<nat> {
    set i | 0 <= i < |subs| :: subs[i].number
  }

  /** `cascadeLabelToDescendants`: labels the direct children of `parent` when the operation
      is `add`, and adds every child's number to the caller's set whatever the operation. */
  method CascadeLabelToDescendants(t: Tracker, parent: nat, labelName: string, op: string,
                                   updated: VisitedSet<nat>, owner: string, repo: string)
    returns (r: Result<seq<Effect>>)
    modifies updated
    ensures parent !in t ==> r == Failure(NotFound) && updated.elems == old(updated.elems)
    ensures parent in t ==> r == Success(LabelEffects(owner, repo, t[parent].subIssues, labelName, op))
                            && updated.elems == old(updated.elems) + ChildNumbers(t[parent].subIssues)
  {
    if parent !in t {
      return Failure(NotFound);
    }
    var subs := t[parent].subIssues;
    var effects: seq<Effect> := [];
    for k := 0 to |subs|
      invariant effects == LabelEffects(owner, repo, subs[..k], labelName, op)
      invariant updated.elems == old(updated.elems) + ChildNumbers(subs[..k])
    {
      if op == "add" {
        effects := effects + [AddLabels(IssueRef(owner, repo, subs[k].number), [labelName])];
      }
      updated.Add(subs[k].number);
      assert subs[..k + 1][..k] == subs[..k];
      LabelEffectsSnoc(owner, repo, subs[..k], subs[k], labelName, op);
      assert subs[..k + 1] == subs[..k] + [subs[k]];
      assert ChildNumbers(subs[..k + 1]) == ChildNumbers(subs[..k]) + {subs[k].number} by {
        var s := subs[..k + 1];
        assert forall i :: 0 <= i < k ==> s[i] == subs[..k][i];
        assert s[k] == subs[k];
      }
    }
    assert subs[..|subs|] == subs;
    r := Success(effects);
  }

  lemma {:induction false} LabelEffectsSnoc(owner: string, repo: string, subs: seq<SubIssue>, s: SubIssue,
                                            labelName: string, op: string)
    ensures LabelEffects(owner, repo, subs + [s], labelName, op)
            == LabelEffects(owner, repo, subs, labelName, op)
               + if op == "add" then [AddLabels(IssueRef(owner, repo, s.number), [labelName])] else []
  {
    var a := LabelEffects(owner, repo, subs + [s], labelName, op);
    var b := LabelEffects(owner, repo, subs, labelName, op)
             + if op == "add" then [AddLabels(IssueRef(owner, repo, s.number), [labelName])] else [];
    assert |a| == |b|;
    forall i | 0 <= i < |a| ensures a[i] == b[i] {
      if i < |subs| {
        assert (subs + [s])[i] == subs[i];
      }
    }
  }

  /** A parent with children 10 and 11: two `addLabels` calls and two numbers in the set. */
  method CascadeExample() returns (calls: nat, size: nat)
    ensures calls == 2 && size == 2
  {
    var t := map[5 := IssueRecord("", "open", None, None, [SubIssue(10, "open", None), SubIssue(11, "open", None)])];
    var updated := new VisitedSet<nat>();
    var r := CascadeLabelToDescendants(t, 5, "priority:high", "add", updated, "owner", "repo");
    calls := |r.value|;
    assert ChildNumbers(t[5].subIssues) == {10, 11} by {
      assert t[5].subIssues[0].number == 10 && t[5].subIssues[1].number == 11;
    }
    size := updated.Size();
  }

  /** `shouldCascadeLabel(labelName)` */
  predicate ShouldCascadeLabel(labelName: string) {
    labelName != "sync"
  }

  /** The `sync` labelName is not inheritable, so every inheritable labelName is cascaded. */
  lemma InheritableLabelsCascade(labelName: string)
    ensures IsInheritable(labelName) ==> ShouldCascadeLabel(labelName)
    ensures !ShouldCascadeLabel("sync")
  {
    if labelName == "sync" {
      forall i | 0 <= i < |InheritablePrefixes| ensures !StartsWith(labelName, InheritablePrefixes[i]) {
        assert InheritablePrefixes[i][0] != 's' || InheritablePrefixes[i][1] != 'y';
      }
    }
  }

  // ---------------------------------------------------------------------------
  // getParentIteration
  // ---------------------------------------------------------------------------

  /** `{id: iterationId, title}`; either may be `undefined`. */
  datatype Iteration = Iteration(id: Option<string>, title: Option<string>)

  predicate IsIteration(fv: FieldValue) {
    fv.field.Some? && fv.field.value.name == "Iteration"
  }

  /** `getParentIteration`: the first `Iteration` value of the issue's item on the first
      project, or `null` when there is no item or no such value. */
  function GetParentIteration(items: seq<ProjectItem>, n: nat): (r: Result<Option<Iteration>>)
    ensures r.Failure? <==> FindByNumber(items, n).Failure?
    ensures r.Failure? ==> r.fault == FindByNumber(items, n).fault
    ensures r.Success? && r.value.Some? ==>
              FindByNumber(items, n).Success? && FindByNumber(items, n).value.Some?
              && var fvs := FindByNumber(items, n).value.value.fieldValues;
                 exists i :: 0 <= i < |fvs| && IsIteration(fvs[i])
                             && r.value.value == Iteration(fvs[i].iterationId, fvs[i].title)
                             && forall j :: 0 <= j < i ==> !IsIteration(fvs[j])
    ensures r.Success? && r.value.None? ==>
              FindByNumber(items, n).Success?
              && (FindByNumber(items, n).value.Some? ==>
                    forall i :: 0 <= i < |FindByNumber(items, n).value.value.fieldValues|
                                ==> !IsIteration(FindByNumber(items, n).value.value.fieldValues[i]))
  {
    match FindByNumber(items, n)
    case Failure(f) => Failure(f)
    case Success(None) => Success(None)
    case Success(Some(item)) =>
      match Find(item.fieldValues, IsIteration)
      case None => Success(None)
      case Some(fv) => Success(Some(Iteration(fv.iterationId, fv.title)))
  }

  lemma IterationExample()
    ensures var item := ProjectItem(None, Some(Content(Some(3), None)),
                                    [FieldValue(Some(FieldRef("Iteration", Some("iter_field"))), None,
                                                Some("iter_123"), Some("Sprint 1"))]);
            GetParentIteration([item], 3) == Success(Some(Iteration(Some("iter_123"), Some("Sprint 1"))))
  {
    var item := ProjectItem(None, Some(Content(Some(3), None)),
                            [FieldValue(Some(FieldRef("Iteration", Some("iter_field"))), None,
                                        Some("iter_123"), Some("Sprint 1"))]);
    assert FindByNumber([item], 3) == Success(Some(item));
    assert FindIndex(item.fieldValues, IsIteration) == Some(0);
  }

  // ---------------------------------------------------------------------------
  // checkIfShouldCloseParent
  // ---------------------------------------------------------------------------

  /** `children.every(child => child.state === 'closed')` */
  function AllClosed(subs: seq<SubIssue>): (r: bool)
    ensures r <==> forall i :: 0 <= i < |subs| ==> subs[i].state == "closed"
  {
    if subs == [] then true
    else
      var rest := AllClosed(subs[1..]);
      assert forall i :: 1 <= i < |subs| ==> subs[i] == subs[1..][i - 1];
      subs[0].state == "closed" && rest
  }

  /** `checkIfShouldCloseParent`: whether every child in the parent's sub-issue listing is
      closed; a parent without children qualifies. */
  function CheckIfShouldCloseParent(t: Tracker, parent: nat): (r: Result<bool>)
    ensures parent !in t <==> r == Failure(NotFound)
    ensures r.Success? ==> (r.value <==> forall i :: 0 <= i < |t[parent].subIssues| ==> t[parent].subIssues[i].state == "closed")
  {
    if parent !in t then Failure(NotFound) else Success(AllClosed(t[parent].subIssues))
  }

  lemma CloseExamples()
    ensures CheckIfShouldCloseParent(map[5 := IssueRecord("", "open", None, None,
                                        [SubIssue(10, "closed", None), SubIssue(11, "closed", None)])], 5) == Success(true)
    ensures CheckIfShouldCloseParent(map[5 := IssueRecord("", "open", None, None,
                                        [SubIssue(10, "closed", None), SubIssue(11, "open", None)])], 5) == Success(false)
  {
  }
}
