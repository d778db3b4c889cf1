/** The cross-repository rollup's `getProjectFields`: it checks that the issue exists in
    its own repository (a rejection gives `null`), reads the organization's projects with
    their items, and reads the numeric values of the issue's item; and the rollup loop that
    sums the children's estimates, whichever repository each child lives in. */
module CrossRepoRollup {
  import opened Wrappers
  import opened JsLib
  import opened Tracker
  import opened ProjectLookup

  /** What the helper does for issue `owner/repo#number`, the project query being addressed
      to `orgOwner`, in an organization where the issues `existing` exist and whose project
      query lists `projects`, items included. */
  function ProbedFields(existing: set<IssueRef>, projects: seq<Project>,
                        number: nat, owner: string, repo: string, orgOwner: string): Outcome
  {
    var ref := IssueRef(owner, repo, number);
    if ref !in existing then Outcome(Success(None), [IssueGet(ref)])
    else
      var calls := [IssueGet(ref), ProjectsQuery(orgOwner)];
      match TemplateProject(projects)
      case None => Outcome(Success(None), calls)
      case Some(project) =>
        match FindItem(project.items, number, owner, repo)
        case None => Outcome(Success(None), calls)
        case Some(item) =>
          Outcome(Success(Some(ProjectFields(project.id, item.id, FieldsOf(item.fieldValues, false), project.fields))),
                  calls)
  }

  /** `getProjectFields(github, issueNumber, owner, repo, orgOwner)` */
  method GetProjectFields(existing: set<IssueRef>, projects: seq<Project>,
                          number: nat, owner: string, repo: string, orgOwner: string) returns (o: Outcome)
    ensures o == ProbedFields(existing, projects, number, owner, repo, orgOwner)
  {
    var ref := IssueRef(owner, repo, number);
    if ref !in existing {
      return Outcome(Success(None), [IssueGet(ref)]);
    }
    var calls := [IssueGet(ref), ProjectsQuery(orgOwner)];
    var project := TemplateProject(projects);
    if project.None? {
      return Outcome(Success(None), calls);
    }
    var item := FindItem(project.value.items, number, owner, repo);
    if item.None? {
      return Outcome(Success(None), calls);
    }
    var fields := BuildFields(item.value.fieldValues, false);
    o := Outcome(Success(Some(ProjectFields(project.value.id, item.value.id, fields, project.value.fields))), calls);
  }

  /** The helper never rejects, its first read is the existence check of the issue in the
      issue's own repository, and it gives a value exactly when the issue exists, there is
      a template project and one of that project's items is the issue's. */
  lemma ProbedFieldsShape(existing: set<IssueRef>, projects: seq<Project>,
                          number: nat, owner: string, repo: string, orgOwner: string)
    ensures var o := ProbedFields(existing, projects, number, owner, repo, orgOwner);
            && o.result.Success?
            && o.calls[0] == IssueGet(IssueRef(owner, repo, number))
            && (o.result.value.Some? <==>
                  IssueRef(owner, repo, number) in existing
                  && TemplateProject(projects).Some?
                  && exists i :: 0 <= i < |TemplateProject(projects).value.items|
                                 && ItemMatches(TemplateProject(projects).value.items[i], number, owner, repo))
  {
  }

  /** A failed existence check gives `null` after that one read; the projects are not read. */
  lemma MissingIssueIsNull(existing: set<IssueRef>, projects: seq<Project>,
                           number: nat, owner: string, repo: string, orgOwner: string)
    requires IssueRef(owner, repo, number) !in existing
    ensures ProbedFields(existing, projects, number, owner, repo, orgOwner)
            == Outcome(Success(None), [IssueGet(IssueRef(owner, repo, number))])
  {
  }

  /** A found result is the template project's, and carries the values of the first
      item of that project that is the issue's. */
  lemma {:induction false} FoundValues(existing: set<IssueRef>, projects: seq<Project>,
                                       number: nat, owner: string, repo: string, orgOwner: string, name: string)
    requires ProbedFields(existing, projects, number, owner, repo, orgOwner).result.Success?
    requires ProbedFields(existing, projects, number, owner, repo, orgOwner).result.value.Some?
    ensures var pf := ProbedFields(existing, projects, number, owner, repo, orgOwner).result.value.value;
            var p := TemplateProject(projects).value;
            && TemplateProject(projects).Some? && pf.projectId == p.id && pf.allFields == p.fields
            && FindItem(p.items, number, owner, repo).Some?
            && pf.itemId == FindItem(p.items, number, owner, repo).value.id
            && (name in pf.fields <==>
                  exists i :: 0 <= i < |FindItem(p.items, number, owner, repo).value.fieldValues|
                              && SetsField(FindItem(p.items, number, owner, repo).value.fieldValues[i], name))
  {
    var p := TemplateProject(projects).value;
    var item := FindItem(p.items, number, owner, repo).value;
    FieldsOfEntry(item.fieldValues, false, name);
  }

  // ---------------------------------------------------------------------------
  // The rollup sum over children in several repositories
  // ---------------------------------------------------------------------------

  /** What one child adds to the total: `result.fields.Estimate?.value || 0` when the
      result is not `null`, and nothing otherwise. */
  function ChildEstimate(existing: set<IssueRef>, projects: seq<Project>, child: IssueRef, orgOwner: string): int {
    match ProbedFields(existing, projects, child.number, child.owner, child.repo, orgOwner).result
    case Success(r) => EstimateOf(r)
    case Failure(_) => 0
  }

  /** The total after the loop has visited `children` in order. */
  function RollupTotal(existing: set<IssueRef>, projects: seq<Project>, children: seq<IssueRef>, orgOwner: string): int {
    if children == [] then 0
    else RollupTotal(existing, projects, children[..|children| - 1], orgOwner)
         + ChildEstimate(existing, projects, children[|children| - 1], orgOwner)
  }

  /** The `for (const child of children)` loop, each child looked up in its own repository. */
  method MixedRepoTotal(existing: set<IssueRef>, projects: seq<Project>, children: seq<IssueRef>, orgOwner: string)
    returns (total: int)
    ensures total == RollupTotal(existing, projects, children, orgOwner)
  {
    total := 0;
    for k := 0 to |children|
      invariant total == RollupTotal(existing, projects, children[..k], orgOwner)
    {
      var child := children[k];
      var o := GetProjectFields(existing, projects, child.number, child.owner, child.repo, orgOwner);
      if o.result.Success? && o.result.value.Some? {
        var fields := o.result.value.value.fields;
        total := total + if "Estimate" in fields then fields["Estimate"].value else 0;
      }
      assert children[..k + 1][..k] == children[..k];
    }
    assert children[..|children|] == children;
  }

  /** The total over a concatenation of children lists is the sum of the two totals. */
  lemma {:induction false} RollupTotalAppend(existing: set<IssueRef>, projects: seq<Project>,
                                             a: seq<IssueRef>, b: seq<IssueRef>, orgOwner: string)
    ensures RollupTotal(existing, projects, a + b, orgOwner)
            == RollupTotal(existing, projects, a, orgOwner) + RollupTotal(existing, projects, b, orgOwner)
    decreases |b|
  {
    if b == [] {
      assert a + b == a;
    } else {
      var b' := b[..|b| - 1];
      assert (a + b)[..|a + b| - 1] == a + b';
      RollupTotalAppend(existing, projects, a, b', orgOwner);
    }
  }

  /** A child that does not exist, or that is not on the template project, adds nothing. */
  lemma {:induction false} NullChildAddsNothing(existing: set<IssueRef>, projects: seq<Project>,
                                                children: seq<IssueRef>, child: IssueRef, orgOwner: string)
    requires ProbedFields(existing, projects, child.number, child.owner, child.repo, orgOwner).result == Success(None)
    ensures RollupTotal(existing, projects, children + [child], orgOwner) == RollupTotal(existing, projects, children, orgOwner)
  {
    assert (children + [child])[..|children|] == children;
  }

  // ---------------------------------------------------------------------------
  // The scenarios the helper is exercised with
  // ---------------------------------------------------------------------------

  /** An item of `test-org/repo#number` whose only field value is an Estimate. */
  function EstimatedItem(id: Option<string>, repo: string, number: nat, estimate: int): ProjectItem {
    ProjectItem(id, Some(Content(Some(number), Some(Repository(Some(repo), Some("test-org"))))),
                [FieldValue(Some(FieldRef("Estimate", None)), Some(estimate), None, None)])
  }

  function TemplateWith(items: seq<ProjectItem>): Project {
    Project("proj_123", TemplateTitle, [], items)
  }

  lemma TemplateWithIsTemplate(items: seq<ProjectItem>)
    ensures TemplateProject([TemplateWith(items)]) == Some(TemplateWith(items))
  {
  }

  lemma EstimatedItemFields(id: Option<string>, repo: string, number: nat, estimate: int)
    ensures FieldsOf(EstimatedItem(id, repo, number, estimate).fieldValues, false)
            == map["Estimate" := FieldEntry(estimate, None)]
  {
    var fvs := EstimatedItem(id, repo, number, estimate).fieldValues;
    assert fvs[..0] == [];
  }

  const PlanItem5 := EstimatedItem(Some("item_plan_5"), "plan", 5, 100)
  const CalendarItem5 := EstimatedItem(Some("item_calendar_5"), "calendar", 5, 50)
  const BothFives := {IssueRef("test-org", "calendar", 5), IssueRef("test-org", "plan", 5)}

  lemma CalendarReadsItsOwn()
    ensures EstimateOf(ProbedFields(BothFives, [TemplateWith([PlanItem5, CalendarItem5])], 5, "test-org", "calendar", "test-org")
                       .result.value) == 50
  {
    TemplateWithIsTemplate([PlanItem5, CalendarItem5]);
    FindItemPast([PlanItem5], CalendarItem5, [], 5, "test-org", "calendar");
    assert [PlanItem5] + [CalendarItem5] + [] == [PlanItem5, CalendarItem5];
    EstimatedItemFields(Some("item_calendar_5"), "calendar", 5, 50);
  }

  lemma PlanReadsItsOwn()
    ensures EstimateOf(ProbedFields(BothFives, [TemplateWith([PlanItem5, CalendarItem5])], 5, "test-org", "plan", "test-org")
                       .result.value) == 100
  {
    TemplateWithIsTemplate([PlanItem5, CalendarItem5]);
    FindItemPast([], PlanItem5, [CalendarItem5], 5, "test-org", "plan");
    assert [] + [PlanItem5] + [CalendarItem5] == [PlanItem5, CalendarItem5];
    EstimatedItemFields(Some("item_plan_5"), "plan", 5, 100);
  }

  /** Two items numbered 5, in `plan` (Estimate 100) and in `calendar` (Estimate 50): the
      lookup scoped to `calendar` reads 50, the one scoped to `plan` reads 100. */
  lemma SameNumberTwoRepos()
    ensures var items := [PlanItem5, CalendarItem5];
            && EstimateOf(ProbedFields(BothFives, [TemplateWith(items)], 5, "test-org", "calendar", "test-org").result.value) == 50
            && EstimateOf(ProbedFields(BothFives, [TemplateWith(items)], 5, "test-org", "plan", "test-org").result.value) == 100
  {
    CalendarReadsItsOwn();
    PlanReadsItsOwn();
  }

  const MainItem5 := ProjectItem(Some("item_5"), Some(Content(Some(5), Some(Repository(Some("main-repo"), Some("test-org"))))), [])
  const OtherItem10 := ProjectItem(Some("item_10"),
                                   Some(Content(Some(10), Some(Repository(Some("other-repo"), Some("test-org"))))),
                                   [FieldValue(Some(FieldRef("Estimate", None)), Some(3), None, None),
                                    FieldValue(Some(FieldRef("Remaining", None)), Some(2), None, None)])
  const CrossRepoProject := Project("proj_123", TemplateTitle, [ProjectField("field_est", "Estimate")], [MainItem5, OtherItem10])

  /** A child in another repository of the organization: the existence check goes to
      `test-org/other-repo`, and its item is found by repository, with Estimate 3 and
      Remaining 2. */
  lemma CrossRepoIssue()
    ensures ProbedFields({IssueRef("test-org", "other-repo", 10)}, [CrossRepoProject], 10, "test-org", "other-repo", "test-org")
            == Outcome(Success(Some(ProjectFields("proj_123", Some("item_10"),
                                                  map["Estimate" := FieldEntry(3, None), "Remaining" := FieldEntry(2, None)],
                                                  [ProjectField("field_est", "Estimate")]))),
                       [IssueGet(IssueRef("test-org", "other-repo", 10)), ProjectsQuery("test-org")])
  {
    assert TemplateProject([CrossRepoProject]) == Some(CrossRepoProject);
    FindItemPast([MainItem5], OtherItem10, [], 10, "test-org", "other-repo");
    assert [MainItem5] + [OtherItem10] + [] == CrossRepoProject.items;
    var fvs := OtherItem10.fieldValues;
    assert fvs[..1] == [fvs[0]] && fvs[..1][..0] == [];
    assert FieldsOf(fvs[..1], false) == map["Estimate" := FieldEntry(3, None)];
  }

  /** A project whose only item is #10 holds nothing for #20: `null`. */
  lemma NotInProject()
    ensures var item := ProjectItem(Some("item_10"), Some(Content(Some(10), None)), []);
            ProbedFields({IssueRef("test-org", "test-repo", 20)}, [TemplateWith([item])], 20, "test-org", "test-repo", "test-org").result
            == Success(None)
  {
    var item := ProjectItem(Some("item_10"), Some(Content(Some(10), None)), []);
    TemplateWithIsTemplate([item]);
    assert !ItemMatches(item, 20, "test-org", "test-repo");
  }

  /** A child whose item is the first of its issue on the template project adds that
      item's Estimate. */
  lemma {:induction false} FoundChildEstimate(existing: set<IssueRef>, pre: seq<ProjectItem>, post: seq<ProjectItem>,
                                              id: Option<string>, child: IssueRef, estimate: int)
    requires child in existing && child.owner == "test-org" && child.repo != ""
    requires forall i :: 0 <= i < |pre| ==> !ItemMatches(pre[i], child.number, child.owner, child.repo)
    ensures ChildEstimate(existing, [TemplateWith(pre + [EstimatedItem(id, child.repo, child.number, estimate)] + post)],
                          child, "test-org") == estimate
  {
    var item := EstimatedItem(id, child.repo, child.number, estimate);
    TemplateWithIsTemplate(pre + [item] + post);
    FindItemPast(pre, item, post, child.number, child.owner, child.repo);
    EstimatedItemFields(id, child.repo, child.number, estimate);
  }

  lemma RollupTotalOfThree(existing: set<IssueRef>, projects: seq<Project>, a: IssueRef, b: IssueRef, c: IssueRef,
                            orgOwner: string)
    ensures RollupTotal(existing, projects, [a, b, c], orgOwner)
            == ChildEstimate(existing, projects, a, orgOwner) + ChildEstimate(existing, projects, b, orgOwner)
               + ChildEstimate(existing, projects, c, orgOwner)
  {
    assert [a][..0] == [];
    assert RollupTotal(existing, projects, [a], orgOwner) == ChildEstimate(existing, projects, a, orgOwner);
    assert [a, b][..1] == [a];
    assert [a, b, c][..2] == [a, b];
  }

  const ChildA := IssueRef("test-org", "plan", 10)
  const ChildB := IssueRef("test-org", "calendar", 5)
  const ChildC := IssueRef("test-org", "plan", 15)
  const ItemA := EstimatedItem(None, "plan", 10, 5)
  const ItemB := EstimatedItem(None, "calendar", 5, 3)
  const ItemC := EstimatedItem(None, "plan", 15, 8)

  lemma ChildAEstimate()
    ensures ChildEstimate({ChildA, ChildB, ChildC}, [TemplateWith([ItemA, ItemB, ItemC])], ChildA, "test-org") == 5
  {
    assert [] + [ItemA] + [ItemB, ItemC] == [ItemA, ItemB, ItemC];
    FoundChildEstimate({ChildA, ChildB, ChildC}, [], [ItemB, ItemC], None, ChildA, 5);
  }

  lemma ChildBEstimate()
    ensures ChildEstimate({ChildA, ChildB, ChildC}, [TemplateWith([ItemA, ItemB, ItemC])], ChildB, "test-org") == 3
  {
    assert [ItemA] + [ItemB] + [ItemC] == [ItemA, ItemB, ItemC];
    FoundChildEstimate({ChildA, ChildB, ChildC}, [ItemA], [ItemC], None, ChildB, 3);
  }

  lemma ChildCEstimate()
    ensures ChildEstimate({ChildA, ChildB, ChildC}, [TemplateWith([ItemA, ItemB, ItemC])], ChildC, "test-org") == 8
  {
    assert [ItemA, ItemB] + [ItemC] + [] == [ItemA, ItemB, ItemC];
    FoundChildEstimate({ChildA, ChildB, ChildC}, [ItemA, ItemB], [], None, ChildC, 8);
  }

  /** Children `plan#10`, `calendar#5` and `plan#15` with Estimates 5, 3 and 8 total 16. */
  lemma MixedRepoTotalExample()
    ensures RollupTotal({ChildA, ChildB, ChildC}, [TemplateWith([ItemA, ItemB, ItemC])], [ChildA, ChildB, ChildC], "test-org") == 16
  {
    ChildAEstimate();
    ChildBEstimate();
    ChildCEstimate();
    RollupTotalOfThree({ChildA, ChildB, ChildC}, [TemplateWith([ItemA, ItemB, ItemC])], ChildA, ChildB, ChildC, "test-org");
  }
}
