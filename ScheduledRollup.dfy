/** The scheduled rollup's `getProjectFields`: it checks that the issue exists (a rejection
    is not caught), reads the organization's projects, pages through every item of the
    template project with a threaded cursor, and reads the numeric fields of the issue's
    item, keeping each field's id. */
module ScheduledRollup {
  import opened Wrappers
  import opened JsLib
  import opened Tracker
  import opened Pagination
  import opened ProjectLookup

  /** The items queries made with the given cursor arguments. */
  function ItemQueries(owner: string, projectId: string, cursors: seq<Option<string>>): (r: seq<Call>)
    ensures |r| == |cursors|
    ensures forall j :: 0 <= j < |r| ==> r[j] == ItemsQuery(owner, projectId, cursors[j])
  {
    if cursors == [] then []
    else ItemQueries(owner, projectId, cursors[..|cursors| - 1])
         + [ItemsQuery(owner, projectId, cursors[|cursors| - 1])]
  }

  /** What the helper does against an organization in which the issues `existing` exist,
      whose project query lists `projects` and which answers the items queries with `pages`. */
  function PagedFields(existing: set<IssueRef>, projects: seq<Project>, pages: seq<Page<ProjectItem>>,
                       number: nat, owner: string, repo: string): Outcome
  {
    var ref := IssueRef(owner, repo, number);
    if ref !in existing then Outcome(Failure(NotFound), [IssueGet(ref)])
    else
      var calls := [IssueGet(ref), ProjectsQuery(owner)];
      match TemplateProject(projects)
      case None => Outcome(Success(None), calls)
      case Some(project) =>
        match Paginate(pages, true)
        case Failure(f) => Outcome(Failure(f), calls)
        case Success(fetch) =>
          var calls' := calls + ItemQueries(owner, project.id, fetch.cursors);
          match FindItem(fetch.items, number, owner, repo)
          case None => Outcome(Success(None), calls')
          case Some(item) =>
            Outcome(Success(Some(ProjectFields(project.id, item.id, FieldsOf(item.fieldValues, true), project.fields))),
                    calls')
  }

  /** `getProjectFields(github, issueNumber, owner, repo)` */
  method GetProjectFields(existing: set<IssueRef>, projects: seq<Project>, pages: seq<Page<ProjectItem>>,
                          number: nat, owner: string, repo: string) returns (o: Outcome)
    ensures o == PagedFields(existing, projects, pages, number, owner, repo)
  {
    var ref := IssueRef(owner, repo, number);
    var calls := [IssueGet(ref)];
    if ref !in existing {
      return Outcome(Failure(NotFound), calls);
    }
    calls := calls + [ProjectsQuery(owner)];
    var project := TemplateProject(projects);
    if project.None? {
      return Outcome(Success(None), calls);
    }
    var fetched := PaginateItems(pages, true);
    if fetched.Failure? {
      return Outcome(Failure(fetched.fault), calls);
    }
    calls := calls + ItemQueries(owner, project.value.id, fetched.value.cursors);
    var item := FindItem(fetched.value.items, number, owner, repo);
    if item.None? {
      return Outcome(Success(None), calls);
    }
    var fields := BuildFields(item.value.fieldValues, true);
    o := Outcome(Success(Some(ProjectFields(project.value.id, item.value.id, fields, project.value.fields))), calls);
  }

  /** The existence check is not guarded: a missing issue makes the helper reject after
      that one read. */
  lemma MissingIssueRejects(existing: set<IssueRef>, projects: seq<Project>, pages: seq<Page<ProjectItem>>,
                            number: nat, owner: string, repo: string)
    requires IssueRef(owner, repo, number) !in existing
    ensures PagedFields(existing, projects, pages, number, owner, repo)
            == Outcome(Failure(NotFound), [IssueGet(IssueRef(owner, repo, number))])
  {
  }

  /** Without a project titled exactly `[TEMPLATE] EngageMe` the result is `null`, after the
      existence check and the project query, and no items are read. */
  lemma NoTemplateIsNull(existing: set<IssueRef>, projects: seq<Project>, pages: seq<Page<ProjectItem>>,
                         number: nat, owner: string, repo: string)
    requires IssueRef(owner, repo, number) in existing
    requires forall i :: 0 <= i < |projects| ==> projects[i].title != TemplateTitle
    ensures PagedFields(existing, projects, pages, number, owner, repo)
            == Outcome(Success(None), [IssueGet(IssueRef(owner, repo, number)), ProjectsQuery(owner)])
  {
  }

  /** On a well-formed server the helper reads every page, with the cursor threaded, and
      then answers from all the items together: `null` when none is the issue's, otherwise
      the template project's id and field list, the first matching item's id and that
      item's fields. */
  lemma {:induction false} PagedLookup(existing: set<IssueRef>, projects: seq<Project>, pages: seq<Page<ProjectItem>>,
                                       number: nat, owner: string, repo: string, p: Project)
    requires IssueRef(owner, repo, number) in existing
    requires TemplateProject(projects) == Some(p)
    requires WellFormedServer(pages)
    ensures PagedFields(existing, projects, pages, number, owner, repo).calls
            == [IssueGet(IssueRef(owner, repo, number)), ProjectsQuery(owner)]
               + ItemQueries(owner, p.id, CursorLog(pages, |pages|, true))
    ensures |PagedFields(existing, projects, pages, number, owner, repo).calls| == 2 + |pages|
    ensures PagedFields(existing, projects, pages, number, owner, repo).result
            == match FindItem(Flatten(pages), number, owner, repo)
               case None => Success(None)
               case Some(item) => Success(Some(ProjectFields(p.id, item.id, FieldsOf(item.fieldValues, true), p.fields)))
  {
    PaginateComplete(pages, true);
  }

  // The project of the test that finds #150 on the second page.

  const Item150 := ProjectItem(Some("item_150"),
                               Some(Content(Some(150), Some(Repository(Some("test-repo"), Some("test-org"))))),
                               [FieldValue(Some(FieldRef("Estimate", Some("field_est"))), Some(13), None, None),
                                FieldValue(Some(FieldRef("Remaining", Some("field_rem"))), Some(8), None, None)])
  const TestFields := [ProjectField("field_est", "Estimate"), ProjectField("field_rem", "Remaining")]
  const TestProject := Project("proj_123", TemplateTitle, TestFields, [])

  lemma Item150Fields()
    ensures FieldsOf(Item150.fieldValues, true)
            == map["Estimate" := FieldEntry(13, Some("field_est")), "Remaining" := FieldEntry(8, Some("field_rem"))]
  {
    var fvs := Item150.fieldValues;
    assert fvs[..1] == [fvs[0]];
    assert FieldsOf(fvs[..1], true) == map["Estimate" := FieldEntry(13, Some("field_est"))];
  }

  /** An item on a later page is found after paging: the first page has no item of the
      issue and ends with `cursor_100`, the second holds the item of #150, with Estimate 13
      and Remaining 8; the second items query passes `cursor_100`. */
  lemma {:induction false} FoundOnSecondPage(first: seq<ProjectItem>, before: seq<ProjectItem>, after: seq<ProjectItem>)
    requires forall i :: 0 <= i < |first| ==> !ItemMatches(first[i], 150, "test-org", "test-repo")
    requires forall i :: 0 <= i < |before| ==> !ItemMatches(before[i], 150, "test-org", "test-repo")
    ensures
      var pages := [Page(first, true, Some("cursor_100")), Page(before + [Item150] + after, false, None)];
      PagedFields({IssueRef("test-org", "test-repo", 150)}, [TestProject], pages, 150, "test-org", "test-repo")
      == Outcome(Success(Some(ProjectFields("proj_123", Some("item_150"),
                                            map["Estimate" := FieldEntry(13, Some("field_est")),
                                                "Remaining" := FieldEntry(8, Some("field_rem"))],
                                            TestFields))),
                 [IssueGet(IssueRef("test-org", "test-repo", 150)), ProjectsQuery("test-org"),
                  ItemsQuery("test-org", "proj_123", None), ItemsQuery("test-org", "proj_123", Some("cursor_100"))])
  {
    var second := before + [Item150] + after;
    TwoPages(first, second, Some("cursor_100"), None);
    assert TemplateProject([TestProject]) == Some(TestProject);
    assert first + second == (first + before) + [Item150] + after;
    FindItemPast(first + before, Item150, after, 150, "test-org", "test-repo");
    Item150Fields();
    assert ItemQueries("test-org", "proj_123", [None, Some("cursor_100")])
           == [ItemsQuery("test-org", "proj_123", None), ItemsQuery("test-org", "proj_123", Some("cursor_100"))];
  }

  /** A single final page whose first item is the issue's: one items query, and that
      item's fields. */
  lemma OnlyPageFirstItem(item: ProjectItem, rest: seq<ProjectItem>, project: Project, number: nat, owner: string, repo: string)
    requires ItemMatches(item, number, owner, repo) && project.title == TemplateTitle
    ensures PagedFields({IssueRef(owner, repo, number)}, [project], [Page([item] + rest, false, None)], number, owner, repo)
            == Outcome(Success(Some(ProjectFields(project.id, item.id, FieldsOf(item.fieldValues, true), project.fields))),
                       [IssueGet(IssueRef(owner, repo, number)), ProjectsQuery(owner), ItemsQuery(owner, project.id, None)])
  {
    assert TemplateProject([project]) == Some(project);
    SinglePageExample([item] + rest, None, true);
    FindItemPast([], item, rest, number, owner, repo);
    assert [] + [item] + rest == [item] + rest;
    assert ItemQueries(owner, project.id, [None]) == [ItemsQuery(owner, project.id, None)];
  }

  /** A single final page holding the issue's item: one items query, so two graphql calls. */
  lemma FoundOnOnlyPage()
    ensures
      var item := ProjectItem(Some("item_50"),
                              Some(Content(Some(50), Some(Repository(Some("test-repo"), Some("test-org"))))), []);
      var project := Project("proj_123", TemplateTitle, [], []);
      PagedFields({IssueRef("test-org", "test-repo", 50)}, [project], [Page([item], false, None)], 50, "test-org", "test-repo")
      == Outcome(Success(Some(ProjectFields("proj_123", Some("item_50"), map[], []))),
                 [IssueGet(IssueRef("test-org", "test-repo", 50)), ProjectsQuery("test-org"),
                  ItemsQuery("test-org", "proj_123", None)])
  {
    var item := ProjectItem(Some("item_50"),
                            Some(Content(Some(50), Some(Repository(Some("test-repo"), Some("test-org"))))), []);
    var project := Project("proj_123", TemplateTitle, [], []);
    OnlyPageFirstItem(item, [], project, 50, "test-org", "test-repo");
    assert [item] + [] == [item];
    assert FieldsOf(item.fieldValues, true) == map[];
  }

  /** An empty project holds no item of the issue: `null`, after one items query. */
  lemma EmptyProjectIsNull(none: seq<ProjectItem>, number: nat, owner: string, repo: string)
    requires none == []
    ensures
      var project := Project("proj_123", TemplateTitle, [], []);
      PagedFields({IssueRef(owner, repo, number)}, [project], [Page(none, false, None)], number, owner, repo)
      == Outcome(Success(None), [IssueGet(IssueRef(owner, repo, number)), ProjectsQuery(owner),
                                 ItemsQuery(owner, "proj_123", None)])
  {
    var project := Project("proj_123", TemplateTitle, [], []);
    assert TemplateProject([project]) == Some(project);
    SinglePageExample(none, None, true);
  }
}
