/** The issue tracker and project board as the automation sees them: issue references,
    issue records with their sub-issue listings, project items with their field values,
    and the two logs through which the automation's behaviour is observed, the calls it
    reads with and the effects it writes. */
module Tracker {
  import opened Wrappers

  /** `{owner, repo, number}`: one issue anywhere in the organization. */
  datatype IssueRef = IssueRef(owner: string, repo: string, number: nat)

  /** `repository: {name, owner: {login}}` on a project item's content or a sub-issue;
      either part may be missing. */
  datatype Repository = Repository(name: Option<string>, ownerLogin: Option<string>)

  /** An item's `content`: the issue number and its repository, when the board reports them. */
  datatype Content = Content(number: Option<int>, repository: Option<Repository>)

  /** The `field` of a field value: its name and, when reported, its id. */
  datatype FieldRef = FieldRef(name: string, id: Option<string>)

  /** One entry of an item's `fieldValues.nodes`. Which kind of value it is shows only in
      which parts are present: `number` for a numeric field, `iterationId` and `title`
      for an iteration. */
  datatype FieldValue = FieldValue(
    field: Option<FieldRef>,
    number: Option<int>,
    iterationId: Option<string>,
    title: Option<string>)

  /** A project-board entry. */
  datatype ProjectItem = ProjectItem(id: Option<string>, content: Option<Content>, fieldValues: seq<FieldValue>)

  /** A project-level field definition. */
  datatype ProjectField = ProjectField(id: string, name: string)

  /** An organization project with its field definitions and, where one query returns
      them together, its items. */
  datatype Project = Project(id: string, title: string, fields: seq<ProjectField>, items: seq<ProjectItem>)

  /** One entry of the sub-issue listing of an issue. */
  datatype SubIssue = SubIssue(number: nat, state: string, repository: Option<Repository>)

  /** What reading an issue returns, including its sub-issue listing. */
  datatype IssueRecord = IssueRecord(
    title: string,
    state: string,
    body: Option<string>,
    parentIssueUrl: Option<string>,
    subIssues: seq<SubIssue>)

  /** The issues of one repository by number. Reading or listing the sub-issues of a number
      that is not a key fails with `NotFound`. */
  type Tracker = map<nat, IssueRecord>

  /** An issue number produced at run time (`parseInt` may give a negative value) looked up
      in the tracker. */
  predicate Exists(t: Tracker, n: int) {
    n >= 0 && n as nat in t
  }

  /** A write the automation makes through the tracker's API. */
  datatype Effect =
    | AddLabels(target: IssueRef, labels: seq<string>)
    | UpdateState(target: IssueRef, state: string, stateReason: Option<string>)
    | RemoveLabel(target: IssueRef, name: string)

  /** A read the automation makes: an issue fetch, the organization's project query
      (addressed to an owner), and one page of a project's items (with the owner, the
      project id and the cursor passed). */
  datatype Call =
    | IssueGet(ref: IssueRef)
    | ProjectsQuery(owner: string)
    | ItemsQuery(owner: string, projectId: string, cursor: Option<string>)
}
