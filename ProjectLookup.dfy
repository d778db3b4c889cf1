/** Finding an issue's entry on the organization's template project and reading its
    numeric fields: the parts the paged and the probed `getProjectFields` share. */
module ProjectLookup {
  import opened Wrappers
  import opened JsLib
  import opened Tracker

  /** The title of the one project the rollup reads. */
  const TemplateTitle := "[TEMPLATE] EngageMe"

  predicate IsTemplate(p: Project) {
    p.title == TemplateTitle
  }

  /** `projects.find(p => p.title === '[TEMPLATE] EngageMe')`: exact title, first match. */
  function TemplateProject(projects: seq<Project>): (r: Option<Project>)
    ensures r.None? <==> forall i :: 0 <= i < |projects| ==> projects[i].title != TemplateTitle
    ensures r.Some? ==> r.value.title == TemplateTitle &&
                        exists i :: 0 <= i < |projects| && projects[i] == r.value &&
                                    forall j :: 0 <= j < i ==> projects[j].title != TemplateTitle
  {
    Find(projects, IsTemplate)
  }

  // ---------------------------------------------------------------------------
  // Matching an item to an issue
  // ---------------------------------------------------------------------------

  /** `x || d` on a string that may be missing: both a missing value and `""` give `d`. */
  function OrDefault(x: Option<string>, d: string): string {
    if x.Some? && x.value != "" then x.value else d
  }

  /** `content.repository?.owner?.login || owner` */
  function ItemOwner(c: Content, owner: string): string {
    match c.repository
    case None => owner
    case Some(r) => OrDefault(r.ownerLogin, owner)
  }

  /** `content.repository?.name || repo` */
  function ItemRepo(c: Content, repo: string): string {
    match c.repository
    case None => repo
    case Some(r) => OrDefault(r.name, repo)
  }

  /** The `find` predicate: the item has content with the issue's number, and its repository,
      read with the caller's owner and repo as defaults, is the caller's. */
  predicate ItemMatches(i: ProjectItem, number: nat, owner: string, repo: string) {
    i.content.Some? && i.content.value.number == Some(number as int)
    && ItemOwner(i.content.value, owner) == owner && ItemRepo(i.content.value, repo) == repo
  }

  /** The first item of the list that belongs to issue `owner/repo#number`. */
  function FindItem(items: seq<ProjectItem>, number: nat, owner: string, repo: string): (r: Option<ProjectItem>)
    ensures r.None? <==> forall i :: 0 <= i < |items| ==> !ItemMatches(items[i], number, owner, repo)
    ensures r.Some? ==> exists i :: 0 <= i < |items| && items[i] == r.value
                                    && ItemMatches(items[i], number, owner, repo)
                                    && forall j :: 0 <= j < i ==> !ItemMatches(items[j], number, owner, repo)
  {
    Find(items, (i: ProjectItem) => ItemMatches(i, number, owner, repo))
  }

  /** The first match of a list is found past a prefix that holds none. */
  lemma {:induction false} FindItemPast(pre: seq<ProjectItem>, target: ProjectItem, post: seq<ProjectItem>,
                                        number: nat, owner: string, repo: string)
    requires forall i :: 0 <= i < |pre| ==> !ItemMatches(pre[i], number, owner, repo)
    requires ItemMatches(target, number, owner, repo)
    ensures FindItem(pre + [target] + post, number, owner, repo) == Some(target)
  {
    var all := pre + [target] + post;
    assert all[|pre|] == target;
    assert forall i :: 0 <= i < |pre| ==> all[i] == pre[i];
    assert FindIndex(all, (i: ProjectItem) => ItemMatches(i, number, owner, repo)) == Some(|pre|);
  }

  /** An item that names its repository in full matches exactly when the number, the owner
      and the repository name are the caller's. */
  lemma MatchNeedsSameIssue(i: ProjectItem, number: nat, owner: string, repo: string, itemNumber: int,
                            itemOwner: string, itemRepo: string)
    requires itemOwner != "" && itemRepo != ""
    requires i.content == Some(Content(Some(itemNumber), Some(Repository(Some(itemRepo), Some(itemOwner)))))
    ensures ItemMatches(i, number, owner, repo) <==>
              itemNumber == number && itemOwner == owner && itemRepo == repo
  {
  }

  /** An item without content, or whose content has no number, matches no issue. */
  lemma NoContentNoMatch(i: ProjectItem, number: nat, owner: string, repo: string)
    requires i.content.None? || i.content.value.number.None?
    ensures !ItemMatches(i, number, owner, repo)
  {
  }

  /** The default: content without a repository, or with its name and login missing or
      empty, is taken to be in the caller's repository, so it matches on the number alone,
      whichever repository is asked for. */
  lemma MissingRepositoryIsCallers(i: ProjectItem, number: nat, owner: string, repo: string)
    requires i.content.Some?
    requires i.content.value.repository.None?
             || (i.content.value.repository.value.name.GetOr("") == ""
                 && i.content.value.repository.value.ownerLogin.GetOr("") == "")
    ensures ItemMatches(i, number, owner, repo) <==> i.content.value.number == Some(number as int)
  {
  }

  // ---------------------------------------------------------------------------
  // The fields map
  // ---------------------------------------------------------------------------

  /** `{value, fieldId}` as the paged helper stores it; the probed helper stores only
      `{value}`, which is an entry whose `fieldId` is missing. */
  datatype FieldEntry = FieldEntry(value: int, fieldId: Option<string>)

  /** `fv.field && fv.number !== undefined`, for the field named `name`. */
  predicate SetsField(fv: FieldValue, name: string) {
    fv.field.Some? && fv.number.Some? && fv.field.value.name == name
  }

  predicate IsNumeric(fv: FieldValue) {
    fv.field.Some? && fv.number.Some?
  }

  /** The entry a numeric field value writes; `withId` tells whether the field id is kept. */
  function EntryOf(fv: FieldValue, withId: bool): FieldEntry
    requires IsNumeric(fv)
  {
    FieldEntry(fv.number.value, if withId then fv.field.value.id else None)
  }

  /** The fields object after the `forEach` has visited `fvs` in order. */
  function FieldsOf(fvs: seq<FieldValue>, withId: bool): map<string, FieldEntry> {
    if fvs == [] then map[]
    else
      var m := FieldsOf(fvs[..|fvs| - 1], withId);
      var fv := fvs[|fvs| - 1];
      if IsNumeric(fv) then m[fv.field.value.name := EntryOf(fv, withId)] else m
  }

  /** The `forEach` over `item.fieldValues.nodes` filling `fields`. */
  method BuildFields(fvs: seq<FieldValue>, withId: bool) returns (fields: map<string, FieldEntry>)
    ensures fields == FieldsOf(fvs, withId)
  {
    fields := map[];
    for k := 0 to |fvs|
      invariant fields == FieldsOf(fvs[..k], withId)
    {
      var fv := fvs[k];
      assert fvs[..k + 1][..k] == fvs[..k];
      if fv.field.Some? && fv.number.Some? {
        fields := fields[fv.field.value.name := EntryOf(fv, withId)];
      }
    }
    assert fvs[..|fvs|] == fvs;
  }

  /** A name is a key exactly when some field value sets that field with a number, and its
      entry is the one written by the last such field value. */
  lemma {:induction false} FieldsOfEntry(fvs: seq<FieldValue>, withId: bool, name: string)
    ensures name in FieldsOf(fvs, withId) <==> exists i :: 0 <= i < |fvs| && SetsField(fvs[i], name)
    ensures name in FieldsOf(fvs, withId) ==>
              exists i :: 0 <= i < |fvs| && SetsField(fvs[i], name)
                          && FieldsOf(fvs, withId)[name] == EntryOf(fvs[i], withId)
                          && forall j :: i < j < |fvs| ==> !SetsField(fvs[j], name)
  {
    if fvs != [] {
      var n := |fvs| - 1;
      var front := fvs[..n];
      FieldsOfEntry(front, withId, name);
      assert forall i :: 0 <= i < n ==> front[i] == fvs[i];
      if SetsField(fvs[n], name) {
        assert FieldsOf(fvs, withId)[name] == EntryOf(fvs[n], withId);
      } else if name in FieldsOf(fvs, withId) {
        var i :| 0 <= i < n && SetsField(front[i], name)
                 && FieldsOf(front, withId)[name] == EntryOf(front[i], withId)
                 && forall j :: i < j < n ==> !SetsField(front[j], name);
        assert FieldsOf(fvs, withId)[name] == EntryOf(fvs[i], withId);
      }
    }
  }

  /** Entries that are not numeric (an iteration, or a field value without its field)
      never reach the map: only numeric ones count. */
  lemma {:induction false} FieldsOfSkipsNonNumeric(fvs: seq<FieldValue>, fv: FieldValue, withId: bool)
    requires !IsNumeric(fv)
    ensures FieldsOf(fvs + [fv], withId) == FieldsOf(fvs, withId)
  {
    assert (fvs + [fv])[..|fvs|] == fvs;
  }

  /** The probed helper's `{value}` and the paged helper's `{value, fieldId}` agree on
      the keys and the values. */
  lemma {:induction false} FieldsOfSameValues(fvs: seq<FieldValue>, name: string)
    ensures name in FieldsOf(fvs, true) <==> name in FieldsOf(fvs, false)
    ensures name in FieldsOf(fvs, true) ==> FieldsOf(fvs, true)[name].value == FieldsOf(fvs, false)[name].value
    ensures name in FieldsOf(fvs, false) ==> FieldsOf(fvs, false)[name].fieldId.None?
  {
    if fvs != [] {
      FieldsOfSameValues(fvs[..|fvs| - 1], name);
    }
  }

  // ---------------------------------------------------------------------------
  // The result
  // ---------------------------------------------------------------------------

  /** `{projectId, itemId, fields, allFields}` */
  datatype ProjectFields = ProjectFields(
    projectId: string,
    itemId: Option<string>,
    fields: map<string, FieldEntry>,
    allFields: seq<ProjectField>)

  /** What a call of a helper shows: its value (`null` as `None`, a rejection as `Failure`)
      and the reads it made, in order. */
  datatype Outcome = Outcome(result: Result<Option<ProjectFields>>, calls: seq<Call>)

  /** `result.fields.Estimate?.value || 0` for a truthy result; nothing for `null`. */
  function EstimateOf(r: Option<ProjectFields>): int {
    match r
    case None => 0
    case Some(pf) => if "Estimate" in pf.fields then pf.fields["Estimate"].value else 0
  }
}
