# Issue-hierarchy automation, modelled in Dafny

The automation keeps a GitHub issue hierarchy (Epic → Feature → User Story → Task, with Bugs
anywhere) in step with an organization project board named `[TEMPLATE] EngageMe`. This model
covers the following parts:

- **Helper module** (`cross-repo-helper.js`):
  - parsing an issue URL into `{owner, repo, number}`;
  - telling whether an issue lives in the current repository;
  - the issue type of a title prefix;
  - which labels children inherit;
  - finding a project by exact or by partial, case-insensitive name;
  - finding a field by name;
  - the single `addLabels` write of `copyLabels`.
- **Cycle protection:**
  - the composite keys `owner/repo#number` that protect hierarchy walks across repositories;
  - the walk that skips an issue met a second time.
- **Board reads:**
  - forward cursor pagination of a project's items;
  - the two `getProjectFields` lookups of the rollup helpers. The scheduled one pages and keeps field ids. The cross-repository one probes that the issue exists, then scopes the match by repository.
  - the rollup of estimates over children living in several repositories.
- **Workflow steps:**
  - type detection;
  - finding the parent and the children;
  - summing the children's Estimate and Remaining, with closed children skipped;
  - the one-level label cascade;
  - iteration inheritance;
  - the auto-close decision.
- **End-to-end runs:**
  - the recursive label cascade down the sub-issue tree;
  - the recursive estimate rollup up the parent chain;
  - closing or reopening the epic named in a `Parent Epic: #N` body marker;
  - the `sync` label's full synchronisation.

How JavaScript is represented:

| In the source | In the model |
|---|---|
| `null` / `undefined` | `Option` |
| A thrown error or a rejected promise | `Result.Failure(Fault)`: `NotFound` for a rejected issue read, `TypeError` for reading a property of `undefined`. Writes and project queries always succeed, except the `addLabels` of `copyLabels` (see "Left out") |
| The tracker | `map<nat, IssueRecord>` for one repository, the sub-issue listing inside each record |
| API reads | A `Call` log |
| Writes | An `Effect` log |
| The helper module `.github/scripts/cross-repo-helper.js` | Its rows below cite its unit tests, `tests/unit/cross-repo-helper.test.js` and `tests/unit/cross-repo-helper-api.test.js`, and give the module's own lines in the third column |

Module layout:

- `Wrappers` and `JsLib` model the JavaScript built-ins. `JsLib` covers `startsWith`, `includes`, ASCII `toLowerCase`, `parseInt` without a radix, `${n}`, `split('/').pop()` and `Array.prototype.find`.
- `Tracker` holds the data model.
- `CrossRepoHelper` holds the production helper module.
- `CycleDetection`, `Pagination`, `ProjectLookup`, `ScheduledRollup`, `CrossRepoRollup`, `WorkflowLogic` and `CompleteWorkflows` follow the helper functions written beside the automation's tests, one module per test suite.

How loops and shared state are modelled:

- Loops that accumulate become methods with loop invariants. Each is proved equal to a recursive specification function.
- The recursions that share mutable state become methods on a class holding that state:
  - `cascade` shares the `updatedIssues` array;
  - `rollupToParent` shares the `updatedParents`, `estimates` and `remaining` objects.

  Each method states the whole new state as the old state extended by the specification function's result.

## Model

| member | source | states |
|---|---|---|
| JsLib.StartsWith | tests/integration/workflow-logic.test.js:304-308 | `startsWith`: the text begins with the prefix; the type detections built on it are pinned by `CrossRepoHelper.GetIssueTypeFromTitle` and `WorkflowLogic.TypeDetectionsAgree` |
| JsLib.Includes | tests/unit/cross-repo-helper-api.test.js:77-99 | `includes`: the searched text occurs at some index; `MissingCharNotIncluded` rules occurrences out |
| JsLib.ToLower | tests/unit/cross-repo-helper-api.test.js:77-99 | `toLowerCase` letter by letter on ASCII, keeping the length (see "Left out" for Unicode) |
| JsLib.ParseInt | tests/integration/workflow-logic.test.js:315 | `parseInt` without a radix: leading white space, an optional sign, then the longest digit run, `NaN` when there is none; pinned on digit strings by `ParseIntOfDigits` and `ParseIntOfNatToString` |
| JsLib.MissingCharNotIncluded | tests/unit/cross-repo-helper-api.test.js:77-99 | a text lacking one of the searched text's characters does not include it (used for the partial project match) |
| JsLib.RunWhile | tests/unit/cross-repo-helper.test.js:13-39 | the greedy run of a character class (`[^/]+`, `\d+`) from a position: every character in it belongs to the class, and the next one does not (the regular expression on line 16 of the helper module) |
| JsLib.RunWhileExact | tests/unit/cross-repo-helper.test.js:13-39 | a run that ends where the class stops is read whole, so the greedy length is determined |
| JsLib.FirstIndexOf | tests/unit/cycle-detection.test.js:32 | the first occurrence of a character, with none before it |
| JsLib.FirstIndexOfJoin | tests/unit/cycle-detection.test.js:32 | in `x + c + y` with `c` not in `x`, the first `c` is at `|x|` |
| JsLib.JoinInjective | tests/unit/cycle-detection.test.js:32 | joining with a separator absent from the first part can be undone: equal joins have equal parts |
| JsLib.DigitChar | tests/unit/cycle-detection.test.js:32 | the rendered digit is a decimal digit with that value |
| JsLib.NatToString | tests/unit/cycle-detection.test.js:32 | `${n}` is a non-empty string of decimal digits without a leading zero whose decimal value is `n` |
| JsLib.NatToStringInjective | tests/unit/cycle-detection.test.js:61-69 | distinct numbers render differently, and equal ones alike |
| JsLib.ParseIntOfDigits | tests/unit/cross-repo-helper.test.js:13-22 | on a non-empty string of decimal digits `parseInt` gives its decimal value (line 22 of the helper module) |
| JsLib.ParseIntOfNatToString | tests/integration/workflow-logic.test.js:315 | `parseInt` reads back what `${n}` wrote |
| JsLib.LastSegment | tests/integration/workflow-logic.test.js:315 | `split('/').pop()` is the longest suffix without `/`, and the character before it is `/` |
| JsLib.LastSegmentAfterSlash | tests/integration/workflow-logic.test.js:315 | the last segment of `p/q` is `q` when `q` has no `/` |
| JsLib.FindIndex | tests/integration/scheduled-rollup-pagination.test.js:440-442 | the first index satisfying the predicate, none before it; `None` exactly when no element satisfies it |
| JsLib.Find | tests/integration/scheduled-rollup-pagination.test.js:440-442 | `find` gives a value exactly when some element satisfies the predicate, and then the first such element |
| CrossRepoHelper.IsSameRepo | tests/unit/cross-repo-helper.test.js:42-57 | `isSameRepo`: owner and repository both agree (helper module lines 33-35); `SameRepoOfUrl` states it of parsed URLs |
| CrossRepoHelper.IsInheritable | tests/unit/cross-repo-helper.test.js:87-122 | a label is inherited when its name starts with `priority:`, `team:`, `component:` or `size:` (helper module lines 356-369); `FilterOnlyInheritable` and `FilterCounts` state the filter in its terms |
| CrossRepoHelper.MatchUrl | tests/unit/cross-repo-helper.test.js:13-39 | an anchored match of the issue-URL pattern starts with `github.com/` and has a non-empty owner and repository without `/` (helper module line 16) |
| CrossRepoHelper.MatchOwner | tests/unit/cross-repo-helper.test.js:13-39 | the owner group `([^/]+)` is non-empty and has no `/` |
| CrossRepoHelper.MatchRepo | tests/unit/cross-repo-helper.test.js:13-39 | the repository group keeps the owner found and is non-empty without `/` |
| CrossRepoHelper.MatchNumber | tests/unit/cross-repo-helper.test.js:13-39 | the number group keeps the owner and repository found |
| CrossRepoHelper.SearchFrom | tests/unit/cross-repo-helper.test.js:13-39 | the leftmost match found by `match` lies in text that includes `github.com/`, with well-formed owner and repository (helper module lines 16-17) |
| CrossRepoHelper.ParseIssueUrl | tests/unit/cross-repo-helper.test.js:13-39 | a missing or empty URL gives `null`; a parsed reference has a non-empty owner and repository without `/`, and the URL includes `github.com/` (helper module lines 13-24) |
| CrossRepoHelper.MatchNumberWellFormed | tests/unit/cross-repo-helper.test.js:13-22 | a digit run followed by a non-digit is captured whole and parsed to its decimal value |
| CrossRepoHelper.MatchRepoWellFormed | tests/unit/cross-repo-helper.test.js:30-39 | a repository name followed by `/issues/` is captured exactly |
| CrossRepoHelper.MatchOwnerWellFormed | tests/unit/cross-repo-helper.test.js:30-39 | an owner name followed by `/` is captured exactly |
| CrossRepoHelper.MatchUrlWellFormed | tests/unit/cross-repo-helper.test.js:13-39 | `github.com/owner/repo/issues/digits…` matches with exactly those owner, repository and number |
| CrossRepoHelper.ParseIssueUrlRoundTrip | tests/unit/cross-repo-helper.test.js:13-22 | parsing `https://github.com/owner/repo/issues/n` followed by anything that does not continue the number gives back `{owner, repo, n}` |
| CrossRepoHelper.SearchSkips | tests/unit/cross-repo-helper.test.js:13-22 | the leftmost search passes over start positions where the pattern does not match |
| CrossRepoHelper.ParseIssueUrlNotAUrl | tests/unit/cross-repo-helper.test.js:24-28 | `not-a-url` does not parse |
| CrossRepoHelper.SameRepoOfUrl | tests/unit/cross-repo-helper.test.js:42-57 | the issue an issue URL names is in the current repository exactly when both the owner and the repository agree (helper module lines 33-35) |
| CrossRepoHelper.GetIssueTypeFromTitle | tests/unit/cross-repo-helper.test.js:59-85 | `null` exactly when the title starts with no table prefix; otherwise the type of the first prefix it starts with, in table order (helper module lines 332-349) |
| CrossRepoHelper.PrefixesDisjoint | tests/unit/cross-repo-helper.test.js:59-85 | no title starts with two different table prefixes (the table on lines 333-340 of the helper module) |
| CrossRepoHelper.TypeOfPrefixedTitle | tests/unit/cross-repo-helper.test.js:60-80 | a title starting with a table prefix gets that prefix's type, whatever follows |
| CrossRepoHelper.StoryPrefixes | tests/unit/cross-repo-helper.test.js:68-71 | `[STORY]` and `[USER STORY]` both give `User Story` |
| CrossRepoHelper.UnknownPrefix | tests/unit/cross-repo-helper.test.js:81-84 | an unknown bracketed word and an unprefixed title give `null` |
| CrossRepoHelper.Names | tests/unit/cross-repo-helper.test.js:98-105 | `map(label => label.name)` keeps length and order |
| CrossRepoHelper.FilterInheritableLabels | tests/unit/cross-repo-helper.test.js:87-122 | the result is no longer than the input (helper module lines 356-371) |
| CrossRepoHelper.FilterOnlyInheritable | tests/unit/cross-repo-helper.test.js:88-106 | every kept name starts with `priority:`, `team:`, `component:` or `size:` |
| CrossRepoHelper.FilterIsSubsequence | tests/unit/cross-repo-helper.test.js:88-106 | the kept names appear in the input in input order |
| CrossRepoHelper.FilterCounts | tests/unit/cross-repo-helper.test.js:88-106 | each inheritable name is kept as often as it occurs, every other name never |
| CrossRepoHelper.FilterNoneInheritable | tests/unit/cross-repo-helper.test.js:108-121 | with no inheritable label (in particular with none at all) the result is empty |
| CrossRepoHelper.FilterIdempotent | tests/unit/cross-repo-helper.test.js:88-106 | filtering the kept names again keeps all of them |
| CrossRepoHelper.Relabel | tests/unit/cross-repo-helper.test.js:89-96 | label objects whose names are exactly the given names |
| CrossRepoHelper.KeepAll | tests/unit/cross-repo-helper.test.js:88-106 | a list of inheritable names is kept whole |
| CrossRepoHelper.FilterExample | tests/unit/cross-repo-helper.test.js:88-106 | of the six test labels the four scoped ones survive, in order |
| CrossRepoHelper.FilterExampleTail | tests/unit/cross-repo-helper.test.js:88-106 | of `size:large`, `bug`, `documentation` only `size:large` survives |
| CrossRepoHelper.FilterCons | tests/unit/cross-repo-helper.test.js:88-106 | the filter of a list with a first label keeps that label in front exactly when it is inheritable |
| CrossRepoHelper.NotInheritableByFirstChar | tests/unit/cross-repo-helper.test.js:108-117 | a name whose first character is none of `p`, `t`, `c`, `s` is not inheritable |
| CrossRepoHelper.Visible | tests/unit/cross-repo-helper-api.test.js:51-117 | the query sees the organization's first twenty projects, in order (the `first: 20` of line 70 of the helper module) |
| CrossRepoHelper.FindProject | tests/unit/cross-repo-helper-api.test.js:51-117 | the result is one of the visible projects; an exact title wins and the first exact one is taken; with no exact title, the first whose lower-cased title includes the lower-cased name; otherwise `null` (helper module lines 66-95) |
| CrossRepoHelper.FindProjectExampleExact | tests/unit/cross-repo-helper-api.test.js:52-75 | an exact title is found even after a partially matching one |
| CrossRepoHelper.FindProjectSecondPartial | tests/unit/cross-repo-helper-api.test.js:77-99 | with no exact title, the project whose lower-cased title includes the name is found past one that does not |
| CrossRepoHelper.PartialExampleTitles | tests/unit/cross-repo-helper-api.test.js:77-99 | `project alpha` does not include `engageme`; `engageme project` does |
| CrossRepoHelper.FindProjectExamplePartial | tests/unit/cross-repo-helper-api.test.js:77-99 | `engageme` finds `EngageMe Project` |
| CrossRepoHelper.FindField | tests/unit/cross-repo-helper-api.test.js:119-141 | a field is found exactly when one has that name, and then it is one with that name (helper module lines 151-153) |
| CrossRepoHelper.CopyLabels | tests/unit/cross-repo-helper-api.test.js:158-190 | never rejects (a failed `addLabels` is swallowed); no write for an empty list, otherwise exactly one `addLabels` of the whole list to the target (helper module lines 381-395) |
| CrossRepoHelper.CopyInheritedLabels | tests/unit/cross-repo-helper-api.test.js:159-189 | copying a source's inheritable labels makes one `addLabels` call carrying them when there are any, and no call otherwise |
| CycleDetection.CompositeKey | tests/unit/cycle-detection.test.js:32 | `${owner}/${repo}#${number}`; `KeyShape`, `CompositeKeyInjective` and `CompositeKeyCollision` pin it |
| CycleDetection.DisplayLabel | tests/unit/cycle-detection.test.js:153-163 | `#n` in the context repository, `repo#n` elsewhere; `DisplayLabelEndsKey` ties it to the composite key |
| CycleDetection.VisitedSet.Has | tests/unit/cycle-detection.test.js:20-23 | `set.has(k)`: `k` is in the contents; `TrackKeys` states it after a run of adds |
| CycleDetection.VisitedSet.Size | tests/unit/cycle-detection.test.js:20-23 | `set.size`: the number of distinct keys; `TrackKeys` and `KeySetSize` state it after a run of adds |
| CycleDetection.KeyShape | tests/unit/cycle-detection.test.js:32 | the composite key is owner, `/`, repository, `#`, then the decimal number |
| CycleDetection.CompositeKeyInjective | tests/unit/cycle-detection.test.js:7-24 | for owners without `/` and repositories without `#`, keys are equal exactly when the issues are; exactly when they are in the same repository with the same number |
| CycleDetection.CompositeKeyCollision | tests/unit/cycle-detection.test.js:32 | without that naming restriction two different issues share a key |
| CycleDetection.KeySetSize | tests/unit/cycle-detection.test.js:71-87 | a set of keys of such issues has one element per issue |
| CycleDetection.CompositeKeyExample | tests/unit/cycle-detection.test.js:61-69 | `my-org/my-repo#123` |
| CycleDetection.DisplayLabelEndsKey | tests/unit/cycle-detection.test.js:153-163 | the display label is a tail of the composite key: the repository is dropped exactly when it is the context repository |
| CycleDetection.DisplayLabelExample | tests/unit/cycle-detection.test.js:153-163 | `#5` in its own repository, `other-repo#5` from another |
| CycleDetection.VisitedSet.Add | tests/unit/cycle-detection.test.js:15-17 | `set.add(k)`: the new contents are the old ones and `k` |
| CycleDetection.TrackKeys | tests/unit/cycle-detection.test.js:7-24 | after adding the keys of a list of issues, the size is the number of distinct issues and a key is present exactly when its issue was added |
| CycleDetection.SameNumberOtherRepo | tests/unit/cycle-detection.test.js:41-59 | `org/other#5` is absent after adding `org/main#5`; after adding both, both are present and the size is 2 |
| CycleDetection.FirstEncounters | tests/unit/cycle-detection.test.js:89-108 | the issues met, each once: the same issues as the encounter sequence, without repeats |
| CycleDetection.FirstEncountersInOrder | tests/unit/cycle-detection.test.js:89-108 | the first encounters keep the encounter order |
| CycleDetection.VisitGuarded | tests/unit/cycle-detection.test.js:102-107 | a walk that checks the set before processing processes exactly the first encounters, in order |
| CycleDetection.CycleExample | tests/unit/cycle-detection.test.js:89-108 | on A → B → C → A the second A is skipped |
| CycleDetection.FirstEncountersCycle | tests/unit/cycle-detection.test.js:89-108 | for distinct `a`, `b`, `c` the first encounters of `a b c a` are `a b c` |
| CycleDetection.FirstEncountersThree | tests/unit/cycle-detection.test.js:98-100 | three distinct issues are each processed |
| CycleDetection.FirstEncountersTwo | tests/unit/cycle-detection.test.js:116-117 | two distinct issues are each processed |
| CycleDetection.FirstEncountersSnoc | tests/unit/cycle-detection.test.js:102-107 | one more encounter adds its issue exactly when it was not met before |
| Pagination.Paginate | tests/integration/pagination.test.js:81-105 | the pagination specification: the nodes of every page up to the first final page, one cursor per query, a `TypeError` when no page is final; `FinalPage`, `PaginateItems` and `PaginateComplete` pin it |
| Pagination.FlattenAppend | tests/integration/pagination.test.js:101 | `allItems.push(...nodes)` over two runs of pages is the two runs' items one after the other |
| Pagination.FlattenSnoc | tests/integration/pagination.test.js:101 | one more page appends its nodes |
| Pagination.FlattenLength | tests/integration/pagination.test.js:108 | the number of items gathered is the number of nodes on the pages |
| Pagination.FinalPage | tests/integration/pagination.test.js:92-103 | the loop stops at the first page without a next page, when there is one |
| Pagination.CursorLog | tests/integration/pagination.test.js:94-104 | one cursor argument per items query |
| Pagination.PaginateItems | tests/integration/pagination.test.js:81-105 | the `while (hasNextPage)` loop gives what the pagination specification gives: every page's nodes up to the final page, with the cursor of each query, or the failure of asking past the server's last response |
| Pagination.CursorLogEntries | tests/integration/pagination.test.js:168-214 | the first query passes `null`; each later one passes the previous page's `endCursor` when the cursor is threaded, and `null` when it is not |
| Pagination.PaginateComplete | tests/integration/pagination.test.js:11-111 | on a server whose last page alone has no next page, every node is read in order, with one query per page |
| Pagination.PaginateIgnoresLaterPages | tests/integration/pagination.test.js:294-322 | pages after the first final page are never read |
| Pagination.CursorLogPrefix | tests/integration/pagination.test.js:104 | the cursors passed depend only on the pages already read |
| Pagination.SameFlagsSameLength | tests/integration/pagination.test.js:92-103 | only `hasNextPage` decides how many queries are made |
| Pagination.TwoPages | tests/integration/pagination.test.js:168-214 | two pages: both read, the second query carries the first page's cursor |
| Pagination.TwoPagesExample | tests/integration/pagination.test.js:11-111 | 100 and 50 nodes: 150 items, two queries |
| Pagination.SinglePageExample | tests/integration/pagination.test.js:113-166 | one final page: its nodes, one query |
| Pagination.EmptyProjectExample | tests/integration/pagination.test.js:217-246 | an empty project ends after one query with no items |
| Pagination.BoundaryExample | tests/integration/pagination.test.js:294-322 | exactly 100 nodes without a next page stop after one query, whatever the `endCursor` |
| Pagination.OverBoundaryExample | tests/integration/pagination.test.js:324-362 | 101 nodes need a second query |
| Pagination.ThreePagesExample | tests/integration/scheduled-rollup-pagination.test.js:348-423 | three pages of 100, 100 and 50 nodes: 250 items; the queries pass `null`, the first cursor, the second cursor |
| Pagination.FourPagesExample | tests/integration/pagination.test.js:248-290 | four pages of 100: 400 items and four queries |
| Pagination.NeverFinalFails | tests/integration/pagination.test.js:92-105 | a server that always reports a next page runs out of responses and the loop rejects |
| ProjectLookup.ItemMatches | tests/integration/cross-repo-rollup.test.js:329-334 | an item is the issue's when its number, owner and repository agree, a missing owner or repository defaulting to the caller's; `MatchNeedsSameIssue`, `NoContentNoMatch` and `MissingRepositoryIsCallers` pin it |
| ProjectLookup.FieldsOf | tests/integration/scheduled-rollup-pagination.test.js:476-482 | the fields map built from an item's values; `FieldsOfEntry` and `FieldsOfSkipsNonNumeric` pin it |
| ProjectLookup.TemplateProject | tests/integration/scheduled-rollup-pagination.test.js:440-444 | `null` exactly when no project is titled `[TEMPLATE] EngageMe`; otherwise the first project that is |
| ProjectLookup.FindItem | tests/integration/scheduled-rollup-pagination.test.js:466-471 | `null` exactly when no item is the issue's; otherwise the first item that is |
| ProjectLookup.FindItemPast | tests/integration/scheduled-rollup-pagination.test.js:466-471 | an item of the issue after items that are not is the one found |
| ProjectLookup.MatchNeedsSameIssue | tests/integration/cross-repo-rollup.test.js:329-334 | an item naming its repository in full matches exactly when number, owner and repository all agree |
| ProjectLookup.NoContentNoMatch | tests/integration/cross-repo-rollup.test.js:330 | an item without content, or without a number, matches nothing |
| ProjectLookup.MissingRepositoryIsCallers | tests/integration/cross-repo-rollup.test.js:331-332 | an item without a repository, or with an empty name and login, is taken to be the caller's and matches on the number alone |
| ProjectLookup.BuildFields | tests/integration/scheduled-rollup-pagination.test.js:475-483 | the `forEach` filling `fields` gives the fields map of the field values |
| ProjectLookup.FieldsOfEntry | tests/integration/scheduled-rollup-pagination.test.js:476-482 | a name is a key exactly when some value sets that field with a number, and its entry is the last such value's |
| ProjectLookup.FieldsOfSkipsNonNumeric | tests/integration/scheduled-rollup-pagination.test.js:477 | a value without a field or without a number leaves the map unchanged |
| ProjectLookup.FieldsOfSameValues | tests/integration/cross-repo-rollup.test.js:338-343 | the two helpers' maps have the same keys and values; the probed helper keeps no field id |
| ScheduledRollup.PagedFields | tests/integration/scheduled-rollup-pagination.test.js:428-491 | the specification of the paged `getProjectFields`: the reads made and the result; `PagedLookup`, `MissingIssueRejects` and `NoTemplateIsNull` pin it |
| ScheduledRollup.ItemQueries | tests/integration/scheduled-rollup-pagination.test.js:452-456 | one items query per cursor, with the owner and the project id |
| ScheduledRollup.GetProjectFields | tests/integration/scheduled-rollup-pagination.test.js:428-491 | the helper gives what its specification gives: the reads in order and the result, `null`, or the rejection |
| ScheduledRollup.MissingIssueRejects | tests/integration/scheduled-rollup-pagination.test.js:429-433 | a missing issue rejects after the one existence read |
| ScheduledRollup.NoTemplateIsNull | tests/integration/scheduled-rollup-pagination.test.js:440-444 | without the template project the result is `null` and no items are read |
| ScheduledRollup.PagedLookup | tests/integration/scheduled-rollup-pagination.test.js:447-490 | on a well-formed server it reads every page with the cursor threaded, 2 + pages calls, and answers from all items: `null`, or the first matching item's id and fields with the project's id and field list |
| ScheduledRollup.Item150Fields | tests/integration/scheduled-rollup-pagination.test.js:17-97 | #150's item gives Estimate 13 and Remaining 8 with their field ids |
| ScheduledRollup.FoundOnSecondPage | tests/integration/scheduled-rollup-pagination.test.js:17-97 | #150 on the second page is found after a query passing `cursor_100` |
| ScheduledRollup.OnlyPageFirstItem | tests/integration/scheduled-rollup-pagination.test.js:99-145 | an issue whose item is first on a single page: one items query and that item's fields |
| ScheduledRollup.FoundOnOnlyPage | tests/integration/scheduled-rollup-pagination.test.js:99-145 | #50 alone on one page: found, three calls in all |
| ScheduledRollup.EmptyProjectIsNull | tests/integration/scheduled-rollup-pagination.test.js:147-180 | an empty project gives `null` after one items query |
| CrossRepoRollup.ProbedFields | tests/integration/cross-repo-rollup.test.js:310-351 | the specification of the probed `getProjectFields`: the reads made and the result; `ProbedFieldsShape`, `MissingIssueIsNull` and `FoundValues` pin it |
| CrossRepoRollup.ChildEstimate | tests/integration/cross-repo-rollup.test.js:298-303 | what one child adds: its Estimate, or 0 for `null`; `NullChildAddsNothing` and `FoundChildEstimate` pin it |
| CrossRepoRollup.RollupTotal | tests/integration/cross-repo-rollup.test.js:296-303 | the loop total over the children, each looked up in its own repository; `MixedRepoTotal` and `RollupTotalAppend` pin it |
| CrossRepoRollup.GetProjectFields | tests/integration/cross-repo-rollup.test.js:310-351 | the helper gives what its specification gives: the reads in order and the result |
| CrossRepoRollup.ProbedFieldsShape | tests/integration/cross-repo-rollup.test.js:310-351 | never rejects; first reads the issue in its own repository; gives a value exactly when the issue exists, a template project exists and one of its items is the issue's |
| CrossRepoRollup.MissingIssueIsNull | tests/integration/cross-repo-rollup.test.js:311-320 | a failed probe gives `null` after that one read |
| CrossRepoRollup.FoundValues | tests/integration/cross-repo-rollup.test.js:336-350 | a found result carries the template project's id and fields, the first matching item's id, and a key exactly for each numeric field of that item |
| CrossRepoRollup.MixedRepoTotal | tests/integration/cross-repo-rollup.test.js:295-303 | the loop total equals the specification total, each child looked up in its own repository |
| CrossRepoRollup.RollupTotalAppend | tests/integration/cross-repo-rollup.test.js:296-303 | the total over two lists of children is the sum of their totals |
| CrossRepoRollup.NullChildAddsNothing | tests/integration/cross-repo-rollup.test.js:300-302 | a child with a `null` result adds nothing |
| CrossRepoRollup.TemplateWithIsTemplate | tests/integration/cross-repo-rollup.test.js:323-325 | the test project is the template project |
| CrossRepoRollup.EstimatedItemFields | tests/integration/cross-repo-rollup.test.js:338-343 | an item with one Estimate value gives a map with just that Estimate |
| CrossRepoRollup.CalendarReadsItsOwn | tests/integration/cross-repo-rollup.test.js:138-197 | the lookup of `calendar#5` reads 50, past `plan#5` |
| CrossRepoRollup.PlanReadsItsOwn | tests/integration/cross-repo-rollup.test.js:138-197 | the lookup of `plan#5` reads 100 |
| CrossRepoRollup.SameNumberTwoRepos | tests/integration/cross-repo-rollup.test.js:138-197 | two items numbered 5 in two repositories are told apart by repository |
| CrossRepoRollup.CrossRepoIssue | tests/integration/cross-repo-rollup.test.js:68-135 | a child in another repository is probed there and its item found by repository, with Estimate 3 and Remaining 2 |
| CrossRepoRollup.NotInProject | tests/integration/cross-repo-rollup.test.js:210-241 | an issue with no item on the project gives `null` |
| CrossRepoRollup.FoundChildEstimate | tests/integration/cross-repo-rollup.test.js:296-303 | a child whose item is its first on the project adds that item's Estimate |
| CrossRepoRollup.RollupTotalOfThree | tests/integration/cross-repo-rollup.test.js:296-303 | three children add their three estimates |
| CrossRepoRollup.ChildAEstimate | tests/integration/cross-repo-rollup.test.js:243-306 | `plan#10` adds 5 |
| CrossRepoRollup.ChildBEstimate | tests/integration/cross-repo-rollup.test.js:243-306 | `calendar#5` adds 3 |
| CrossRepoRollup.ChildCEstimate | tests/integration/cross-repo-rollup.test.js:243-306 | `plan#15` adds 8 |
| CrossRepoRollup.MixedRepoTotalExample | tests/integration/cross-repo-rollup.test.js:243-306 | the mixed-repository children total 16 |
| WorkflowLogic.GetTypeFromTitle | tests/integration/workflow-logic.test.js:303-310 | the workflow's type detection by title prefix; `TypeDetectionsAgree` and `TypeExamples` pin it |
| WorkflowLogic.FindParentIssue | tests/integration/workflow-logic.test.js:312-319 | rejects exactly when the issue is missing; a parent number exactly when `parent_issue_url` is present and not empty (`ParentFromUrl` gives its value) |
| WorkflowLogic.ShouldCascadeLabel | tests/integration/workflow-logic.test.js:372-374 | every label except `sync` cascades; `InheritableLabelsCascade` states it of the inheritable labels |
| WorkflowLogic.FieldNumberOrZero | tests/integration/workflow-logic.test.js:347-348 | the first named value's number, or 0 when it is missing, with a `TypeError` for a value without a field; `FieldNumberOfFirst` pins it |
| WorkflowLogic.ItemSums | tests/integration/workflow-logic.test.js:344-351 | what a found item adds; `ItemSumsOfFirst` pins it |
| WorkflowLogic.Contribution | tests/integration/workflow-logic.test.js:338-351 | what one child adds: a rejection for a missing issue, nothing for a closed one, otherwise its item's totals; `ClosedChildrenSkipped` states it for closed children |
| WorkflowLogic.ChildrenSums | tests/integration/workflow-logic.test.js:333-355 | the specification of `calculateChildrenSums`; `CalculateChildrenSums`, `ChildrenSumsAppend`, `ClosedChildrenSkipped` and `AllClosedSumZero` pin it |
| WorkflowLogic.TypeDetectionsAgree | tests/integration/workflow-logic.test.js:303-310 | the workflow's type detection agrees with the helper module's on every title except a `[USER STORY]` prefix, which only the helper module knows |
| WorkflowLogic.DiffersAt | tests/integration/workflow-logic.test.js:303-310 | a title differing from a prefix at one of its positions does not start with it |
| WorkflowLogic.TypeExamples | tests/integration/workflow-logic.test.js:23-37 | the Epic, Feature, Story and Task titles get their types |
| WorkflowLogic.ParentFromUrl | tests/integration/workflow-logic.test.js:312-319 | a parent URL ending in `/` and a number gives that number; no URL gives `null` |
| WorkflowLogic.ParentExample | tests/integration/workflow-logic.test.js:41-70 | a URL ending in `/3` gives parent 3 |
| WorkflowLogic.ChildRefs | tests/integration/workflow-logic.test.js:327-330 | one `{number, repository}` per sub-issue, in order |
| WorkflowLogic.FindChildIssues | tests/integration/workflow-logic.test.js:321-331 | rejects exactly for a missing issue; otherwise one entry per sub-issue, in order, carrying that sub-issue's number and repository |
| WorkflowLogic.FindByNumber | tests/integration/workflow-logic.test.js:344 | the first item with the number, none before it; `undefined` when every item has content and none has it; an item without content before the match throws a TypeError |
| WorkflowLogic.FieldNumberTypeError | tests/integration/workflow-logic.test.js:347-348 | a value without its field, before any value of that field, makes the lookup throw a `TypeError` |
| WorkflowLogic.FieldNumberOfFirst | tests/integration/workflow-logic.test.js:347-348 | on values that all have a field: 0 when no value has the name, otherwise the first such value's number (0 when it has none) |
| WorkflowLogic.ItemSumsOfFirst | tests/integration/workflow-logic.test.js:344-351 | on a well-formed board an issue without an item adds nothing, and one with an item adds the number of its first Estimate value and of its first Remaining value, 0 when that value has no number or there is none |
| WorkflowLogic.CalculateChildrenSums | tests/integration/workflow-logic.test.js:333-355 | the loop gives the specification's totals or its first rejection |
| WorkflowLogic.ChildrenSumsAppend | tests/integration/workflow-logic.test.js:337-352 | the totals over two lists of children are the sum of their totals |
| WorkflowLogic.ClosedChildrenSkipped | tests/integration/workflow-logic.test.js:339 | the totals over the children equal the totals over the open children |
| WorkflowLogic.AllClosedSumZero | tests/integration/workflow-logic.test.js:339 | children that all exist and are closed total 0 and 0 |
| WorkflowLogic.SumsExample | tests/integration/workflow-logic.test.js:91-150 | children with 5/3 and 8/8 total 13 and 11 |
| WorkflowLogic.SkipClosedExample | tests/integration/workflow-logic.test.js:152-190 | only the open child's 5 counts |
| WorkflowLogic.LabelEffects | tests/integration/workflow-logic.test.js:362-367 | one `addLabels` per child in listing order for `add`, none for any other operation |
| WorkflowLogic.CascadeLabelToDescendants | tests/integration/workflow-logic.test.js:357-370 | rejects for a missing parent with the set unchanged; otherwise one `addLabels` per child for `add`, and the set grows by exactly the children's numbers |
| WorkflowLogic.LabelEffectsSnoc | tests/integration/workflow-logic.test.js:362-369 | one more child adds its one write |
| WorkflowLogic.CascadeExample | tests/integration/workflow-logic.test.js:194-218 | children 10 and 11: two `addLabels` calls and two numbers in the set |
| WorkflowLogic.InheritableLabelsCascade | tests/integration/workflow-logic.test.js:372-374 | every inheritable label is cascaded, and `sync` is not |
| WorkflowLogic.GetParentIteration | tests/integration/workflow-logic.test.js:376-391 | rejects exactly when the item search rejects, with its fault; a found iteration is the id and title of the first `Iteration` value of the issue's item; `null` only when the issue has no item or its item has no such value |
| WorkflowLogic.IterationExample | tests/integration/workflow-logic.test.js:230-262 | the parent's `Sprint 1` iteration is inherited |
| WorkflowLogic.AllClosed | tests/integration/workflow-logic.test.js:398 | `every` is true exactly when every child is closed |
| WorkflowLogic.CheckIfShouldCloseParent | tests/integration/workflow-logic.test.js:393-399 | rejects exactly for a missing parent; otherwise true exactly when every listed child is closed |
| WorkflowLogic.CloseExamples | tests/integration/workflow-logic.test.js:266-299 | all closed gives true, one open gives false |
| CompleteWorkflows.Cascade | tests/e2e/complete-workflows.test.js:457-476 | the numbers `cascade(n)` labels, in pre-order; `CascadeOrder` and `CascadeComplete` pin them as exactly the descendants |
| CompleteWorkflows.CascadeAll | tests/e2e/complete-workflows.test.js:464-474 | the `for` loop of `cascade` over a listing; `CascadeAllOrder` and `CascadeAllComplete` pin it |
| CompleteWorkflows.ParentLookup | tests/e2e/complete-workflows.test.js:487-495 | the parent read from `parent_issue_url`; `ParentLookupLeadsInto` and `ParentStepOfUrl` pin it |
| CompleteWorkflows.ItemLookup | tests/e2e/complete-workflows.test.js:505-513 | one child's Estimate and Remaining from the board items, as `WorkflowLogic.ItemSums` |
| CompleteWorkflows.SumsOf | tests/e2e/complete-workflows.test.js:503-515 | the totals of the loop over a parent's children; `SumsOfNext`, `SumsOfFailure` and `SumChildren` pin it |
| CompleteWorkflows.ListingSums | tests/e2e/complete-workflows.test.js:503-515 | `SumsOf` with the board items plugged in; `OpenListingAgrees` ties it to `calculateChildrenSums` |
| CompleteWorkflows.Rollup | tests/e2e/complete-workflows.test.js:486-524 | the writes of `rollupToParent`, one per parent up the chain; `RollupClimbs`, `RollupChain` and `RollupTotals` pin it |
| CompleteWorkflows.AnyOpen | tests/e2e/complete-workflows.test.js:559 | `children.some(c => c.state === 'open')`; `AutoCloseDecision` uses it for reopening |
| CompleteWorkflows.LabelCalls | tests/e2e/complete-workflows.test.js:465-470 | one `addLabels` call per labelled number |
| CompleteWorkflows.LabelCallsAt | tests/e2e/complete-workflows.test.js:465-470 | the `i`th call labels the `i`th number with the triggering label |
| CompleteWorkflows.LabelCallsAppend | tests/e2e/complete-workflows.test.js:464-473 | the calls for two runs of numbers are the two runs' calls one after the other |
| CompleteWorkflows.CascadeAllFailure | tests/e2e/complete-workflows.test.js:464-473 | a rejection part-way through the loop is the loop's result |
| CompleteWorkflows.CascadeRun.constructor | tests/e2e/complete-workflows.test.js:455 | the run starts with nothing labelled and no calls |
| CompleteWorkflows.CascadeFrom | tests/e2e/complete-workflows.test.js:457-474 | `cascade(n)` passes up the specification's rejection, or appends the specification's numbers to `updatedIssues` and their `addLabels` calls to the calls made |
| CompleteWorkflows.LabelAndDescend | tests/e2e/complete-workflows.test.js:465-472 | one turn of the loop: the child's call and number, then everything below it |
| CompleteWorkflows.CascadeAllStep | tests/e2e/complete-workflows.test.js:464-473 | one more child of the loop adds the child and its cascade, or passes up its rejection |
| CompleteWorkflows.RunLabelCascade | tests/e2e/complete-workflows.test.js:454-479 | `runLabelCascade` gives the specification's numbers, with one `addLabels` call per number |
| CompleteWorkflows.CascadeAllOrder | tests/e2e/complete-workflows.test.js:464-473 | each number the loop labels is in its listing or a child of a number labelled before it |
| CompleteWorkflows.CascadeOrder | tests/e2e/complete-workflows.test.js:457-474 | every labelled number is a child of the triggering issue or of a number labelled before it (soundness: only descendants are labelled) |
| CompleteWorkflows.CascadeAllComplete | tests/e2e/complete-workflows.test.js:462-474 | the loop labels every child in its listing, and every child of a number it labels |
| CompleteWorkflows.CascadeComplete | tests/e2e/complete-workflows.test.js:457-476 | every child of the triggering issue, and every child of a labelled number, is labelled (completeness: with `CascadeOrder`, the labelled numbers are exactly the descendants) |
| CompleteWorkflows.BoundedMonotone | tests/e2e/complete-workflows.test.js:472 | a tree bounded by one depth is bounded by any larger depth |
| CompleteWorkflows.CascadeAllBounded | tests/e2e/complete-workflows.test.js:472 | every number the loop labels has a bounded tree below it |
| CompleteWorkflows.CascadeDepthIrrelevant | tests/e2e/complete-workflows.test.js:457-474 | the labelled numbers do not depend on the depth bound, once it is large enough |
| CompleteWorkflows.CascadeAllDepthIrrelevant | tests/e2e/complete-workflows.test.js:464-473 | the same for the loop |
| CompleteWorkflows.CascadeNeverLabelsRoot | tests/e2e/complete-workflows.test.js:476 | on a tree that ends, the triggering issue is not labelled by its own cascade |
| CompleteWorkflows.CascadeAllOne | tests/e2e/complete-workflows.test.js:464-473 | a listing of one child labels it and its cascade |
| CompleteWorkflows.CascadeAllTwo | tests/e2e/complete-workflows.test.js:464-473 | a listing of two children labels each with its cascade, in order |
| CompleteWorkflows.CascadeTreeExample | tests/e2e/complete-workflows.test.js:142-182 | the cascade onto 5 labels 10, 11 and 20 |
| CompleteWorkflows.CascadeTreeRun | tests/e2e/complete-workflows.test.js:142-182 | `runLabelCascade` on 5 labels 10, 11 and 20 with three `addLabels` calls |
| CompleteWorkflows.SharedChildLabelledTwice | tests/e2e/complete-workflows.test.js:457-474 | with no visited record, a sub-issue listed under two parents is labelled twice |
| CompleteWorkflows.ParentStep | tests/e2e/complete-workflows.test.js:487-495 | rejects for a missing issue; a found parent is an issue of the tracker |
| CompleteWorkflows.ParentStepOfUrl | tests/e2e/complete-workflows.test.js:495-501 | a URL ending in `/p` leads to `p` when it exists; otherwise reading its sub-issues rejects |
| CompleteWorkflows.ParentLookupLeadsInto | tests/e2e/complete-workflows.test.js:495-501 | every parent read from a URL is an issue of the tracker |
| CompleteWorkflows.Parents | tests/e2e/complete-workflows.test.js:521 | the parents of the writes, in order |
| CompleteWorkflows.RollupRun.constructor | tests/e2e/complete-workflows.test.js:482-484 | the run starts with no parents and empty `estimates` and `remaining` |
| CompleteWorkflows.ApplyCons | tests/e2e/complete-workflows.test.js:519-523 | applying one write and then the rest |
| CompleteWorkflows.SumsOfFailure | tests/e2e/complete-workflows.test.js:506-517 | a rejection part-way through the children's loop is its result |
| CompleteWorkflows.SumsOfNext | tests/e2e/complete-workflows.test.js:506-517 | one more child adds its totals, or its rejection is the result |
| CompleteWorkflows.SumChildren | tests/e2e/complete-workflows.test.js:503-517 | the loop over the parent's children gives the specification's totals |
| CompleteWorkflows.RollupToParent | tests/e2e/complete-workflows.test.js:486-524 | `rollupToParent(n)` passes up the specification's rejection, or leaves the shared state as the old state with the specification's writes applied in order |
| CompleteWorkflows.RollupAt | tests/e2e/complete-workflows.test.js:519-523 | once the parent and its totals are known, the writes are that parent's write and then the parent's own rollup |
| CompleteWorkflows.RunEstimateRollup | tests/e2e/complete-workflows.test.js:481-529 | `runEstimateRollup` gives the specification's result |
| CompleteWorkflows.ChainOfParentLookup | tests/e2e/complete-workflows.test.js:493-495 | the chain climbed with the lookup is the chain of `parent_issue_url`s |
| CompleteWorkflows.RollupClimbs | tests/e2e/complete-workflows.test.js:486-524 | the writes stay within the bound, each gives its parent that parent's totals, and their parents are the chain above the trigger |
| CompleteWorkflows.ChainUnique | tests/e2e/complete-workflows.test.js:523 | the chain above an issue is determined by that issue |
| CompleteWorkflows.ChainSuffix | tests/e2e/complete-workflows.test.js:523 | what follows a link of a chain is the chain above that link |
| CompleteWorkflows.ChainDistinct | tests/e2e/complete-workflows.test.js:523 | no issue appears twice on a chain |
| CompleteWorkflows.RecordAt | tests/e2e/complete-workflows.test.js:519-520 | a number some write names ends with the value every write to it gave, and any other key keeps its value |
| CompleteWorkflows.ConsistentTotals | tests/e2e/complete-workflows.test.js:519-521 | consistent writes on the empty state record exactly the written parents, each with its own listing's totals |
| CompleteWorkflows.RollupChain | tests/e2e/complete-workflows.test.js:481-529 | the reported parents are the chain of parents above the trigger, in order, up to the top, each once |
| CompleteWorkflows.RollupTotals | tests/e2e/complete-workflows.test.js:481-529 | each reported parent has the totals of its own listing of children, and no other number has an entry |
| CompleteWorkflows.NoParentNoRollup | tests/e2e/complete-workflows.test.js:493 | an issue without a parent URL, or with an empty one, updates nothing |
| CompleteWorkflows.Numbers | tests/e2e/complete-workflows.test.js:506 | the numbers of a listing, in order |
| CompleteWorkflows.OpenListingAgrees | tests/e2e/complete-workflows.test.js:506-517 | over open children that all exist, this loop agrees with `calculateChildrenSums` |
| CompleteWorkflows.ClosedChildCountedHere | tests/e2e/complete-workflows.test.js:506-517 | on a closed child the two disagree: the rollup counts its estimate |
| CompleteWorkflows.RollupTreeSteps | tests/e2e/complete-workflows.test.js:186-301 | the URLs lead from #20 to #10 to #5, the top |
| CompleteWorkflows.RollupTreeListings | tests/e2e/complete-workflows.test.js:186-301 | #10's listing totals 5 and 3; #5's totals 13 and 8 |
| CompleteWorkflows.TwoLinkRollup | tests/e2e/complete-workflows.test.js:486-524 | two links up: one write per parent, each with its totals |
| CompleteWorkflows.RollupTreeState | tests/e2e/complete-workflows.test.js:289-299 | those writes leave `updatedParents` [10, 5] with 5/3 and 13/8 |
| CompleteWorkflows.ChainRollupExample | tests/e2e/complete-workflows.test.js:186-301 | a change to #20 updates #10 then #5 with their listings' totals |
| CompleteWorkflows.FirstMatch | tests/e2e/complete-workflows.test.js:539 | the leftmost marker followed by a digit, none before it |
| CompleteWorkflows.FirstMatchAt | tests/e2e/complete-workflows.test.js:539 | a match past positions holding none is the leftmost |
| CompleteWorkflows.CapturedDigits | tests/e2e/complete-workflows.test.js:539-545 | the captured group is a non-empty run of digits |
| CompleteWorkflows.ParentEpic | tests/e2e/complete-workflows.test.js:538-545 | no number exactly when the body holds no match; otherwise `parseInt` of the captured digits |
| CompleteWorkflows.NoMatchBefore | tests/e2e/complete-workflows.test.js:539 | text without a `P` holds no match |
| CompleteWorkflows.MatchAtMarker | tests/e2e/complete-workflows.test.js:539 | the marker followed by a digit is a match |
| CompleteWorkflows.MarkerAfter | tests/e2e/complete-workflows.test.js:539 | after text without a `P`, the marker and a digit is the leftmost match |
| CompleteWorkflows.DigitRunAfter | tests/e2e/complete-workflows.test.js:539 | a digit run ended by a non-digit is read whole |
| CompleteWorkflows.DigitsCaptured | tests/e2e/complete-workflows.test.js:539 | the group captures the whole run of digits after the marker |
| CompleteWorkflows.ParentEpicAfter | tests/e2e/complete-workflows.test.js:538-545 | a body naming `Parent Epic: #p` gives `p` |
| CompleteWorkflows.AutoClose | tests/e2e/complete-workflows.test.js:531-583 | rejects for a missing issue; never both closes and reopens; writes exactly when it closes or reopens |
| CompleteWorkflows.AutoCloseDecision | tests/e2e/complete-workflows.test.js:558-582 | closes exactly when every listed child is closed and the parent is open, with one update to closed as completed; reopens exactly when some child is open and the parent is closed, with one update to open |
| CompleteWorkflows.NoMarkerNoChange | tests/e2e/complete-workflows.test.js:538-543 | a body without a match, or no body, changes nothing |
| CompleteWorkflows.MissingParentRejects | tests/e2e/complete-workflows.test.js:546-550 | a named parent that does not exist makes the run reject |
| CompleteWorkflows.EmptyListingCloses | tests/e2e/complete-workflows.test.js:558-570 | a parent without sub-issues counts as all closed: an open one is closed |
| CompleteWorkflows.EpicFiveBody | tests/e2e/complete-workflows.test.js:304-351 | `Parent Epic: #5` names 5 |
| CompleteWorkflows.AutoCloseExample | tests/e2e/complete-workflows.test.js:304-351 | the last child closing closes the open epic #5 as completed |
| CompleteWorkflows.ReopenExample | tests/e2e/complete-workflows.test.js:353-392 | a child reopening reopens the closed epic #5 |
| CompleteWorkflows.FullSync | tests/e2e/complete-workflows.test.js:585-599 | one write, removing the `sync` label from the issue, a label that is never cascaded; every step reported done |

## Left out

- `delay` waits on a timer. Time is not modelled.
- `getIssue` only forwards a read and rethrows its failure. The model reads the tracker directly.
- `addComment`, `findProjectItem`, `addIssueToProject`, the field update mutations, `getProjectItemFields` and `copyMilestone` are API calls with no logic of their own here. They are not modelled.
- The `getProjectFields(projectId)` of the helper module is a single query returning `fields.nodes`. It is not modelled; the two rollup `getProjectFields` lookups are.
- JsLib.ToLower: maps only the ASCII letters. JavaScript's `toLowerCase` applies full Unicode case mapping.
- JsLib.ParseInt: works on unbounded integers. JavaScript's `parseInt` gives a double for large values and rounds.
- Promises and the order in which the tests' mocks answer calls are not modelled.
- Mocks answer in call order; the model keys each answer by issue number. For example, `issues.get` is answered from the tracker, and the project queries return the same project each time.
- Mock fixtures beyond the values each scenario lemma states are not modelled.
- ScheduledRollup.GetProjectFields: when pagination rejects, the call log stops at the projects query. The items queries of the failed run are not logged.
- `item.fieldValues` missing (a TypeError) is not modelled. Items always carry a list of field values.
- ScheduledRollup.PagedFields and CrossRepoRollup.ProbedFields: a project without `fields`, for which `project.fields.nodes` throws a TypeError, is not modelled. Projects always carry their field list.
- `projectsV2.nodes[0]` on an empty list (a TypeError) is not modelled. Those loops take that project's items as a parameter.
- WorkflowLogic.FindChildIssues: a `child.repository` that is missing is kept as `None`. The crash of a caller that reads through it is not modelled.
- The end-to-end cascade and rollup keep no visited record, and do not end on a cycle.
  - CompleteWorkflows.CascadeFrom requires a ghost bound on the height of the sub-issue tree (`Bounded`).
  - CompleteWorkflows.RollupToParent requires a ghost bound on the length of the parent chain (`ChainBounded`).
  - Neither run is modelled on a cyclic hierarchy.
- CompleteWorkflows.CascadeFrom: on a rejection the labels already written stay written, but the model states only the rejection, not the partial state.
- CompleteWorkflows.RollupToParent: on a rejection the writes already made stay made, but the model states only the rejection, not the partial state.
- CompleteWorkflows.RollupToParent: written over an abstract parent lookup and an abstract per-child reading. `RunEstimateRollup` plugs in the `parent_issue_url` lookup and the items' Estimate and Remaining.
- The scheduled lookup never stops paging early. It reads every page before searching, which the model follows; a test name promises early stopping but the helper does not do it.
- Writes and project queries are assumed to succeed; only the `addLabels` of `copyLabels` is modelled as possibly failing. The members below therefore never reject at those calls, where the source would pass the rejection up:
- WorkflowLogic.CascadeLabelToDescendants: its `addLabels` (workflow-logic.test.js:364) never fails.
- WorkflowLogic.ChildrenSums: its project query (workflow-logic.test.js:342) never fails.
- WorkflowLogic.GetParentIteration: its project query (workflow-logic.test.js:377) never fails.
- CompleteWorkflows.LabelAndDescend: its `addLabels` (complete-workflows.test.js:465) never fails, and so neither does it in `CascadeFrom` and `RunLabelCascade`.
- CompleteWorkflows.SumsOf: its project query (complete-workflows.test.js:507) never fails, and so neither does it in `RollupToParent` and `RunEstimateRollup`.
- CompleteWorkflows.AutoClose: its `issues.update` calls (complete-workflows.test.js:562 and 573) never fail.
- CompleteWorkflows.FullSync: its `removeLabel` (complete-workflows.test.js:586) never fails.
- CrossRepoRollup.ProbedFields: its project query (cross-repo-rollup.test.js:322) never fails, so the lookup never rejects.
- `runIssueAutomation` returns constant values and reads nothing. It is not modelled.
- The constant flags that `runFullSync` reports are stated as they are.
