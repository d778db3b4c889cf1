/** The pure helpers of the cross-repository automation: issue-URL parsing, repository
    equality, issue type from a title prefix, the inheritable-label filter, project and
    field selection, and the label copy expressed as the write it makes. */
module CrossRepoHelper {
  import opened Wrappers
  import opened JsLib
  import opened Tracker

  // ---------------------------------------------------------------------------
  // parseIssueUrl: /github\.com\/([^/]+)\/([^/]+)\/issues\/(\d+)/
  // ---------------------------------------------------------------------------

  const Host: string := "github.com/"
  const IssuesSegment: string := "/issues/"

  predicate NotSlash(c: char) {
    c != '/'
  }

  /** The match of the issue-URL pattern anchored at the start of `t`, if there is one.
      A `[^/]+` group can only end just before a `/`, so the greedy runs admit no
      backtracking and the anchored match is unique. */
  function MatchUrl(t: string): (r: Option<IssueRef>)
    ensures r.Some? ==> StartsWith(t, Host)
    ensures r.Some? ==> r.value.owner != [] && '/' !in r.value.owner
    ensures r.Some? ==> r.value.repo != [] && '/' !in r.value.repo
  {
    if StartsWith(t, Host) then MatchOwner(t[|Host|..]) else None
  }

  /** `([^/]+)\/` and what follows. */
  function MatchOwner(t: string): (r: Option<IssueRef>)
    ensures r.Some? ==> r.value.owner != [] && '/' !in r.value.owner
    ensures r.Some? ==> r.value.repo != [] && '/' !in r.value.repo
  {
    var n := RunWhile(t, 0, NotSlash);
    if n == 0 || n == |t| then None
    else
      assert forall k :: 0 <= k < n ==> NotSlash(t[..n][k]);
      MatchRepo(t[..n], t[n + 1..])
  }

  /** `([^/]+)\/issues\/` and what follows, once the owner is known. */
  function MatchRepo(owner: string, t: string): (r: Option<IssueRef>)
    ensures r.Some? ==> r.value.owner == owner
    ensures r.Some? ==> r.value.repo != [] && '/' !in r.value.repo
  {
    var n := RunWhile(t, 0, NotSlash);
    if n == 0 || !StartsWith(t[n..], IssuesSegment) then None
    else
      assert forall k :: 0 <= k < n ==> NotSlash(t[..n][k]);
      MatchNumber(owner, t[..n], t[n + |IssuesSegment|..])
  }

  /** `(\d+)`, once the owner and repository are known. */
  function MatchNumber(owner: string, repo: string, t: string): (r: Option<IssueRef>)
    ensures r.Some? ==> r.value.owner == owner && r.value.repo == repo
  {
    var n := RunWhile(t, 0, IsDigit);
    if n == 0 then None
    else
      assert AllRadixDigits(t[..n], 10) by {
        forall k | 0 <= k < n ensures IsRadixDigit(t[..n][k], 10) {
          assert IsDigit(t[k]);
        }
      }
      Some(IssueRef(owner, repo, RadixValue(t[..n], 10)))
  }

  /** `String.prototype.match` without the `g` flag: the leftmost start at which the
      pattern matches, scanning from `i`. */
  function SearchFrom(s: string, i: nat): (r: Option<IssueRef>)
    requires i <= |s|
    ensures r.Some? ==> r.value.owner != [] && '/' !in r.value.owner
    ensures r.Some? ==> r.value.repo != [] && '/' !in r.value.repo
    ensures r.Some? ==> Includes(s, Host)
    decreases |s| - i
  {
    match MatchUrl(s[i..])
    case Some(ref) =>
      assert OccursAt(s, Host, i) by {
        assert s[i..][..|Host|] == s[i..i + |Host|];
      }
      Some(ref)
    case None => if i == |s| then None else SearchFrom(s, i + 1)
  }

  /** `parseIssueUrl(url)`: `null` for a missing or empty URL and for one the pattern does
      not match, else the owner, repository and issue number it names. */
  function ParseIssueUrl(url: Option<string>): (r: Option<IssueRef>)
    ensures url.None? || url == Some("") ==> r.None?
    ensures r.Some? ==> r.value.owner != [] && '/' !in r.value.owner
    ensures r.Some? ==> r.value.repo != [] && '/' !in r.value.repo
    ensures r.Some? ==> Includes(url.value, Host)
  {
    match url
    case None => None
    case Some(s) => if s == [] then None else SearchFrom(s, 0)
  }

  /** A digit run that ends where the text stops being digits is read whole. */
  lemma {:induction false} MatchNumberWellFormed(owner: string, repo: string, digits: string, rest: string)
    requires digits != [] && forall k :: 0 <= k < |digits| ==> IsDigit(digits[k])
    requires rest == [] || !IsDigit(rest[0])
    ensures AllRadixDigits(digits, 10)
    ensures MatchNumber(owner, repo, digits + rest) == Some(IssueRef(owner, repo, RadixValue(digits, 10)))
  {
    var t := digits + rest;
    assert |digits| == |t| || !IsDigit(t[|digits|]) by {
      if rest != [] {
        assert t[|digits|] == rest[0];
      }
    }
    RunWhileExact(t, 0, |digits|, IsDigit);
    assert t[..|digits|] == digits;
    ParseIntOfDigits(digits);
  }

  lemma {:induction false} MatchRepoWellFormed(owner: string, repo: string, rest: string)
    requires repo != [] && '/' !in repo
    ensures MatchRepo(owner, repo + (IssuesSegment + rest)) == MatchNumber(owner, repo, rest)
  {
    var t := repo + (IssuesSegment + rest);
    assert t[|repo|] == '/';
    RunWhileExact(t, 0, |repo|, NotSlash);
    assert t[..|repo|] == repo && t[|repo|..] == IssuesSegment + rest;
    assert (IssuesSegment + rest)[..|IssuesSegment|] == IssuesSegment;
    assert t[|repo| + |IssuesSegment|..] == rest;
  }

  lemma {:induction false} MatchOwnerWellFormed(owner: string, rest: string)
    requires owner != [] && '/' !in owner
    ensures MatchOwner(owner + ("/" + rest)) == MatchRepo(owner, rest)
  {
    var t := owner + ("/" + rest);
    assert t[|owner|] == '/';
    RunWhileExact(t, 0, |owner|, NotSlash);
    assert t[..|owner|] == owner && t[|owner| + 1..] == rest;
  }

  /** A well-formed anchored match: the host, a non-empty owner and repository without
      `/`, the issues segment, and a digit run that ends where the text stops being digits. */
  lemma {:induction false} MatchUrlWellFormed(owner: string, repo: string, digits: string, rest: string)
    requires owner != [] && '/' !in owner && repo != [] && '/' !in repo
    requires digits != [] && forall k :: 0 <= k < |digits| ==> IsDigit(digits[k])
    requires rest == [] || !IsDigit(rest[0])
    ensures AllRadixDigits(digits, 10)
    ensures MatchUrl(Host + (owner + ("/" + (repo + (IssuesSegment + (digits + rest))))))
            == Some(IssueRef(owner, repo, RadixValue(digits, 10)))
  {
    var r1 := owner + ("/" + (repo + (IssuesSegment + (digits + rest))));
    var t := Host + r1;
    assert t[..|Host|] == Host && t[|Host|..] == r1;
    MatchOwnerWellFormed(owner, repo + (IssuesSegment + (digits + rest)));
    MatchRepoWellFormed(owner, repo, digits + rest);
    MatchNumberWellFormed(owner, repo, digits, rest);
  }

  /** The canonical issue address. */
  function IssueUrl(owner: string, repo: string, n: nat): string {
    "https://" + (Host + (owner + ("/" + (repo + (IssuesSegment + NatToString(n))))))
  }

  /** The URL of an issue, followed by anything that does not continue its number,
      parses back to exactly that owner, repository and number. */
  lemma {:induction false} ParseIssueUrlRoundTrip(owner: string, repo: string, n: nat, suffix: string)
    requires owner != [] && '/' !in owner
    requires repo != [] && '/' !in repo
    requires suffix == [] || !IsDigit(suffix[0])
    ensures ParseIssueUrl(Some(IssueUrl(owner, repo, n) + suffix)) == Some(IssueRef(owner, repo, n))
  {
    var digits := NatToString(n);
    var r5 := IssuesSegment + digits;
    var r3 := repo + r5;
    var r2 := "/" + r3;
    var r1 := owner + r2;
    var r0 := Host + r1;
    var tail := Host + (owner + ("/" + (repo + (IssuesSegment + (digits + suffix)))));
    var s := IssueUrl(owner, repo, n) + suffix;
    assert r5 + suffix == IssuesSegment + (digits + suffix);
    assert r3 + suffix == repo + (r5 + suffix);
    assert r2 + suffix == "/" + (r3 + suffix);
    assert r1 + suffix == owner + (r2 + suffix);
    assert r0 + suffix == Host + (r1 + suffix);
    assert s == "https://" + (r0 + suffix);
    assert s == "https://" + tail;
    assert s[8..] == tail;
    // No start before the host can match: "https://" contains no 'g'.
    forall i: nat | i < 8
      ensures MatchUrl(s[i..]) == None
    {
      assert s[i..][0] == "https://"[i] != Host[0];
    }
    SearchSkips(s, 0, 8);
    MatchUrlWellFormed(owner, repo, digits, suffix);
  }

  /** Starts with no match are skipped by the leftmost search. */
  lemma {:induction false} SearchSkips(s: string, i: nat, j: nat)
    requires i <= j <= |s|
    requires forall k: nat :: i <= k < j ==> MatchUrl(s[k..]) == None
    ensures SearchFrom(s, i) == SearchFrom(s, j)
    decreases j - i
  {
    if i < j {
      SearchSkips(s, i + 1, j);
    }
  }

  /** Text without the host name never parses; `not-a-url` is such a text. */
  lemma ParseIssueUrlNotAUrl()
    ensures ParseIssueUrl(Some("not-a-url")) == None
  {
    assert Host[0] == 'g';
    MissingCharNotIncluded("not-a-url", Host, 'g');
  }

  // ---------------------------------------------------------------------------
  // isSameRepo
  // ---------------------------------------------------------------------------

  /** `isSameRepo(ref, owner, repo)` */
  predicate IsSameRepo(ref: IssueRef, owner: string, repo: string) {
    ref.owner == owner && ref.repo == repo
  }

  /** The issue an issue URL names is in the current repository exactly when the URL's
      owner and repository are the current ones; its number plays no part. */
  lemma SameRepoOfUrl(owner: string, repo: string, n: nat, suffix: string, currentOwner: string, currentRepo: string)
    requires owner != [] && '/' !in owner
    requires repo != [] && '/' !in repo
    requires suffix == [] || !IsDigit(suffix[0])
    ensures ParseIssueUrl(Some(IssueUrl(owner, repo, n) + suffix)).Some?
    ensures IsSameRepo(ParseIssueUrl(Some(IssueUrl(owner, repo, n) + suffix)).value, currentOwner, currentRepo)
            <==> owner == currentOwner && repo == currentRepo
  {
    ParseIssueUrlRoundTrip(owner, repo, n, suffix);
  }

  // ---------------------------------------------------------------------------
  // getIssueTypeFromTitle
  // ---------------------------------------------------------------------------

  /** The prefix table in its declaration order, which is the order `Object.entries`
      visits it in. */
  const TypeTable: seq<(string, string)> := [
    ("[BUG]", "Bug"),
    ("[EPIC]", "Epic"),
    ("[FEATURE]", "Feature"),
    ("[TASK]", "Task"),
    ("[USER STORY]", "User Story"),
    ("[STORY]", "User Story")
  ]

  /** `getIssueTypeFromTitle(title)`: the type of the first table prefix the title starts
      with, or `null`. */
  function GetIssueTypeFromTitle(title: string): (r: Option<string>)
    ensures r.None? <==> forall i :: 0 <= i < |TypeTable| ==> !StartsWith(title, TypeTable[i].0)
    ensures r.Some? ==> exists i :: 0 <= i < |TypeTable| && StartsWith(title, TypeTable[i].0)
                                    && r.value == TypeTable[i].1
                                    && forall j :: 0 <= j < i ==> !StartsWith(title, TypeTable[j].0)
  {
    match Find(TypeTable, (e: (string, string)) => StartsWith(title, e.0))
    case None => None
    case Some(e) => Some(e.1)
  }

  /** Every table prefix is told apart from the others by its second character. */
  lemma PrefixesDisjoint(i: int, j: int, title: string)
    requires 0 <= i < |TypeTable| && 0 <= j < |TypeTable|
    requires StartsWith(title, TypeTable[i].0) && StartsWith(title, TypeTable[j].0)
    ensures i == j
  {
    assert title[1] == TypeTable[i].0[1] == TypeTable[j].0[1];
  }

  /** A title that starts with a table prefix gets that prefix's type, whatever follows. */
  lemma {:induction false} TypeOfPrefixedTitle(i: int, rest: string)
    requires 0 <= i < |TypeTable|
    ensures GetIssueTypeFromTitle(TypeTable[i].0 + rest) == Some(TypeTable[i].1)
  {
    var title := TypeTable[i].0 + rest;
    assert StartsWith(title, TypeTable[i].0) by {
      assert title[..|TypeTable[i].0|] == TypeTable[i].0;
    }
    var r := GetIssueTypeFromTitle(title);
    var k :| 0 <= k < |TypeTable| && StartsWith(title, TypeTable[k].0) && r.value == TypeTable[k].1;
    PrefixesDisjoint(i, k, title);
  }

  /** Both story prefixes give the same type. */
  lemma StoryPrefixes(rest: string)
    ensures GetIssueTypeFromTitle("[STORY]" + rest) == Some("User Story")
    ensures GetIssueTypeFromTitle("[USER STORY]" + rest) == Some("User Story")
  {
    TypeOfPrefixedTitle(5, rest);
    TypeOfPrefixedTitle(4, rest);
  }

  /** A bracketed word that is not in the table gives no type. */
  lemma UnknownPrefix(rest: string)
    ensures GetIssueTypeFromTitle("[UNKNOWN]" + rest) == None
    ensures GetIssueTypeFromTitle("No prefix here") == None
  {
    var t := "[UNKNOWN]" + rest;
    assert t[1] == 'U' && t[2] == 'N';
    forall i | 0 <= i < |TypeTable| ensures !StartsWith(t, TypeTable[i].0) {
      assert TypeTable[i].0[1] != 'U' || TypeTable[i].0[2] != 'N';
    }
    var u := "No prefix here";
    assert u[0] != '[';
    forall i | 0 <= i < |TypeTable| ensures !StartsWith(u, TypeTable[i].0) {
      assert TypeTable[i].0[0] == '[';
    }
  }

  // ---------------------------------------------------------------------------
  // filterInheritableLabels
  // ---------------------------------------------------------------------------

  /** A label object; only its name is read. */
  datatype Label = Label(name: string)

  const InheritablePrefixes: seq<string> := ["priority:", "team:", "component:", "size:"]

  predicate IsInheritable(name: string) {
    exists i :: 0 <= i < |InheritablePrefixes| && StartsWith(name, InheritablePrefixes[i])
  }

  function Names(labels: seq<Label>): (r: seq<string>)
    ensures |r| == |labels| && forall i :: 0 <= i < |r| ==> r[i] == labels[i].name
  {
    if labels == [] then [] else [labels[0].name] + Names(labels[1..])
  }

  /** `xs` keeps some of the elements of `ys`, in their order. */
  predicate IsSubsequence<T(==)>(xs: seq<T>, ys: seq<T>)
    decreases |ys|
  {
    if xs == [] then true
    else if ys == [] then false
    else if xs[0] == ys[0] then IsSubsequence(xs[1..], ys[1..])
    else IsSubsequence(xs, ys[1..])
  }

  /** `filterInheritableLabels(labels)`: the names that start with an inheritable prefix,
      each as often as it occurs and in input order; every other name is dropped. */
  function FilterInheritableLabels(labels: seq<Label>): (r: seq<string>)
    ensures |r| <= |labels|
  {
    if labels == [] then []
    else
      var rest := FilterInheritableLabels(labels[1..]);
      assert Names(labels) == [labels[0].name] + Names(labels[1..]);
      if IsInheritable(labels[0].name) then [labels[0].name] + rest else rest
  }

  /** Only inheritable names are kept. */
  lemma {:induction false} FilterOnlyInheritable(labels: seq<Label>)
    ensures forall i :: 0 <= i < |FilterInheritableLabels(labels)| ==> IsInheritable(FilterInheritableLabels(labels)[i])
  {
    if labels != [] {
      FilterOnlyInheritable(labels[1..]);
    }
  }

  /** The kept names appear in the input, in input order. */
  lemma {:induction false} FilterIsSubsequence(labels: seq<Label>)
    ensures IsSubsequence(FilterInheritableLabels(labels), Names(labels))
  {
    if labels != [] {
      FilterIsSubsequence(labels[1..]);
      assert Names(labels) == [labels[0].name] + Names(labels[1..]);
      var rest := FilterInheritableLabels(labels[1..]);
      SubsequencePrepend(rest, labels[0].name, Names(labels[1..]));
      assert ([labels[0].name] + rest)[1..] == rest;
    }
  }

  /** An element in front of the larger sequence keeps a subsequence one. */
  lemma {:induction false} SubsequencePrepend<T>(xs: seq<T>, y: T, ys: seq<T>)
    requires IsSubsequence(xs, ys)
    ensures IsSubsequence(xs, [y] + ys)
    decreases |ys|, 1
  {
    assert ([y] + ys)[1..] == ys;
    if xs != [] && xs[0] == y {
      SubsequenceDropFirst(xs, ys);
    }
  }

  /** A subsequence without its first element is still one. */
  lemma {:induction false} SubsequenceDropFirst<T>(xs: seq<T>, ys: seq<T>)
    requires xs != [] && IsSubsequence(xs, ys)
    ensures IsSubsequence(xs[1..], ys)
    decreases |ys|, 0
  {
    if xs[0] == ys[0] {
      SubsequencePrepend(xs[1..], ys[0], ys[1..]);
    } else {
      SubsequenceDropFirst(xs, ys[1..]);
      SubsequencePrepend(xs[1..], ys[0], ys[1..]);
    }
    assert [ys[0]] + ys[1..] == ys;
  }

  /** Every inheritable name is kept as often as it occurs, and no other name is kept. */
  lemma {:induction false} FilterCounts(labels: seq<Label>, x: string)
    ensures multiset(FilterInheritableLabels(labels))[x]
            == if IsInheritable(x) then multiset(Names(labels))[x] else 0
  {
    if labels != [] {
      FilterCounts(labels[1..], x);
      assert Names(labels) == [labels[0].name] + Names(labels[1..]);
    }
  }

  /** Nothing qualifies, nothing is kept; in particular an empty list gives an empty list. */
  lemma {:induction false} FilterNoneInheritable(labels: seq<Label>)
    requires forall i :: 0 <= i < |labels| ==> !IsInheritable(labels[i].name)
    ensures FilterInheritableLabels(labels) == []
  {
    if labels != [] {
      FilterNoneInheritable(labels[1..]);
    }
  }

  /** Filtering the kept names again keeps all of them. */
  lemma {:induction false} FilterIdempotent(labels: seq<Label>)
    ensures FilterInheritableLabels(Relabel(FilterInheritableLabels(labels))) == FilterInheritableLabels(labels)
  {
    FilterOnlyInheritable(labels);
    KeepAll(FilterInheritableLabels(labels));
  }

  function Relabel(names: seq<string>): (r: seq<Label>)
    ensures Names(r) == names
  {
    if names == [] then [] else [Label(names[0])] + Relabel(names[1..])
  }

  lemma {:induction false} KeepAll(names: seq<string>)
    requires forall i :: 0 <= i < |names| ==> IsInheritable(names[i])
    ensures FilterInheritableLabels(Relabel(names)) == names
  {
    if names != [] {
      KeepAll(names[1..]);
      assert Relabel(names)[1..] == Relabel(names[1..]);
    }
  }

  /** The six-label example: the four scoped labels survive, in order. */
  lemma FilterExample()
    ensures FilterInheritableLabels([Label("priority:high"), Label("team:backend"), Label("component:auth"),
                                     Label("size:large"), Label("bug"), Label("documentation")])
            == ["priority:high", "team:backend", "component:auth", "size:large"]
  {
    var tail := [Label("size:large"), Label("bug"), Label("documentation")];
    FilterExampleTail();
    assert StartsWith("component:auth", InheritablePrefixes[2]);
    FilterCons(Label("component:auth"), tail);
    assert StartsWith("team:backend", InheritablePrefixes[1]);
    FilterCons(Label("team:backend"), [Label("component:auth")] + tail);
    assert StartsWith("priority:high", InheritablePrefixes[0]);
    FilterCons(Label("priority:high"), [Label("team:backend"), Label("component:auth")] + tail);
  }

  lemma FilterExampleTail()
    ensures FilterInheritableLabels([Label("size:large"), Label("bug"), Label("documentation")]) == ["size:large"]
  {
    NotInheritableByFirstChar("documentation");
    FilterCons(Label("documentation"), []);
    NotInheritableByFirstChar("bug");
    FilterCons(Label("bug"), [Label("documentation")]);
    assert StartsWith("size:large", InheritablePrefixes[3]);
    FilterCons(Label("size:large"), [Label("bug"), Label("documentation")]);
  }

  lemma FilterCons(l: Label, rest: seq<Label>)
    ensures FilterInheritableLabels([l] + rest)
            == if IsInheritable(l.name) then [l.name] + FilterInheritableLabels(rest) else FilterInheritableLabels(rest)
  {
    assert ([l] + rest)[1..] == rest;
  }

  /** A name whose first character starts none of the prefixes is not inheritable. */
  lemma NotInheritableByFirstChar(name: string)
    requires name != [] && name[0] !in "ptcs"
    ensures !IsInheritable(name)
  {
    forall i | 0 <= i < |InheritablePrefixes| ensures !StartsWith(name, InheritablePrefixes[i]) {
      assert InheritablePrefixes[i][0] in "ptcs";
    }
  }

  // ---------------------------------------------------------------------------
  // findProject and findField
  // ---------------------------------------------------------------------------

  /** A node of `organization.projectsV2.nodes`. */
  datatype OrgProject = OrgProject(id: string, title: string, number: int)

  /** The project query asks for `projectsV2(first: 20)`. */
  const ProjectsPageSize: nat := 20

  /** The projects the query returns: the organization's first twenty. */
  function Visible(projects: seq<OrgProject>): (r: seq<OrgProject>)
    ensures |r| <= ProjectsPageSize && |r| <= |projects| && r == projects[..|r|]
    ensures |projects| <= ProjectsPageSize ==> r == projects
  {
    if |projects| <= ProjectsPageSize then projects else projects[..ProjectsPageSize]
  }

  /** `findProject(github, org, name)` on the organization's projects in server order: the
      first returned project whose title is exactly `name`; failing that, the first whose
      lower-cased title contains the lower-cased name; failing that, `null`. */
  function FindProject(projects: seq<OrgProject>, name: string): (r: Option<OrgProject>)
    ensures r.Some? ==> r.value in Visible(projects)
    ensures (exists i :: 0 <= i < |Visible(projects)| && Visible(projects)[i].title == name) ==>
              r.Some? && r.value.title == name &&
              exists i :: 0 <= i < |Visible(projects)| && Visible(projects)[i] == r.value &&
                          forall j :: 0 <= j < i ==> Visible(projects)[j].title != name
    ensures (forall i :: 0 <= i < |Visible(projects)| ==> Visible(projects)[i].title != name) ==>
              (r.Some? <==> exists i :: 0 <= i < |Visible(projects)| &&
                                        Includes(ToLower(Visible(projects)[i].title), ToLower(name))) &&
              (r.Some? ==> exists i :: 0 <= i < |Visible(projects)| && Visible(projects)[i] == r.value &&
                                       Includes(ToLower(r.value.title), ToLower(name)) &&
                                       forall j :: 0 <= j < i ==>
                                         !Includes(ToLower(Visible(projects)[j].title), ToLower(name)))
  {
    var visible := Visible(projects);
    match Find(visible, (p: OrgProject) => p.title == name)
    case Some(p) => Some(p)
    case None => Find(visible, (p: OrgProject) => Includes(ToLower(p.title), ToLower(name)))
  }

  /** An exact title wins over an earlier partial match. */
  lemma FindProjectExampleExact()
    ensures FindProject([OrgProject("proj1", "Project A", 1), OrgProject("proj2", "[TEMPLATE] EngageMe", 2),
                         OrgProject("proj3", "Project C", 3)], "[TEMPLATE] EngageMe")
            == Some(OrgProject("proj2", "[TEMPLATE] EngageMe", 2))
  {
    var ps := [OrgProject("proj1", "Project A", 1), OrgProject("proj2", "[TEMPLATE] EngageMe", 2),
               OrgProject("proj3", "Project C", 3)];
    assert Visible(ps) == ps;
    assert ps[0].title != "[TEMPLATE] EngageMe";
    assert ps[1].title == "[TEMPLATE] EngageMe";
  }

  /** Of two projects neither titled `name`, the second is found when only its
      lower-cased title contains the lower-cased name. */
  lemma FindProjectSecondPartial(p0: OrgProject, p1: OrgProject, name: string)
    requires p0.title != name && p1.title != name
    requires !Includes(ToLower(p0.title), ToLower(name)) && Includes(ToLower(p1.title), ToLower(name))
    ensures FindProject([p0, p1], name) == Some(p1)
  {
    var ps := [p0, p1];
    assert Visible(ps) == ps;
    assert forall i :: 0 <= i < |ps| ==> ps[i].title != name;
    assert Includes(ToLower(Visible(ps)[1].title), ToLower(name));
    var r := FindProject(ps, name);
    assert r.Some? && r.value in ps && Includes(ToLower(r.value.title), ToLower(name));
  }

  /** The lower-cased titles of the partial-match example. */
  lemma PartialExampleTitles()
    ensures !Includes(ToLower("Project Alpha"), ToLower("engageme"))
    ensures Includes(ToLower("EngageMe Project"), ToLower("engageme"))
  {
    assert ToLower("engageme") == "engageme";
    assert ToLower("Project Alpha") == "project alpha";
    assert ToLower("EngageMe Project") == "engageme project";
    assert 'g' in "engageme" && 'g' !in "project alpha";
    MissingCharNotIncluded("project alpha", "engageme", 'g');
    assert OccursAt("engageme project", "engageme", 0);
  }

  /** A name in a different case inside a longer title is found. */
  lemma FindProjectExamplePartial()
    ensures FindProject([OrgProject("proj1", "Project Alpha", 1), OrgProject("proj2", "EngageMe Project", 2)], "engageme")
            == Some(OrgProject("proj2", "EngageMe Project", 2))
  {
    PartialExampleTitles();
    FindProjectSecondPartial(OrgProject("proj1", "Project Alpha", 1), OrgProject("proj2", "EngageMe Project", 2), "engageme");
  }

  /** `findField(fields, name)`: the first field with that name, or `null`. */
  function FindField(fields: seq<ProjectField>, name: string): (r: Option<ProjectField>)
    ensures r.Some? <==> exists i :: 0 <= i < |fields| && fields[i].name == name
    ensures r.Some? ==> exists i :: 0 <= i < |fields| && fields[i] == r.value && r.value.name == name
                                    && forall j :: 0 <= j < i ==> fields[j].name != name
  {
    Find(fields, (f: ProjectField) => f.name == name)
  }

  // ---------------------------------------------------------------------------
  // copyLabels
  // ---------------------------------------------------------------------------

  /** `copyLabels(github, owner, repo, number, labels)`: the writes it makes. A failure
      of the `addLabels` call is caught, so the outcome is the same whether it fails. */
  function CopyLabels(target: IssueRef, labels: seq<string>, addLabelsFails: bool): (r: Result<seq<Effect>>)
    ensures r.Success?
    ensures |r.value| <= 1
    ensures forall e :: e in r.value ==> e == AddLabels(target, labels)
    ensures r.value == [] <==> labels == []
  {
    if labels == [] then Success([])
    else Success([AddLabels(target, labels)])
  }

  /** Copying the inheritable labels of a source issue: one `addLabels` call carrying
      exactly the filtered names in order if one label qualifies, and no call otherwise. */
  lemma {:induction false} CopyInheritedLabels(target: IssueRef, labels: seq<Label>, fails: bool)
    ensures (exists i :: 0 <= i < |labels| && IsInheritable(labels[i].name)) ==>
              CopyLabels(target, FilterInheritableLabels(labels), fails)
              == Success([AddLabels(target, FilterInheritableLabels(labels))])
    ensures (forall i :: 0 <= i < |labels| ==> !IsInheritable(labels[i].name)) ==>
              CopyLabels(target, FilterInheritableLabels(labels), fails) == Success([])
  {
    var r := FilterInheritableLabels(labels);
    if exists i :: 0 <= i < |labels| && IsInheritable(labels[i].name) {
      var i :| 0 <= i < |labels| && IsInheritable(labels[i].name);
      assert Names(labels)[i] == labels[i].name;
      FilterCounts(labels, labels[i].name);
      assert multiset(r)[labels[i].name] > 0;
    } else {
      FilterNoneInheritable(labels);
    }
  }
}
