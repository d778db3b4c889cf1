/** Loop protection for hierarchy walks that cross repositories: an issue is identified by
    the composite key `owner/repo#number`, walks remember the keys they have processed in a
    set, and log lines name an issue by a label that is short inside the current repository. */
module CycleDetection {
  import opened JsLib
  import opened Tracker
  import opened CrossRepoHelper

  // ---------------------------------------------------------------------------
  // Composite keys
  // ---------------------------------------------------------------------------

  /** The template string `${owner}/${repo}#${number}`. */
  function CompositeKey(ref: IssueRef): string {
    ref.owner + "/" + ref.repo + "#" + NatToString(ref.number)
  }

  /** The references whose key can be split back into its parts: the owner has no `/`
      and the repository no `#`. Owner and repository names on the tracker are of this kind. */
  predicate KeySafe(ref: IssueRef) {
    '/' !in ref.owner && '#' !in ref.repo
  }

  lemma KeyShape(ref: IssueRef)
    ensures CompositeKey(ref) == ref.owner + ['/'] + (ref.repo + ['#'] + NatToString(ref.number))
  {
    var o, r, d := ref.owner, ref.repo, NatToString(ref.number);
    assert o + "/" + r + "#" + d == (o + "/" + r) + "#" + d;
    assert o + "/" + r == o + ['/'] + r;
    assert (o + ['/'] + r) + ['#'] + d == o + ['/'] + (r + ['#'] + d);
  }

  /** Distinct key-safe issues have distinct keys: equal keys mean the same owner, the
      same repository and the same number. */
  lemma {:induction false} CompositeKeyInjective(a: IssueRef, b: IssueRef)
    requires KeySafe(a) && KeySafe(b)
    ensures CompositeKey(a) == CompositeKey(b) <==> a == b
    ensures CompositeKey(a) == CompositeKey(b) <==> IsSameRepo(a, b.owner, b.repo) && a.number == b.number
  {
    if CompositeKey(a) == CompositeKey(b) {
      KeyShape(a);
      KeyShape(b);
      JoinInjective(a.owner, a.repo + ['#'] + NatToString(a.number),
                    b.owner, b.repo + ['#'] + NatToString(b.number), '/');
      JoinInjective(a.repo, NatToString(a.number), b.repo, NatToString(b.number), '#');
      NatToStringInjective(a.number, b.number);
    }
  }

  /** Without the naming restriction keys do collide: `a/b` + `c` and `a` + `b/c`. */
  lemma CompositeKeyCollision()
    ensures CompositeKey(IssueRef("a/b", "c", 1)) == CompositeKey(IssueRef("a", "b/c", 1))
  {
  }

  /** A set of keys of key-safe issues has exactly one element per issue. */
  lemma {:induction false} KeySetSize(refs: set<IssueRef>)
    requires forall r :: r in refs ==> KeySafe(r)
    ensures |set r | r in refs :: CompositeKey(r)| == |refs|
    decreases |refs|
  {
    if refs != {} {
      var x :| x in refs;
      var rest := refs - {x};
      KeySetSize(rest);
      var keys := set r | r in refs :: CompositeKey(r);
      var restKeys := set r | r in rest :: CompositeKey(r);
      assert keys == restKeys + {CompositeKey(x)};
      forall r | r in rest ensures CompositeKey(r) != CompositeKey(x) {
        CompositeKeyInjective(r, x);
      }
      assert CompositeKey(x) !in restKeys;
    }
  }

  /** `my-org/my-repo#123` */
  lemma CompositeKeyExample()
    ensures CompositeKey(IssueRef("my-org", "my-repo", 123)) == "my-org/my-repo#123"
  {
    assert NatToString(123) == "123" by {
      assert NatToString(1) == "1";
      assert NatToString(12) == "12";
    }
  }

  // ---------------------------------------------------------------------------
  // Display label
  // ---------------------------------------------------------------------------

  /** `repo !== contextRepo ? `${repo}#${number}` : `#${number}``: only the repository is
      compared, so an issue of another owner with the same repository name gets the short form. */
  function DisplayLabel(ref: IssueRef, contextRepo: string): string {
    if ref.repo != contextRepo then ref.repo + "#" + NatToString(ref.number)
    else "#" + NatToString(ref.number)
  }

  /** The label is the tail of the composite key: the owner and `/` are always dropped, and
      the repository too inside the context repository. */
  lemma {:induction false} DisplayLabelEndsKey(ref: IssueRef, contextRepo: string)
    ensures exists p :: CompositeKey(ref) == p + DisplayLabel(ref, contextRepo)
    ensures ref.repo == contextRepo ==> CompositeKey(ref) == ref.owner + "/" + ref.repo + DisplayLabel(ref, contextRepo)
    ensures ref.repo != contextRepo ==> CompositeKey(ref) == ref.owner + "/" + DisplayLabel(ref, contextRepo)
  {
    var o, r, d := ref.owner, ref.repo, NatToString(ref.number);
    if r == contextRepo {
      assert o + "/" + r + "#" + d == (o + "/" + r) + ("#" + d);
      assert CompositeKey(ref) == (o + "/" + r) + DisplayLabel(ref, contextRepo);
    } else {
      assert o + "/" + r + "#" + d == (o + "/") + (r + "#" + d);
      assert CompositeKey(ref) == (o + "/") + DisplayLabel(ref, contextRepo);
    }
  }

  /** `main-repo#5` in `main-repo` shows as `#5`; `other-repo#5` keeps its repository. */
  lemma DisplayLabelExample()
    ensures DisplayLabel(IssueRef("test-org", "main-repo", 5), "main-repo") == "#5"
    ensures DisplayLabel(IssueRef("test-org", "other-repo", 5), "main-repo") == "other-repo#5"
  {
    assert NatToString(5) == "5";
  }

  // ---------------------------------------------------------------------------
  // The visited set
  // ---------------------------------------------------------------------------

  /** A JavaScript `Set` as the walks use it: `add`, `has` and `size`. */
  class VisitedSet<K(==)> {
    var elems: set<K>

    constructor()
      ensures elems == {}
    {
      elems := {};
    }

    /** `set.add(k)`: `k` is present afterwards and nothing present is removed. */
    method Add(k: K)
      modifies this
      ensures elems == old(elems) + {k}
    {
      elems := elems + {k};
    }

    /** `set.has(k)` */
    predicate Has(k: K)
      reads this
    {
      k in elems
    }

    /** `set.size` */
    function Size(): nat
      reads this
    {
      |elems|
    }
  }

  /** Adding the keys of a list of key-safe issues one after another: the set then holds one
      key per distinct issue and reports every added issue, and no other, as present. */
  method TrackKeys(refs: seq<IssueRef>) returns (size: nat, seen: set<string>)
    requires forall i :: 0 <= i < |refs| ==> KeySafe(refs[i])
    ensures size == |set i | 0 <= i < |refs| :: refs[i]|
    ensures forall r :: KeySafe(r) ==> (CompositeKey(r) in seen <==> r in refs)
  {
    var visited := new VisitedSet<string>();
    var k := 0;
    while k < |refs|
      invariant 0 <= k <= |refs|
      invariant visited.elems == set r | r in refs[..k] :: CompositeKey(r)
    {
      visited.Add(CompositeKey(refs[k]));
      assert refs[..k + 1] == refs[..k] + [refs[k]];
      k := k + 1;
    }
    assert refs[..k] == refs;
    var distinct := set i | 0 <= i < |refs| :: refs[i];
    assert distinct == set r | r in refs;
    KeySetSize(distinct);
    assert visited.elems == set r | r in distinct :: CompositeKey(r);
    forall r | KeySafe(r) ensures CompositeKey(r) in visited.elems <==> r in refs {
      if CompositeKey(r) in visited.elems {
        var q :| q in refs && CompositeKey(q) == CompositeKey(r);
        CompositeKeyInjective(q, r);
      }
    }
    size := visited.Size();
    seen := visited.elems;
  }

  /** `org/other#5` is not reported after only `org/main#5` was added; after it is added
      too, the set has both and size 2. */
  method SameNumberOtherRepo() returns (before: bool, mainAfter: bool, otherAfter: bool, size: nat)
    ensures !before && mainAfter && otherAfter && size == 2
  {
    var visited := new VisitedSet<string>();
    var mainKey := CompositeKey(IssueRef("org", "main", 5));
    var otherKey := CompositeKey(IssueRef("org", "other", 5));
    CompositeKeyInjective(IssueRef("org", "main", 5), IssueRef("org", "other", 5));
    visited.Add(mainKey);
    before := visited.Has(otherKey);
    visited.Add(otherKey);
    mainAfter := visited.Has(mainKey);
    otherAfter := visited.Has(otherKey);
    size := visited.Size();
  }

  /** The issues of an encounter sequence in the order of their first encounter, each once. */
  function FirstEncounters(s: seq<IssueRef>): (r: seq<IssueRef>)
    ensures forall x :: x in r <==> x in s
    ensures forall i, j :: 0 <= i < j < |r| ==> r[i] != r[j]
  {
    if s == [] then []
    else
      var front := FirstEncounters(s[..|s| - 1]);
      assert forall x :: x in s <==> x in s[..|s| - 1] || x == s[|s| - 1] by {
        assert s == s[..|s| - 1] + [s[|s| - 1]];
      }
      if s[|s| - 1] in front then front else front + [s[|s| - 1]]
  }

  /** The first encounters keep the encounter order. */
  lemma {:induction false} FirstEncountersInOrder(s: seq<IssueRef>)
    ensures IsSubsequence(FirstEncounters(s), s)
  {
    if s != [] {
      var init, last := s[..|s| - 1], s[|s| - 1];
      FirstEncountersInOrder(init);
      assert s == init + [last];
      if last in FirstEncounters(init) {
        SubsequenceAppendRight(FirstEncounters(init), init, last);
      } else {
        SubsequenceAppendBoth(FirstEncounters(init), init, last);
      }
    }
  }

  /** A walk that consults the set before each issue, in encounter order: an issue met
      again (as on a cycle A, B, C, A) is skipped, so every issue is processed once, in
      the order of its first encounter. */
  method VisitGuarded(encounters: seq<IssueRef>) returns (processed: seq<IssueRef>)
    requires forall i :: 0 <= i < |encounters| ==> KeySafe(encounters[i])
    ensures processed == FirstEncounters(encounters)
  {
    var visited := new VisitedSet<string>();
    processed := [];
    var k := 0;
    while k < |encounters|
      invariant 0 <= k <= |encounters|
      invariant processed == FirstEncounters(encounters[..k])
      invariant visited.elems == set r | r in processed :: CompositeKey(r)
    {
      var ref := encounters[k];
      var key := CompositeKey(ref);
      assert encounters[..k + 1][..k] == encounters[..k];
      if visited.Has(key) {
        var q :| q in processed && CompositeKey(q) == key;
        CompositeKeyInjective(q, ref);
      } else {
        visited.Add(key);
        processed := processed + [ref];
      }
      k := k + 1;
    }
    assert encounters[..k] == encounters;
  }

  lemma {:induction false} SubsequenceAppendRight<T>(xs: seq<T>, ys: seq<T>, y: T)
    requires IsSubsequence(xs, ys)
    ensures IsSubsequence(xs, ys + [y])
    decreases |ys|
  {
    if xs != [] && ys != [] {
      assert (ys + [y])[1..] == ys[1..] + [y];
      if xs[0] == ys[0] {
        SubsequenceAppendRight(xs[1..], ys[1..], y);
      } else {
        SubsequenceAppendRight(xs, ys[1..], y);
      }
    }
  }

  lemma {:induction false} SubsequenceAppendBoth<T>(xs: seq<T>, ys: seq<T>, y: T)
    requires IsSubsequence(xs, ys)
    ensures IsSubsequence(xs + [y], ys + [y])
    decreases |ys|
  {
    if xs == [] {
      assert xs + [y] == [y];
      SubsequenceSingleton(ys, y);
    } else {
      assert (xs + [y])[1..] == xs[1..] + [y];
      assert (ys + [y])[1..] == ys[1..] + [y];
      if xs[0] == ys[0] {
        SubsequenceAppendBoth(xs[1..], ys[1..], y);
      } else {
        SubsequenceAppendBoth(xs, ys[1..], y);
      }
    }
  }

  lemma {:induction false} SubsequenceSingleton<T>(ys: seq<T>, y: T)
    ensures IsSubsequence([y], ys + [y])
    decreases |ys|
  {
    var t := ys + [y];
    if ys == [] {
      assert t == [y] && [y][1..] == [];
    } else {
      assert t[0] == ys[0] && t[1..] == ys[1..] + [y];
      if ys[0] != y {
        SubsequenceSingleton(ys[1..], y);
      } else {
        assert [y][1..] == [];
      }
    }
  }

  /** The cycle A -> B -> C -> A: the second encounter of A is skipped. */
  method CycleExample() returns (processed: seq<IssueRef>)
    ensures processed == [IssueRef("org", "repo", 1), IssueRef("org", "repo", 2), IssueRef("org", "repo", 3)]
  {
    var a, b, c := IssueRef("org", "repo", 1), IssueRef("org", "repo", 2), IssueRef("org", "repo", 3);
    processed := VisitGuarded([a, b, c, a]);
    FirstEncountersCycle(a, b, c);
  }

  lemma FirstEncountersCycle(a: IssueRef, b: IssueRef, c: IssueRef)
    requires a != b && b != c && a != c
    ensures FirstEncounters([a, b, c, a]) == [a, b, c]
  {
    FirstEncountersThree(a, b, c);
    FirstEncountersSnoc([a, b, c], a);
    assert [a, b, c] + [a] == [a, b, c, a];
  }

  lemma FirstEncountersThree(a: IssueRef, b: IssueRef, c: IssueRef)
    requires a != b && b != c && a != c
    ensures FirstEncounters([a, b, c]) == [a, b, c]
  {
    FirstEncountersTwo(a, b);
    FirstEncountersSnoc([a, b], c);
    assert [a, b] + [c] == [a, b, c];
  }

  lemma FirstEncountersTwo(a: IssueRef, b: IssueRef)
    requires a != b
    ensures FirstEncounters([a, b]) == [a, b]
  {
    FirstEncountersSnoc([], a);
    assert [] + [a] == [a];
    FirstEncountersSnoc([a], b);
    assert [a] + [b] == [a, b];
  }

  lemma FirstEncountersSnoc(s: seq<IssueRef>, x: IssueRef)
    ensures FirstEncounters(s + [x])
            == if x in FirstEncounters(s) then FirstEncounters(s) else FirstEncounters(s) + [x]
  {
    assert (s + [x])[..|s|] == s;
  }
}
