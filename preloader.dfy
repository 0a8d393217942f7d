/** The Preloader override: the tree of branches built from a preload specification,
    where a scope given to the preloader reaches only the first level of branches, never
    the nested associations below them. Loading records is not modelled, only the
    construction of the tree. */
module Preloader {
  import opened Wrappers
  import opened Values
  import opened Queries

  /** A preload branch: the association it loads (`None` for the root), its child
      branches, the inherited `associate_by_default` flag, its scope, and its
      preloaded records (set on the root only). */
  datatype Branch = Branch(
    association: Option<string>,
    children: seq<Branch>,
    associateByDefault: bool,
    scope: Option<Query>,
    preloadedRecords: Option<seq<Value>>)

  /** `build_children(children)` of a branch, given whether that branch is the root
      (has no parent), its scope and its `associate_by_default`. */
  function BuildChildren(isRoot: bool, scope: Option<Query>, abd: bool, children: seq<AssocSpec>): seq<Branch>
    decreases children
  {
    if |children| == 0 then []
    else BuildChildren(isRoot, scope, abd, children[..|children| - 1]) + BuildOne(isRoot, scope, abd, children[|children| - 1])
  }

  /** `Array(a).flat_map { |p, c| Branch.new(...) }` for one element: a name is one
      childless branch, a hash one branch per key. */
  function BuildOne(isRoot: bool, scope: Option<Query>, abd: bool, a: AssocSpec): seq<Branch>
    decreases a
  {
    match a
    case Name(n) => [Branch(Some(n), [], abd, if isRoot then scope else None, None)]
    case Nested(ps) => BuildPairs(isRoot, scope, abd, ps)
  }

  /** A new branch builds its own children with itself as their parent, so they are
      never children of the root. */
  function BuildPairs(isRoot: bool, scope: Option<Query>, abd: bool, ps: seq<NestedPair>): seq<Branch>
    decreases ps
  {
    if |ps| == 0 then []
    else
      var p := ps[|ps| - 1];
      var s := if isRoot then scope else None;
      BuildPairs(isRoot, scope, abd, ps[..|ps| - 1])
      + [Branch(Some(p.key), BuildChildren(false, s, abd, p.children), abd, s, None)]
  }

  /** The preloader: its arguments and the root of its branch tree. */
  class Preloader {
    const records: seq<Value>
    const associations: seq<AssocSpec>
    const scope: Option<Query>
    const availableRecords: seq<Value>
    const associateByDefault: bool
    var tree: Branch

    /** `initialize(records:, associations:, scope: nil, available_records: [], associate_by_default: true)`. */
    constructor (records: seq<Value>, associations: seq<AssocSpec>, scope: Option<Query>,
                 availableRecords: Option<seq<Value>>, associateByDefault: bool)
      ensures this.records == records && this.associations == associations && this.scope == scope
      ensures this.availableRecords == availableRecords.GetOr([])
      ensures this.associateByDefault == associateByDefault
      ensures tree == Branch(None, BuildChildren(true, scope, associateByDefault, associations),
                             associateByDefault, scope, Some(records))
    {
      this.records := records;
      this.associations := associations;
      this.scope := scope;
      this.availableRecords := availableRecords.GetOr([]);
      this.associateByDefault := associateByDefault;
      var root := Branch(None, BuildChildren(true, scope, associateByDefault, associations), associateByDefault, scope, None);
      tree := root.(preloadedRecords := Some(records));
    }

    /** `branches`: the root's children. */
    function Branches(): (bs: seq<Branch>)
      reads this
      ensures bs == tree.children
    {
      tree.children
    }
  }

  // ---------------------------------------------------------------------------
  // Properties of the tree

  /** No branch in the tree has a scope. */
  predicate ScopeFree(b: Branch) {
    b.scope.None? && forall i :: 0 <= i < |b.children| ==> ScopeFree(b.children[i])
  }

  /** Every branch in the tree has the given `associate_by_default`. */
  predicate AllAssociate(b: Branch, abd: bool) {
    b.associateByDefault == abd && forall i :: 0 <= i < |b.children| ==> AllAssociate(b.children[i], abd)
  }

  /** The association names an element of a preload list stands for, in order. */
  function LeadNames(cs: seq<AssocSpec>): seq<string>
    decreases cs
  {
    if |cs| == 0 then []
    else
      var a := cs[|cs| - 1];
      LeadNames(cs[..|cs| - 1])
      + (match a case Name(n) => [n] case Nested(ps) => seq(|ps|, i requires 0 <= i < |ps| => ps[i].key))
  }

  function Associations(bs: seq<Branch>): seq<Option<string>> {
    seq(|bs|, i requires 0 <= i < |bs| => bs[i].association)
  }

  /** Children built below the root carry no scope, all the way down. */
  lemma {:induction false} DeepScopeFree(scope: Option<Query>, abd: bool, cs: seq<AssocSpec>)
    ensures forall i :: 0 <= i < |BuildChildren(false, scope, abd, cs)| ==> ScopeFree(BuildChildren(false, scope, abd, cs)[i])
    decreases cs
  {
    if |cs| > 0 {
      DeepScopeFree(scope, abd, cs[..|cs| - 1]);
      OneScopeFree(scope, abd, cs[|cs| - 1]);
    }
  }

  lemma {:induction false} OneScopeFree(scope: Option<Query>, abd: bool, a: AssocSpec)
    ensures forall i :: 0 <= i < |BuildOne(false, scope, abd, a)| ==> ScopeFree(BuildOne(false, scope, abd, a)[i])
    decreases a
  {
    match a
    case Name(n) =>
    case Nested(ps) => PairsScopeFree(false, scope, abd, ps);
  }

  /** Whoever builds them, the branches made from hash entries have scope-free children. */
  lemma {:induction false} PairsScopeFree(isRoot: bool, scope: Option<Query>, abd: bool, ps: seq<NestedPair>)
    ensures forall i :: 0 <= i < |BuildPairs(isRoot, scope, abd, ps)| ==>
              var b := BuildPairs(isRoot, scope, abd, ps)[i];
              (!isRoot ==> ScopeFree(b))
              && forall j :: 0 <= j < |b.children| ==> ScopeFree(b.children[j])
    decreases ps
  {
    if |ps| > 0 {
      var p := ps[|ps| - 1];
      var s := if isRoot then scope else None;
      PairsScopeFree(isRoot, scope, abd, ps[..|ps| - 1]);
      DeepScopeFree(s, abd, p.children);
    }
  }

  /** A branch right below the root: it has the root's scope and its subtrees have none. */
  predicate FirstLevel(b: Branch, scope: Option<Query>) {
    b.scope == scope && forall j :: 0 <= j < |b.children| ==> ScopeFree(b.children[j])
  }

  /** The root's scope reaches every first-level branch and no branch below them. */
  lemma {:induction false} RootScopeFirstLevelOnly(scope: Option<Query>, abd: bool, cs: seq<AssocSpec>)
    ensures forall i :: 0 <= i < |BuildChildren(true, scope, abd, cs)| ==> FirstLevel(BuildChildren(true, scope, abd, cs)[i], scope)
    decreases cs
  {
    if |cs| > 0 {
      RootScopeFirstLevelOnly(scope, abd, cs[..|cs| - 1]);
      var bs0 := BuildChildren(true, scope, abd, cs[..|cs| - 1]);
      var one := BuildOne(true, scope, abd, cs[|cs| - 1]);
      var bs := BuildChildren(true, scope, abd, cs);
      assert bs == bs0 + one;
      match cs[|cs| - 1] {
        case Name(n) =>
          assert one == [Branch(Some(n), [], abd, scope, None)];
        case Nested(ps) =>
          assert one == BuildPairs(true, scope, abd, ps);
          PairsScopeFree(true, scope, abd, ps);
          PairsScope(scope, abd, ps);
      }
      forall i | 0 <= i < |bs|
        ensures FirstLevel(bs[i], scope)
      {
        if i < |bs0| {
          assert bs[i] == bs0[i];
        } else {
          assert bs[i] == one[i - |bs0|];
        }
      }
    }
  }

  lemma {:induction false} PairsScope(scope: Option<Query>, abd: bool, ps: seq<NestedPair>)
    ensures forall i :: 0 <= i < |BuildPairs(true, scope, abd, ps)| ==> BuildPairs(true, scope, abd, ps)[i].scope == scope
  {
    if |ps| > 0 {
      PairsScope(scope, abd, ps[..|ps| - 1]);
    }
  }

  /** Every branch of the tree inherits `associate_by_default`. */
  lemma {:induction false} AssociateInherited(isRoot: bool, scope: Option<Query>, abd: bool, cs: seq<AssocSpec>)
    ensures forall i :: 0 <= i < |BuildChildren(isRoot, scope, abd, cs)| ==> AllAssociate(BuildChildren(isRoot, scope, abd, cs)[i], abd)
    decreases cs
  {
    if |cs| > 0 {
      AssociateInherited(isRoot, scope, abd, cs[..|cs| - 1]);
      var bs0 := BuildChildren(isRoot, scope, abd, cs[..|cs| - 1]);
      var one := BuildOne(isRoot, scope, abd, cs[|cs| - 1]);
      assert BuildChildren(isRoot, scope, abd, cs) == bs0 + one;
      match cs[|cs| - 1]
      case Name(n) =>
        assert AllAssociate(one[0], abd);
      case Nested(ps) =>
        assert one == BuildPairs(isRoot, scope, abd, ps);
        PairsAssociate(isRoot, scope, abd, ps);
    }
  }

  lemma {:induction false} PairsAssociate(isRoot: bool, scope: Option<Query>, abd: bool, ps: seq<NestedPair>)
    ensures forall i :: 0 <= i < |BuildPairs(isRoot, scope, abd, ps)| ==> AllAssociate(BuildPairs(isRoot, scope, abd, ps)[i], abd)
    decreases ps
  {
    if |ps| > 0 {
      var p := ps[|ps| - 1];
      PairsAssociate(isRoot, scope, abd, ps[..|ps| - 1]);
      AssociateInherited(false, if isRoot then scope else None, abd, p.children);
    }
  }

  /** The branches name the associations of the list in order: a name gives one branch,
      a hash one branch per key. */
  lemma {:induction false} BranchNames(isRoot: bool, scope: Option<Query>, abd: bool, cs: seq<AssocSpec>)
    ensures Associations(BuildChildren(isRoot, scope, abd, cs))
         == seq(|LeadNames(cs)|, i requires 0 <= i < |LeadNames(cs)| => Some(LeadNames(cs)[i]))
  {
    if |cs| > 0 {
      var init := cs[..|cs| - 1];
      BranchNames(isRoot, scope, abd, init);
      var a := cs[|cs| - 1];
      var one := BuildOne(isRoot, scope, abd, a);
      var names := match a case Name(n) => [n] case Nested(ps) => seq(|ps|, i requires 0 <= i < |ps| => ps[i].key);
      assert Associations(one) == seq(|names|, i requires 0 <= i < |names| => Some(names[i])) by {
        if a.Nested? {
          PairNames(isRoot, scope, abd, a.pairs);
        }
      }
      var bs0 := BuildChildren(isRoot, scope, abd, init);
      assert Associations(bs0 + one) == Associations(bs0) + Associations(one);
    }
  }

  lemma {:induction false} PairNames(isRoot: bool, scope: Option<Query>, abd: bool, ps: seq<NestedPair>)
    ensures |BuildPairs(isRoot, scope, abd, ps)| == |ps|
    ensures forall i :: 0 <= i < |ps| ==> BuildPairs(isRoot, scope, abd, ps)[i].association == Some(ps[i].key)
  {
    if |ps| > 0 {
      PairNames(isRoot, scope, abd, ps[..|ps| - 1]);
    }
  }
}
