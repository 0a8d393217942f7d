/** Api::Queryable: the class-level `joins`, `left_joins`, `preloads` and `per_page`
    registrations, and `build_query`, which attaches the registered relationships to a
    query, leaving out has-many associations on the `index` action. */
module Queryable {
  import opened Wrappers
  import opened Values
  import opened Queries

  const DefaultPerPage: int := 10

  /** The class instance variables `@joins`, `@left_joins`, `@preloads`, `@per_page`
      (the lazily created empty lists are created up front). */
  class Registry {
    var joins: seq<AssocSpec>
    var leftJoins: seq<AssocSpec>
    var preloads: seq<AssocSpec>
    var perPage: Option<int>

    constructor ()
      ensures joins == [] && leftJoins == [] && preloads == [] && perPage == None
    {
      joins, leftJoins, preloads, perPage := [], [], [], None;
    }

    /** `self.joins(*joins)`: appends the arguments and returns the whole list. */
    method Joins(args: seq<AssocSpec>) returns (r: seq<AssocSpec>)
      modifies this`joins
      ensures joins == old(joins) + args
      ensures r == joins
    {
      if |args| > 0 {
        joins := joins + args;
      }
      r := joins;
    }

    /** `self.left_joins(*left_joins)`. */
    method LeftJoins(args: seq<AssocSpec>) returns (r: seq<AssocSpec>)
      modifies this`leftJoins
      ensures leftJoins == old(leftJoins) + args
      ensures r == leftJoins
    {
      if |args| > 0 {
        leftJoins := leftJoins + args;
      }
      r := leftJoins;
    }

    /** `self.preloads(*preloads)`. */
    method Preloads(args: seq<AssocSpec>) returns (r: seq<AssocSpec>)
      modifies this`preloads
      ensures preloads == old(preloads) + args
      ensures r == preloads
    {
      if |args| > 0 {
        preloads := preloads + args;
      }
      r := preloads;
    }

    /** `@per_page || DEFAULT_PER_PAGE`. */
    function PerPageValue(): int
      reads this
    {
      perPage.GetOr(DefaultPerPage)
    }

    /** `self.per_page(per_page = nil)`: an argument (every Integer is `present?`, 0
        included) replaces the stored value; the answer falls back to 10. */
    method PerPage(arg: Option<int>) returns (r: int)
      modifies this`perPage
      ensures perPage == if arg.Some? then arg else old(perPage)
      ensures r == (if arg.Some? then arg.value else if old(perPage).Some? then old(perPage).value else DefaultPerPage)
    {
      if arg.Some? {
        perPage := arg;
      }
      r := PerPageValue();
    }
  }

  // ---------------------------------------------------------------------------
  // skip_relationship?

  /** The association a relationship names: itself, or a hash's first key. */
  function LeadName(rel: AssocSpec): Option<string> {
    match rel
    case Name(n) => Some(n)
    case Nested(ps) => if |ps| == 0 then None else Some(ps[0].key)
  }

  predicate SkipRelationship(res: Resource, action: string, rel: AssocSpec) {
    action == "index" && LeadName(rel).Some? && IsKind(res, LeadName(rel).value, HasMany)
  }

  // ---------------------------------------------------------------------------
  // apply_preloads / apply_joins / apply_left_joins

  datatype Attachment = AttachPreload | AttachJoin | AttachLeftJoin

  function AttachClause(k: Attachment, rel: AssocSpec): Clause {
    match k
    case AttachPreload => Preload(rel)
    case AttachJoin => Join(rel)
    case AttachLeftJoin => LeftJoin(rel)
  }

  function RelOf(c: Clause): AssocSpec
    requires c.Preload? || c.Join? || c.LeftJoin?
  {
    c.rel
  }

  /** The clauses attaching every registered relationship that is not skipped, in
      registration order. */
  function Attached(k: Attachment, rels: seq<AssocSpec>, res: Resource, action: string): seq<Clause> {
    if |rels| == 0 then []
    else
      var last := rels[|rels| - 1];
      Attached(k, rels[..|rels| - 1], res, action)
      + (if SkipRelationship(res, action, last) then [] else [AttachClause(k, last)])
  }

  /** One `apply_*` loop: each relationship that is not skipped is attached in turn. */
  method ApplyRelationships(k: Attachment, rels: seq<AssocSpec>, query: Query, res: Resource, action: string)
    returns (q: Query)
    ensures q == Query(query.table, query.clauses + Attached(k, rels, res, action))
  {
    q := query;
    if |rels| == 0 {
      return;
    }
    var i := 0;
    while i < |rels|
      invariant 0 <= i <= |rels|
      invariant q == Query(query.table, query.clauses + Attached(k, rels[..i], res, action))
    {
      assert rels[..i + 1][..i] == rels[..i];
      if !SkipRelationship(res, action, rels[i]) {
        q := Refine(q, AttachClause(k, rels[i]));
      }
      i := i + 1;
    }
    assert rels[..|rels|] == rels;
  }

  /** `build_query`: preloads, then joins, then left joins. */
  method BuildQuery(reg: Registry, query: Query, res: Resource, action: string) returns (q: Query)
    ensures q == Query(query.table, query.clauses
                                    + Attached(AttachPreload, reg.preloads, res, action)
                                    + Attached(AttachJoin, reg.joins, res, action)
                                    + Attached(AttachLeftJoin, reg.leftJoins, res, action))
  {
    q := ApplyRelationships(AttachPreload, reg.preloads, query, res, action);
    q := ApplyRelationships(AttachJoin, reg.joins, q, res, action);
    q := ApplyRelationships(AttachLeftJoin, reg.leftJoins, q, res, action);
  }

  // ---------------------------------------------------------------------------
  // What gets attached

  /** A clause is attached exactly when it attaches a registered relationship that is
      not skipped; on `index` that rules out every has-many association. */
  lemma {:induction false} AttachedMembers(k: Attachment, rels: seq<AssocSpec>, res: Resource, action: string, c: Clause)
    ensures c in Attached(k, rels, res, action)
        <==> exists r :: r in rels && !SkipRelationship(res, action, r) && c == AttachClause(k, r)
  {
    if |rels| > 0 {
      var init, last := rels[..|rels| - 1], rels[|rels| - 1];
      AttachedMembers(k, init, res, action, c);
      assert rels == init + [last];
      if c in Attached(k, rels, res, action) && c !in Attached(k, init, res, action) {
        assert last in rels;
      }
      if exists r :: r in rels && !SkipRelationship(res, action, r) && c == AttachClause(k, r) {
        var r :| r in rels && !SkipRelationship(res, action, r) && c == AttachClause(k, r);
        if r != last {
          assert r in init;
        }
      }
    }
  }

  /** On `index`, no attached relationship leads with a has-many association. */
  lemma IndexAttachesNoHasMany(k: Attachment, rels: seq<AssocSpec>, res: Resource, c: Clause)
    requires c in Attached(k, rels, res, "index")
    ensures c.Preload? || c.Join? || c.LeftJoin?
    ensures RelOf(c) in rels
    ensures LeadName(RelOf(c)).Some? ==> !IsKind(res, LeadName(RelOf(c)).value, HasMany)
  {
    AttachedMembers(k, rels, res, "index", c);
  }

  /** Outside `index` nothing is skipped: every relationship is attached, in order. */
  lemma {:induction false} AttachedOutsideIndex(k: Attachment, rels: seq<AssocSpec>, res: Resource, action: string)
    requires action != "index"
    ensures Attached(k, rels, res, action) == seq(|rels|, i requires 0 <= i < |rels| => AttachClause(k, rels[i]))
  {
    if |rels| > 0 {
      AttachedOutsideIndex(k, rels[..|rels| - 1], res, action);
    }
  }
}
