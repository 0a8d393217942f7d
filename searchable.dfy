/** Api::Searchable: the `search` request parameter turned into an `ILIKE` test on every
    registered search attribute, joined by `or`, then passed through the registered
    search methods and merged into the running query. */
module Searchable {
  import opened Wrappers
  import opened Values
  import opened Queries

  /** A registered search attribute: a symbol names a column of the resource's table,
      a string is an SQL expression used verbatim; anything else interpolates as "". */
  datatype SearchAttr = SymAttr(name: string) | StrAttr(sql: string) | OtherAttr

  /** The class instance variables `@attrs` and `@search_methods`. */
  class Registry {
    var attrs: seq<SearchAttr>
    var searchMethods: seq<Query -> Query>

    constructor ()
      ensures attrs == [] && searchMethods == []
    {
      attrs, searchMethods := [], [];
    }

    /** `self.search_attributes(*attrs)`. */
    method SearchAttributes(args: seq<SearchAttr>) returns (r: seq<SearchAttr>)
      modifies this`attrs
      ensures attrs == old(attrs) + args
      ensures r == attrs
    {
      attrs := attrs + args;
      r := attrs;
    }

    /** `self.search_methods(*methods)`: a splat is never nil, so this always appends. */
    method SearchMethods(args: seq<Query -> Query>) returns (r: seq<Query -> Query>)
      modifies this`searchMethods
      ensures searchMethods == old(searchMethods) + args
      ensures r == searchMethods
    {
      searchMethods := searchMethods + args;
      r := searchMethods;
    }
  }

  /** `resolve_search_attribute`: the SQL text of the searched column. */
  function ResolveSearchAttribute(table: string, a: SearchAttr): (col: Option<string>)
    ensures a.SymAttr? ==> col == Some(table + "." + a.name)
    ensures a.StrAttr? ==> col == Some(a.sql)
    ensures a.OtherAttr? <==> col.None?
  {
    match a
    case SymAttr(n) => Some(table + "." + n)
    case StrAttr(sql) => Some(sql)
    case OtherAttr => None
  }

  /** `resolve_search_query`: one `ILIKE` test (a nil column interpolates as ""). */
  function ResolveSearchQuery(table: string, a: SearchAttr, search: Value): Query {
    Query(table, [Where(ILike(ResolveSearchAttribute(table, a).GetOr(""), search))])
  }

  /** The `or` chain the loop of `apply_searchable` builds, nested to the left. */
  function OrChain(table: string, attrs: seq<SearchAttr>, search: Value): Query
    requires |attrs| > 0
  {
    var q := ResolveSearchQuery(table, attrs[|attrs| - 1], search);
    if |attrs| == 1 then q else Or(OrChain(table, attrs[..|attrs| - 1], search), q)
  }

  /** The operands of a left-nested `or` chain. */
  function Disjuncts(q: Query): seq<Query> {
    if |q.clauses| == 1 && q.clauses[0].Either? then Disjuncts(q.clauses[0].left) + [q.clauses[0].right]
    else [q]
  }

  /** What `apply_searchable` answers. */
  function SearchableF(attrs: seq<SearchAttr>, table: string, search: Value, query: Query): Query {
    if Blank(search) || |attrs| == 0 then query
    else if SameSql(query, All(table)) then Merge(query, OrChain(table, attrs, search))
    else Or(query, OrChain(table, attrs, search))
  }

  /** `apply_searchable(query)`. */
  method ApplySearchable(attrs: seq<SearchAttr>, table: string, search: Value, query: Query) returns (q: Query)
    ensures q == SearchableF(attrs, table, search, query)
  {
    if Blank(search) {
      return query;
    }
    if |attrs| == 0 {
      return query;
    }
    var orQuery: Option<Query> := None;
    var i := 0;
    while i < |attrs|
      invariant 0 <= i <= |attrs|
      invariant i == 0 <==> orQuery.None?
      invariant i > 0 ==> orQuery == Some(OrChain(table, attrs[..i], search))
    {
      var attributeQuery := ResolveSearchQuery(table, attrs[i], search);
      assert attrs[..i + 1][..i] == attrs[..i];
      if orQuery.None? {
        orQuery := Some(attributeQuery);
      } else {
        orQuery := Some(Or(orQuery.value, attributeQuery));
      }
      i := i + 1;
    }
    assert attrs[..|attrs|] == attrs;
    if SameSql(query, All(table)) {
      q := Merge(query, orQuery.value);
    } else {
      q := Or(query, orQuery.value);
    }
  }

  /** What `apply_search` answers. */
  function SearchF(attrs: seq<SearchAttr>, methods: seq<Query -> Query>, table: string, search: Value, query: Query): Query {
    Merge(query, Thread(methods, SearchableF(attrs, table, search, All(table))))
  }

  /** `apply_search(query)`: `apply_searchable` then every search method, starting from
      `item_class.all`; the outcome is merged into `query`. */
  method ApplySearch(reg: Registry, table: string, search: Value, query: Query) returns (q: Query)
    ensures q == SearchF(reg.attrs, reg.searchMethods, table, search, query)
  {
    var searchQuery := ApplySearchable(reg.attrs, table, search, All(table));
    var methods := reg.searchMethods;
    var i := 0;
    while i < |methods|
      invariant 0 <= i <= |methods|
      invariant searchQuery == Thread(methods[..i], SearchableF(reg.attrs, table, search, All(table)))
    {
      assert methods[..i + 1][..i] == methods[..i];
      searchQuery := methods[i](searchQuery);
      i := i + 1;
    }
    assert methods[..|methods|] == methods;
    q := Merge(query, searchQuery);
  }

  // ---------------------------------------------------------------------------
  // Properties

  /** The `or` chain tests every search attribute, in registration order, each against
      the whole search term. */
  lemma {:induction false} OrChainDisjuncts(table: string, attrs: seq<SearchAttr>, search: Value)
    requires |attrs| > 0
    ensures Disjuncts(OrChain(table, attrs, search))
         == seq(|attrs|, i requires 0 <= i < |attrs| => ResolveSearchQuery(table, attrs[i], search))
    ensures |OrChain(table, attrs, search).clauses| == 1
  {
    if |attrs| > 1 {
      OrChainDisjuncts(table, attrs[..|attrs| - 1], search);
    }
  }

  /** Without a present search term or without search attributes, `apply_searchable`
      leaves the query alone; otherwise it adds exactly one clause to `Model.all`. */
  lemma SearchableOnAll(attrs: seq<SearchAttr>, table: string, search: Value)
    ensures Blank(search) || |attrs| == 0 ==> SearchableF(attrs, table, search, All(table)) == All(table)
    ensures Present(search) && |attrs| > 0 ==>
              SearchableF(attrs, table, search, All(table)) == OrChain(table, attrs, search)
  {
  }

  /** A search with a present term, search attributes and no search methods adds one
      clause to the query, whose `or` operands are the per-attribute `ILIKE` tests. */
  lemma SearchAddsOneClause(attrs: seq<SearchAttr>, table: string, search: Value, query: Query)
    requires Present(search) && |attrs| > 0
    ensures var q := SearchF(attrs, [], table, search, query);
            |q.clauses| == |query.clauses| + 1
            && q.clauses[..|query.clauses|] == query.clauses
            && Disjuncts(Query(table, [q.clauses[|query.clauses|]]))
               == seq(|attrs|, i requires 0 <= i < |attrs| => ResolveSearchQuery(table, attrs[i], search))
  {
    OrChainDisjuncts(table, attrs, search);
    var o := OrChain(table, attrs, search);
    assert Query(table, [o.clauses[0]]) == o by {
      assert o.table == table by { OrChainTable(table, attrs, search); }
    }
  }

  lemma {:induction false} OrChainTable(table: string, attrs: seq<SearchAttr>, search: Value)
    requires |attrs| > 0
    ensures OrChain(table, attrs, search).table == table
  {
    if |attrs| > 1 {
      OrChainTable(table, attrs[..|attrs| - 1], search);
    }
  }

  /** A blank search term with no search methods leaves the query as it was. */
  lemma BlankSearchIsIdentity(attrs: seq<SearchAttr>, table: string, search: Value, query: Query)
    requires Blank(search) || |attrs| == 0
    ensures SearchF(attrs, [], table, search, query) == query
  {
  }
}
