/** Api::Sortable: registered sort methods, then the default sort from the `sort_by`
    and `sort_direction` parameters, then always `order(:id)` last. */
module Sortable {
  import opened Wrappers
  import opened Values
  import opened Queries

  /** The class instance variable `@sort_methods`. */
  class Registry {
    var sortMethods: seq<Query -> Query>

    constructor ()
      ensures sortMethods == []
    {
      sortMethods := [];
    }

    /** `self.sort_methods(*methods)`. */
    method SortMethods(args: seq<Query -> Query>) returns (r: seq<Query -> Query>)
      modifies this`sortMethods
      ensures sortMethods == old(sortMethods) + args
      ensures r == sortMethods
    {
      sortMethods := sortMethods + args;
      r := sortMethods;
    }
  }

  /** `params[:sort_direction] == 'descending' ? :desc : :asc`. */
  function Direction(sortDirection: Value): (d: Dir)
    ensures d == Desc <==> sortDirection == Str("descending")
  {
    if sortDirection == Str("descending") then Desc else Asc
  }

  /** The `sort_by` parameter as a list: an array as it is, anything else wrapped. */
  function SortKeys(sortBy: Value): (ks: seq<Value>)
    ensures sortBy.List? ==> ks == sortBy.items
    ensures !sortBy.List? ==> ks == [sortBy]
  {
    if sortBy.List? then sortBy.items else [sortBy]
  }

  /** `sort_by.to_sym`: only a string parameter has it. */
  function ToSym(v: Value): (r: Result<string, Fault>)
    ensures r.Ok? <==> v.Str?
    ensures r.Ok? ==> r.value == v.s
  {
    if v.Str? then Ok(v.s) else Err(NoMethod("to_sym"))
  }

  /** The `order(key => direction)` calls for `keys`, stopping at the first key
      without `to_sym`. */
  function OrderBy(query: Query, keys: seq<Value>, d: Dir): Result<Query, Fault> {
    if |keys| == 0 then Ok(query)
    else match OrderBy(query, keys[..|keys| - 1], d)
      case Err(e) => Err(e)
      case Ok(q) =>
        match ToSym(keys[|keys| - 1])
        case Err(e) => Err(e)
        case Ok(k) => Ok(Refine(q, Order(k, d)))
  }

  /** What `apply_default_sort` answers. */
  function DefaultSortF(sortBy: Value, sortDirection: Value, query: Query): Result<Query, Fault> {
    if Blank(sortBy) || HasOrder(query) then Ok(query)
    else OrderBy(query, SortKeys(sortBy), Direction(sortDirection))
  }

  /** `apply_default_sort(query)`. */
  method ApplyDefaultSort(sortBy: Value, sortDirection: Value, query: Query) returns (r: Result<Query, Fault>)
    ensures r == DefaultSortF(sortBy, sortDirection, query)
  {
    if Blank(sortBy) || HasOrder(query) {
      return Ok(query);
    }
    var sortBys := SortKeys(sortBy);
    var d := Direction(sortDirection);
    var q := query;
    var i := 0;
    while i < |sortBys|
      invariant 0 <= i <= |sortBys|
      invariant OrderBy(query, sortBys[..i], d) == Ok(q)
    {
      assert sortBys[..i + 1][..i] == sortBys[..i];
      var k := ToSym(sortBys[i]);
      if k.Err? {
        assert OrderBy(query, sortBys[..i + 1], d) == Err(k.error);
        OrderByStops(query, sortBys, d, i + 1);
        return Err(k.error);
      }
      q := Refine(q, Order(k.value, d));
      i := i + 1;
    }
    assert sortBys[..|sortBys|] == sortBys;
    r := Ok(q);
  }

  /** What `apply_sort` answers. */
  function SortF(methods: seq<Query -> Query>, sortBy: Value, sortDirection: Value, query: Query): Result<Query, Fault> {
    match DefaultSortF(sortBy, sortDirection, Thread(methods, query))
    case Err(e) => Err(e)
    case Ok(q) => Ok(Refine(q, Order("id", Asc)))
  }

  /** `apply_sort(query)`. */
  method ApplySort(reg: Registry, sortBy: Value, sortDirection: Value, query: Query) returns (r: Result<Query, Fault>)
    ensures r == SortF(reg.sortMethods, sortBy, sortDirection, query)
  {
    var methods := reg.sortMethods;
    var q := query;
    var i := 0;
    while i < |methods|
      invariant 0 <= i <= |methods|
      invariant q == Thread(methods[..i], query)
    {
      assert methods[..i + 1][..i] == methods[..i];
      q := methods[i](q);
      i := i + 1;
    }
    assert methods[..|methods|] == methods;
    var d := ApplyDefaultSort(sortBy, sortDirection, q);
    if d.Err? {
      return Err(d.error);
    }
    r := Ok(Refine(d.value, Order("id", Asc)));
  }

  // ---------------------------------------------------------------------------
  // Properties

  /** When every key is a string, the default sort orders by each key in turn, all in
      the one direction. */
  lemma {:induction false} OrderByKeys(query: Query, keys: seq<Value>, d: Dir)
    requires forall i :: 0 <= i < |keys| ==> keys[i].Str?
    ensures OrderBy(query, keys, d).Ok?
    ensures var q := OrderBy(query, keys, d).value;
            q.table == query.table
            && |q.clauses| == |query.clauses| + |keys|
            && q.clauses[..|query.clauses|] == query.clauses
            && forall i :: 0 <= i < |keys| ==> q.clauses[|query.clauses| + i] == Order(keys[i].s, d)
  {
    if |keys| > 0 {
      OrderByKeys(query, keys[..|keys| - 1], d);
    }
  }

  /** Once a key fails, the later keys are never reached. */
  lemma {:induction false} OrderByStops(query: Query, keys: seq<Value>, d: Dir, j: int)
    requires 0 <= j <= |keys| && OrderBy(query, keys[..j], d).Err?
    ensures OrderBy(query, keys, d) == OrderBy(query, keys[..j], d)
  {
    if j < |keys| {
      var init := keys[..|keys| - 1];
      assert init[..j] == keys[..j];
      OrderByStops(query, init, d, j);
    } else {
      assert keys[..j] == keys;
    }
  }

  /** A key that is not a string makes the default sort fail. */
  lemma {:induction false} OrderByFails(query: Query, keys: seq<Value>, d: Dir, j: int)
    requires 0 <= j < |keys| && !keys[j].Str?
    ensures OrderBy(query, keys, d).Err?
  {
    if j < |keys| - 1 {
      OrderByFails(query, keys[..|keys| - 1], d, j);
    }
  }

  /** Whatever the sort methods and parameters, a successful sort ends with ascending `id`. */
  lemma SortEndsWithId(methods: seq<Query -> Query>, sortBy: Value, sortDirection: Value, query: Query)
    requires SortF(methods, sortBy, sortDirection, query).Ok?
    ensures var q := SortF(methods, sortBy, sortDirection, query).value;
            |q.clauses| > 0 && q.clauses[|q.clauses| - 1] == Order("id", Asc)
  {
  }

  /** A sort method that already ordered the query switches the default sort off. */
  lemma HookOrderWins(methods: seq<Query -> Query>, sortBy: Value, sortDirection: Value, query: Query)
    requires HasOrder(Thread(methods, query))
    ensures SortF(methods, sortBy, sortDirection, query) == Ok(Refine(Thread(methods, query), Order("id", Asc)))
  {
  }

  /** Ordering is what the default sort checks for, so applying it twice is applying it once. */
  lemma {:induction false} DefaultSortIdempotent(sortBy: Value, sortDirection: Value, query: Query)
    requires DefaultSortF(sortBy, sortDirection, query).Ok?
    ensures var q := DefaultSortF(sortBy, sortDirection, query).value;
            DefaultSortF(sortBy, sortDirection, q) == Ok(q)
  {
    if !(Blank(sortBy) || HasOrder(query)) {
      var keys := SortKeys(sortBy);
      var d := Direction(sortDirection);
      forall i | 0 <= i < |keys| ensures keys[i].Str? {
        if !keys[i].Str? {
          OrderByFails(query, keys, d, i);
        }
      }
      OrderByKeys(query, keys, d);
      var q := DefaultSortF(sortBy, sortDirection, query).value;
      assert |keys| > 0;
      assert q.clauses[|query.clauses|] == Order(keys[0].s, d);
    }
  }
}
