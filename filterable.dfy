/** Api::Filterable: the `filters` request parameter applied to a query, one filter
    after another. A filter first goes to the overridable `process_filter` hook; when
    the hook answers nil it is dispatched on its association, then on its type.

    The running query can become nil (a filter naming an association of none of the
    three kinds), after which the next `where` raises; so the running query is an
    `Option<Query>` and every step answers a `Result`. */
module Filterable {
  import opened Wrappers
  import opened Values
  import opened Queries

  const TypeBoolean := "boolean"
  const TypeDate := "date"
  const TypeRelationship := "relationship"
  const TypeString := "string"
  const TypeText := "text"

  const OperatorEqual := "equal"
  const OperatorNotEqual := "not_equal"
  const OperatorContain := "contain"
  const OperatorNotContain := "not_contain"
  const OperatorEmpty := "empty"
  const OperatorNotEmpty := "not_empty"
  const OperatorLessThan := "less_than"
  const OperatorGreaterThan := "greater_than"

  /** One element of `params[:filters]`; an absent key reads as `None` (or `Nil`). */
  datatype Filter = Filter(
    attributeName: string,
    associationName: Option<string>,
    associationColumn: Option<string>,
    typ: Option<string>,
    operator: Option<string>,
    value: Value)

  /** The `process_filter(query, filter)` hook: `Some` replaces the built-in handling. */
  type Hook = (Option<Query>, Filter) -> Option<Query>

  /** The hook as the concern defines it: always nil. */
  function DefaultHook(q: Option<Query>, f: Filter): Option<Query> {
    None
  }

  /** `DateTime.parse`, which the model does not reimplement: it is a parameter. */
  type DateParser = string -> Option<Value>

  // ---------------------------------------------------------------------------
  // filter_default

  /** The clause `filter_default` adds for the filter's operator; `None` for every other
      operator, `less_than` and `greater_than` included. */
  function DefaultClause(f: Filter): Option<Clause> {
    var a, v := f.attributeName, f.value;
    if f.operator == Some(OperatorEqual) then Some(Where(Eq(a, v)))
    else if f.operator == Some(OperatorNotEqual) then Some(WhereNot(Eq(a, v)))
    else if f.operator == Some(OperatorContain) then Some(Where(ILike(a, v)))
    else if f.operator == Some(OperatorNotContain) then Some(WhereNot(ILike(a, v)))
    else if f.operator == Some(OperatorEmpty) then Some(Where(Eq(a, Nil)))
    else if f.operator == Some(OperatorNotEmpty) then Some(WhereNot(Eq(a, Nil)))
    else None
  }

  /** `query.where(...)` / `query.where.not(...)` on a possibly nil query. */
  function AddWhere(q: Option<Query>, c: Clause): Result<Option<Query>, Fault> {
    if q.None? then Err(NoMethod("where")) else Ok(Some(Refine(q.value, c)))
  }

  /** `filter_default`: on a present query it never raises and adds at most the one
      clause of the operator; on a nil query it raises exactly when an operator applies. */
  function FilterDefault(q: Option<Query>, f: Filter): (r: Result<Option<Query>, Fault>)
    ensures q.Some? ==>
              r.Ok? && r.value.Some? && r.value.value.table == q.value.table
              && |q.value.clauses| <= |r.value.value.clauses| <= |q.value.clauses| + 1
              && r.value.value.clauses[..|q.value.clauses|] == q.value.clauses
              && (|r.value.value.clauses| == |q.value.clauses| + 1 <==> DefaultClause(f).Some?)
    ensures q.None? ==> (r.Err? <==> DefaultClause(f).Some?) && (r.Ok? ==> r == Ok(None))
  {
    match DefaultClause(f)
    case None => Ok(q)
    case Some(c) => AddWhere(q, c)
  }

  // ---------------------------------------------------------------------------
  // filter_boolean and filter_date

  /** `filter_boolean`: an equality test on the attribute, whatever the operator says. */
  function FilterBoolean(q: Option<Query>, f: Filter): (r: Result<Option<Query>, Fault>)
    ensures r == FilterDefault(q, f.(operator := Some(OperatorEqual)))
  {
    AddWhere(q, Where(Eq(f.attributeName, f.value)))
  }

  /** `v[:key]`: a hash answers its entry (nil when absent); nil and booleans have no
      `[]`; strings, integers and arrays refuse a symbol index; a record reads its
      attribute. */
  function Index(v: Value, key: string): (r: Result<Value, Fault>)
    ensures v.Hash? ==> r == Ok(Lookup(v.entries, key).GetOr(Nil))
  {
    match v
    case Nil => Err(NoMethod("[]"))
    case Bool(_) => Err(NoMethod("[]"))
    case Int(_) => Err(TypeMismatch("no implicit conversion of Symbol into Integer"))
    case Str(_) => Err(TypeMismatch("no implicit conversion of Symbol into Integer"))
    case List(_) => Err(TypeMismatch("no implicit conversion of Symbol into Integer"))
    case Hash(es) => Ok(Lookup(es, key).GetOr(Nil))
    case Rec(r) => if key in r.fields then Ok(r.fields[key]) else Err(NoMethod(key))
  }

  /** `DateTime.parse(v)`: only a string can be parsed. */
  function ParseDate(parse: DateParser, v: Value): Result<Value, Fault> {
    if !v.Str? then Err(TypeMismatch("no implicit conversion into String"))
    else match parse(v.s)
      case None => Err(ParseFailure(v.s))
      case Some(d) => Ok(d)
  }

  /** `filter_date`: a value that has no `[]` by symbol raises before anything else. */
  function FilterDate(parse: DateParser, q: Option<Query>, f: Filter): (r: Result<Option<Query>, Fault>)
    ensures !f.value.Hash? && !f.value.Rec? ==> r.Err?
  {
    match Index(f.value, "startDate")
    case Err(e) => Err(e)
    case Ok(start) =>
      if Blank(start) then Ok(q)
      else match Index(f.value, "endDate")
        case Err(e) => Err(e)
        case Ok(end) =>
          if Blank(end) then Ok(q)
          else match ParseDate(parse, start)
            case Err(e) => Err(e)
            case Ok(s) =>
              match ParseDate(parse, end)
              case Err(e) => Err(e)
              case Ok(t) => AddWhere(q, Where(InRange(f.attributeName, s, t)))
  }

  // ---------------------------------------------------------------------------
  // filter_has_many and filter_association

  /** The correlated subquery over the associated table, with the association's own
      scope merged in when it has one. */
  function HasManySubquery(res: Resource, assoc: Association, column: string): Query {
    var sub := Query(assoc.klass, [Where(ParentKey(column, res.table))]);
    if assoc.scope.Some? then MergeClauses(sub, assoc.scope.value) else sub
  }

  /** The `EXISTS` clause `filter_has_many` adds for the filter's operator. */
  function HasManyClause(f: Filter, sub: Query): Option<Clause> {
    var a, v := f.attributeName, f.value;
    if f.operator == Some(OperatorEqual) then Some(Where(Exists(Refine(sub, Where(Eq(a, v))))))
    else if f.operator == Some(OperatorNotEqual) then Some(Where(Exists(Refine(sub, WhereNot(Eq(a, v))))))
    else if f.operator == Some(OperatorContain) then Some(Where(Exists(Refine(sub, Where(ILike(a, v))))))
    else if f.operator == Some(OperatorNotContain) then Some(Where(Exists(Refine(sub, WhereNot(ILike(a, v))))))
    else if f.operator == Some(OperatorEmpty) then Some(WhereNot(Exists(sub)))
    else if f.operator == Some(OperatorNotEmpty) then Some(Where(Exists(sub)))
    else None
  }

  /** `filter_has_many`, reached only for a has-many association of the resource. */
  function FilterHasMany(res: Resource, q: Option<Query>, f: Filter): (r: Result<Option<Query>, Fault>)
    requires f.associationName.Some? && IsKind(res, f.associationName.value, HasMany)
    ensures f.associationColumn.None? ==> r.Err?
    ensures q.Some? && f.associationColumn.Some? ==>
              r.Ok? && r.value.Some? && r.value.value.table == q.value.table
              && |q.value.clauses| <= |r.value.value.clauses| <= |q.value.clauses| + 1
              && r.value.value.clauses[..|q.value.clauses|] == q.value.clauses
              && (|r.value.value.clauses| == |q.value.clauses| + 1 <==> DefaultClause(f).Some?)
              && (|r.value.value.clauses| == |q.value.clauses| + 1 ==>
                    ExistsCorrelated(r.value.value.clauses[|q.value.clauses|],
                                     res.schema[f.associationName.value].klass, f.associationColumn.value, res.table))
  {
    if f.associationColumn.None? then Err(NoMethod("to_sym"))
    else
      var sub := HasManySubquery(res, res.schema[f.associationName.value], f.associationColumn.value);
      match HasManyClause(f, sub)
      case None => Ok(q)
      case Some(c) => AddWhere(q, c)
  }

  /** An `EXISTS` (or `NOT EXISTS`) test over the associated table whose subquery
      starts by tying `column` to the parent table's id. */
  predicate ExistsCorrelated(c: Clause, klass: string, column: string, parent: string) {
    (c.Where? || c.WhereNot?) && c.pred.Exists? && c.pred.sub.table == klass
    && |c.pred.sub.clauses| > 0 && c.pred.sub.clauses[0] == Where(ParentKey(column, parent))
  }

  /** `filter_association`: a belongs-to or has-one association is joined and filtered
      like a column; a has-many one through `EXISTS`; any other name yields nil. */
  function FilterAssociation(res: Resource, q: Option<Query>, f: Filter): (r: Result<Option<Query>, Fault>)
    requires f.associationName.Some?
    ensures f.associationName.value !in res.schema ==> r == Ok(None)
    ensures q.Some? && r.Ok? ==> (r.value.None? <==> f.associationName.value !in res.schema)
  {
    var name := f.associationName.value;
    if IsKind(res, name, BelongsTo) || IsKind(res, name, HasOne) then
      if q.None? then Err(NoMethod("joins"))
      else FilterDefault(Some(Refine(q.value, Join(Name(name)))), f)
    else if IsKind(res, name, HasMany) then FilterHasMany(res, q, f)
    else Ok(None)
  }

  // ---------------------------------------------------------------------------
  // apply_filterable

  /** One turn of the loop in `apply_filterable`. */
  function FilterStep(hook: Hook, parse: DateParser, res: Resource, q: Option<Query>, f: Filter): Result<Option<Query>, Fault> {
    var custom := hook(q, f);
    if custom.Some? then Ok(custom)
    else if PresentStr(f.associationName) then FilterAssociation(res, q, f)
    else if f.typ == Some(TypeBoolean) then FilterBoolean(q, f)
    else if f.typ == Some(TypeDate) then FilterDate(parse, q, f)
    else FilterDefault(q, f)
  }

  /** Every filter in turn; the first exception ends the request. */
  function FoldFilters(hook: Hook, parse: DateParser, res: Resource, q: Option<Query>, fs: seq<Filter>): Result<Option<Query>, Fault> {
    if |fs| == 0 then Ok(q)
    else match FoldFilters(hook, parse, res, q, fs[..|fs| - 1])
      case Err(e) => Err(e)
      case Ok(p) => FilterStep(hook, parse, res, p, fs[|fs| - 1])
  }

  /** `apply_filterable(query)`; an absent or empty `filters` parameter is `[]`. */
  method ApplyFilterable(hook: Hook, parse: DateParser, res: Resource, query: Query, filters: seq<Filter>)
    returns (r: Result<Option<Query>, Fault>)
    ensures r == FoldFilters(hook, parse, res, Some(query), filters)
  {
    if |filters| == 0 {
      return Ok(Some(query));
    }
    var q: Option<Query> := Some(query);
    var i := 0;
    while i < |filters|
      invariant 0 <= i <= |filters|
      invariant FoldFilters(hook, parse, res, Some(query), filters[..i]) == Ok(q)
    {
      assert filters[..i + 1][..i] == filters[..i];
      var filter := filters[i];
      var step := FilterStep(hook, parse, res, q, filter);
      if step.Err? {
        FoldStops(hook, parse, res, Some(query), filters, i + 1);
        return step;
      }
      q := step.value;
      i := i + 1;
    }
    assert filters[..|filters|] == filters;
    r := Ok(q);
  }

  // ---------------------------------------------------------------------------
  // Properties

  /** Once a filter raises, the later ones are never applied. */
  lemma {:induction false} FoldStops(hook: Hook, parse: DateParser, res: Resource, q: Option<Query>, fs: seq<Filter>, j: int)
    requires 0 <= j <= |fs| && FoldFilters(hook, parse, res, q, fs[..j]).Err?
    ensures FoldFilters(hook, parse, res, q, fs) == FoldFilters(hook, parse, res, q, fs[..j])
  {
    if j < |fs| {
      var init := fs[..|fs| - 1];
      assert init[..j] == fs[..j];
      FoldStops(hook, parse, res, q, init, j);
    } else {
      assert fs[..j] == fs;
    }
  }

  /** Applying two lists of filters is applying the first, then the second to its result. */
  lemma {:induction false} FoldAppend(hook: Hook, parse: DateParser, res: Resource, q: Option<Query>, fs: seq<Filter>, gs: seq<Filter>)
    ensures FoldFilters(hook, parse, res, q, fs + gs)
         == match FoldFilters(hook, parse, res, q, fs)
            case Err(e) => Err(e)
            case Ok(p) => FoldFilters(hook, parse, res, p, gs)
  {
    if |gs| == 0 {
      assert fs + gs == fs;
    } else {
      var init := gs[..|gs| - 1];
      FoldAppend(hook, parse, res, q, fs, init);
      assert (fs + gs)[..|fs + gs| - 1] == fs + init;
    }
  }

  /** An answer from the hook always wins over the built-in handling. */
  lemma HookWins(hook: Hook, parse: DateParser, res: Resource, q: Option<Query>, f: Filter)
    requires hook(q, f).Some?
    ensures FilterStep(hook, parse, res, q, f) == Ok(hook(q, f))
  {
  }

  /** With an association present, the filter's type is never looked at. */
  lemma AssociationIgnoresType(hook: Hook, parse: DateParser, res: Resource, q: Option<Query>, f: Filter, t: Option<string>)
    requires PresentStr(f.associationName)
    requires hook(q, f).None? && hook(q, f.(typ := t)).None?
    ensures FilterStep(hook, parse, res, q, f) == FilterStep(hook, parse, res, q, f.(typ := t))
  {
  }

  /** Without an association, every type other than boolean and date (string, text,
      relationship, or none) is filtered by operator alone. */
  lemma OtherTypesAreDefault(parse: DateParser, res: Resource, q: Option<Query>, f: Filter)
    requires !PresentStr(f.associationName)
    requires f.typ != Some(TypeBoolean) && f.typ != Some(TypeDate)
    ensures FilterStep(DefaultHook, parse, res, q, f) == FilterDefault(q, f)
  {
  }

  /** The operators come in complementary pairs: the second of each pair adds the
      negation of the first one's clause. */
  lemma DefaultOperatorPairs(q: Query, f: Filter)
    ensures FilterDefault(Some(q), f.(operator := Some(OperatorEqual))) == Ok(Some(Refine(q, Where(Eq(f.attributeName, f.value)))))
    ensures FilterDefault(Some(q), f.(operator := Some(OperatorContain))) == Ok(Some(Refine(q, Where(ILike(f.attributeName, f.value)))))
    ensures FilterDefault(Some(q), f.(operator := Some(OperatorEmpty))) == Ok(Some(Refine(q, Where(Eq(f.attributeName, Nil)))))
    ensures var eq := FilterDefault(Some(q), f.(operator := Some(OperatorEqual)));
            var ne := FilterDefault(Some(q), f.(operator := Some(OperatorNotEqual)));
            eq.Ok? && ne.Ok? && eq.value.Some? && ne.value.Some?
            && eq.value.value.clauses[..|q.clauses|] == q.clauses
            && ne.value.value == Refine(q, Negate(eq.value.value.clauses[|q.clauses|]))
    ensures var c := FilterDefault(Some(q), f.(operator := Some(OperatorContain)));
            var nc := FilterDefault(Some(q), f.(operator := Some(OperatorNotContain)));
            c.Ok? && nc.Ok? && c.value.Some?
            && nc.value == Some(Refine(q, Negate(c.value.value.clauses[|q.clauses|])))
    ensures var e := FilterDefault(Some(q), f.(operator := Some(OperatorEmpty)));
            var ne := FilterDefault(Some(q), f.(operator := Some(OperatorNotEmpty)));
            e.Ok? && ne.Ok? && e.value.Some?
            && ne.value == Some(Refine(q, Negate(e.value.value.clauses[|q.clauses|])))
  {
  }

  /** `less_than` and `greater_than` are declared but filter nothing, like any operator
      the concern does not know. */
  lemma ComparisonOperatorsAreNoOps(q: Option<Query>, f: Filter)
    requires f.operator == Some(OperatorLessThan) || f.operator == Some(OperatorGreaterThan)
    ensures FilterDefault(q, f) == Ok(q)
  {
  }

  /** A date filter missing either bound filters nothing. */
  lemma DateNeedsBothBounds(parse: DateParser, q: Option<Query>, f: Filter)
    requires f.value.Hash?
    requires Blank(Lookup(f.value.entries, "startDate").GetOr(Nil)) || Blank(Lookup(f.value.entries, "endDate").GetOr(Nil))
    ensures FilterDate(parse, q, f) == Ok(q)
  {
  }

  /** A date filter with both bounds present filters on the closed range between the
      parsed bounds; it raises when either bound is not a string or does not parse, or
      when the query is nil. */
  lemma DateBothBounds(parse: DateParser, q: Option<Query>, f: Filter)
    requires f.value.Hash?
    requires Present(Lookup(f.value.entries, "startDate").GetOr(Nil)) && Present(Lookup(f.value.entries, "endDate").GetOr(Nil))
    ensures var st := ParseDate(parse, Lookup(f.value.entries, "startDate").GetOr(Nil));
            var en := ParseDate(parse, Lookup(f.value.entries, "endDate").GetOr(Nil));
            var r := FilterDate(parse, q, f);
            (r.Ok? <==> st.Ok? && en.Ok? && q.Some?)
            && (r.Ok? ==> r == Ok(Some(Refine(q.value, Where(InRange(f.attributeName, st.value, en.value))))))
    ensures !Lookup(f.value.entries, "startDate").GetOr(Nil).Str? || !Lookup(f.value.entries, "endDate").GetOr(Nil).Str?
            ==> FilterDate(parse, q, f).Err?
  {
  }

  /** A boolean filter without an association is an equality test, whatever operator
      it carries. */
  lemma BooleanIsEquality(parse: DateParser, res: Resource, q: Option<Query>, f: Filter)
    requires !PresentStr(f.associationName) && f.typ == Some(TypeBoolean)
    ensures FilterStep(DefaultHook, parse, res, q, f) == FilterDefault(q, f.(operator := Some(OperatorEqual)))
    ensures q.Some? ==> FilterStep(DefaultHook, parse, res, q, f) == Ok(Some(Refine(q.value, Where(Eq(f.attributeName, f.value)))))
  {
  }

  /** A belongs-to or has-one association is joined first; the operator's clause, if
      any, follows the join. */
  lemma AssociationToOne(res: Resource, q: Query, f: Filter)
    requires f.associationName.Some?
    requires IsKind(res, f.associationName.value, BelongsTo) || IsKind(res, f.associationName.value, HasOne)
    ensures var joined := q.clauses + [Join(Name(f.associationName.value))];
            FilterAssociation(res, Some(q), f)
            == Ok(Some(Query(q.table, if DefaultClause(f).Some? then joined + [DefaultClause(f).value] else joined)))
  {
  }

  /** For `equal`, `not_equal`, `contain` and `not_contain` on a has-many association,
      the clause `filter_default` would add is applied inside the correlated subquery,
      and the query keeps the rows for which that subquery has a row. */
  lemma HasManyPredicateInside(res: Resource, q: Query, f: Filter)
    requires f.associationName.Some? && IsKind(res, f.associationName.value, HasMany)
    requires f.associationColumn.Some?
    requires f.operator in {Some(OperatorEqual), Some(OperatorNotEqual), Some(OperatorContain), Some(OperatorNotContain)}
    ensures DefaultClause(f).Some?
    ensures var sub := HasManySubquery(res, res.schema[f.associationName.value], f.associationColumn.value);
            FilterHasMany(res, Some(q), f) == Ok(Some(Refine(q, Where(Exists(Refine(sub, DefaultClause(f).value))))))
  {
  }

  /** `empty` and `not_empty` on a has-many association test the same subquery, one
      with `NOT EXISTS`, the other with `EXISTS`. */
  lemma HasManyEmptyPair(res: Resource, q: Query, f: Filter)
    requires f.associationName.Some? && IsKind(res, f.associationName.value, HasMany)
    requires f.associationColumn.Some?
    ensures var sub := HasManySubquery(res, res.schema[f.associationName.value], f.associationColumn.value);
            FilterHasMany(res, Some(q), f.(operator := Some(OperatorEmpty))) == Ok(Some(Refine(q, WhereNot(Exists(sub)))))
            && FilterHasMany(res, Some(q), f.(operator := Some(OperatorNotEmpty))) == Ok(Some(Refine(q, Where(Exists(sub)))))
  {
  }

  /** The built-in handling never brings a nil query back: it stays nil or raises. */
  lemma NilStaysNil(parse: DateParser, res: Resource, f: Filter)
    ensures var r := FilterStep(DefaultHook, parse, res, None, f);
            r.Err? || r.value.None?
  {
  }

  /** One built-in step keeps the table and only appends clauses (or yields nil). */
  lemma StepExtends(parse: DateParser, res: Resource, q: Query, f: Filter)
    ensures var r := FilterStep(DefaultHook, parse, res, Some(q), f);
            r.Ok? && r.value.Some? ==>
              r.value.value.table == q.table
              && |q.clauses| <= |r.value.value.clauses|
              && r.value.value.clauses[..|q.clauses|] == q.clauses
  {
  }

  /** With the built-in handling only, a filtered query is the original query with
      clauses appended: filters narrow and never drop a condition. */
  lemma {:induction false} FiltersOnlyAppend(parse: DateParser, res: Resource, q: Query, fs: seq<Filter>)
    ensures var r := FoldFilters(DefaultHook, parse, res, Some(q), fs);
            r.Ok? && r.value.Some? ==>
              r.value.value.table == q.table
              && |q.clauses| <= |r.value.value.clauses|
              && r.value.value.clauses[..|q.clauses|] == q.clauses
  {
    if |fs| > 0 {
      var init := fs[..|fs| - 1];
      FiltersOnlyAppend(parse, res, q, init);
      var p := FoldFilters(DefaultHook, parse, res, Some(q), init);
      if p.Ok? {
        if p.value.None? {
          NilStaysNil(parse, res, fs[|fs| - 1]);
        } else {
          var pq := p.value.value;
          StepExtends(parse, res, pq, fs[|fs| - 1]);
          var r := FoldFilters(DefaultHook, parse, res, Some(q), fs);
          if r.Ok? && r.value.Some? {
            assert r.value.value.clauses[..|pq.clauses|] == pq.clauses;
            assert r.value.value.clauses[..|q.clauses|] == r.value.value.clauses[..|pq.clauses|][..|q.clauses|];
          }
        }
      }
    }
  }
}
