/** ActiveRecord relations as symbolic values. A relation is its table and the ordered
    list of clauses that the fluent calls (`where`, `where.not`, `order`, `joins`,
    `left_joins`, `preload`, `or`, `merge`) have added. Nothing is evaluated against a
    database. */
module Queries {
  import opened Wrappers
  import opened Values

  datatype Dir = Asc | Desc

  /** An association argument to `joins`, `left_joins` and `preload`, and a node of a
      preload tree: a bare name, or a hash `{name => children}`. */
  datatype AssocSpec = Name(name: string) | Nested(pairs: seq<NestedPair>)

  /** One `name => children` pair; the children are already `Array.wrap`ped. */
  datatype NestedPair = NestedPair(key: string, children: seq<AssocSpec>)

  datatype Pred =
      /** `where(column => value)`; a `Nil` value is `IS NULL`, a `List` is `IN`. */
    | Eq(column: string, value: Value)
      /** `where(column => lo..hi)`, both ends included. */
    | InRange(column: string, lo: Value, hi: Value)
      /** `where("column ILIKE ?", "%term%")`. */
    | ILike(column: string, term: Value)
      /** `related.arel_table[column].eq(parent.arel_table[:id])`. */
    | ParentKey(column: string, parentTable: string)
      /** `sub.arel.exists`. */
    | Exists(sub: Query)

  datatype Clause =
    | Where(pred: Pred)
    | WhereNot(pred: Pred)
    | Order(column: string, dir: Dir)
    | Join(rel: AssocSpec)
    | LeftJoin(rel: AssocSpec)
    | Preload(rel: AssocSpec)
      /** `left.or(right)`. */
    | Either(left: Query, right: Query)

  datatype Query = Query(table: string, clauses: seq<Clause>)

  /** `Model.all`. */
  function All(table: string): Query {
    Query(table, [])
  }

  /** One more clause at the end of the chain. */
  function Refine(q: Query, c: Clause): Query {
    Query(q.table, q.clauses + [c])
  }

  /** `q.merge(other)`: the other relation's clauses follow `q`'s. */
  function Merge(q: Query, other: Query): Query {
    Query(q.table, q.clauses + other.clauses)
  }

  /** `q.merge(scope)` for an association scope given as clauses. */
  function MergeClauses(q: Query, cs: seq<Clause>): Query {
    Query(q.table, q.clauses + cs)
  }

  /** `q.or(other)`. */
  function Or(q: Query, other: Query): Query {
    Query(q.table, [Either(q, other)])
  }

  /** Hook methods (`search_methods`, `sort_methods`) called one after another, each on
      the previous one's answer. */
  function Thread(fs: seq<Query -> Query>, q: Query): Query {
    if |fs| == 0 then q else fs[|fs| - 1](Thread(fs[..|fs| - 1], q))
  }

  /** `where.not` of a clause's predicate, and back. */
  function Negate(c: Clause): Clause
    requires c.Where? || c.WhereNot?
  {
    if c.Where? then WhereNot(c.pred) else Where(c.pred)
  }

  /** `order_values.size > 0`. */
  predicate HasOrder(q: Query) {
    exists i :: 0 <= i < |q.clauses| && q.clauses[i].Order?
  }

  /** The clauses that reach the SQL text: `preload` runs separate queries. */
  function SqlClauses(cs: seq<Clause>): seq<Clause> {
    if |cs| == 0 then []
    else if cs[|cs| - 1].Preload? then SqlClauses(cs[..|cs| - 1])
    else SqlClauses(cs[..|cs| - 1]) + [cs[|cs| - 1]]
  }

  /** `Relation#==` between relations compares their SQL. */
  predicate SameSql(a: Query, b: Query) {
    a.table == b.table && SqlClauses(a.clauses) == SqlClauses(b.clauses)
  }

  /** What `reflect_on_association(name)` reports: the macro, the associated table
      (`klass`), the foreign key and the association's own scope, if it has one. */
  datatype Association = Association(kind: Kind, klass: string, foreignKey: string, scope: Option<seq<Clause>>)

  /** The resource class (`item_class`): its table and its associations. */
  datatype Resource = Resource(table: string, schema: map<string, Association>)

  /** Whether `reflect_on_all_associations(kind).map(&:name)` includes `name`. */
  predicate IsKind(res: Resource, name: string, kind: Kind) {
    name in res.schema && res.schema[name].kind == kind
  }
}
