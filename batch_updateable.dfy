/** Api::BatchUpdateable: `batch_delete` and `batch_update`. Each builds one bulk
    statement (`destroy_all`, `insert_all` or `update_all`), whose exception message is
    captured as the error; an error that is present is answered with status 400.

    The database is the executor parameter: it answers the message of the exception a
    statement raised, or `None`. Exceptions raised outside the `begin ... rescue` blocks
    (a missing parameter, an unknown association) escape as `Err(Fault)`. */
module BatchUpdateable {
  import opened Wrappers
  import opened Values
  import opened Queries
  import opened StringExt

  const OperatorAdd := "add"
  const OperatorRemove := "remove"
  const TypeRelationship := "relationship"

  /** The bulk statements the concern issues. */
  datatype Statement =
    | DestroyAll(query: Query)
    | InsertAll(table: string, rows: seq<seq<Entry>>, uniqueBy: seq<string>)
    | UpdateAll(query: Query, attributes: seq<Entry>)

  /** The database: the message of the exception a statement raises, if any. */
  type Executor = Statement -> Option<string>

  /** The request parameters the concern reads; absent keys are `Nil` or `None`. */
  datatype BatchParams = BatchParams(
    ids: Value,
    typ: Value,
    multiple: Value,
    attributeName: string,
    value: Value,
    operator: Value,
    associationName: Option<string>,
    associationColumn: Option<string>)

  datatype Response = StatusOk | Errors(message: string, status: int)

  // ---------------------------------------------------------------------------
  // batch_delete / batch_update

  /** The rendering at the end of both actions: `errors.present?` decides. */
  function Respond(errors: Option<string>): (r: Response)
    ensures r == StatusOk <==> errors.None? || BlankString(errors.value)
    ensures r.Errors? ==> r == Errors(errors.value, 400)
  {
    if PresentStr(errors) then Errors(errors.value, 400) else StatusOk
  }

  /** `item_class.where(id: ids)`. */
  function ByIds(table: string, ids: Value): Query {
    Query(table, [Where(Eq("id", ids))])
  }

  /** `process_delete`. */
  function ProcessDelete(exec: Executor, table: string, p: BatchParams): Option<string> {
    exec(DestroyAll(ByIds(table, p.ids)))
  }

  /** `batch_delete`. */
  function BatchDelete(exec: Executor, table: string, p: BatchParams): (r: Response)
    ensures r == StatusOk <==> var e := exec(DestroyAll(ByIds(table, p.ids))); e.None? || BlankString(e.value)
  {
    Respond(ProcessDelete(exec, table, p))
  }

  /** `params[:multiple].to_s.to_bool`: the text of an array, a hash or a record starts
      with a bracket and holds no line break, so it is never true. */
  function MultipleFlag(v: Value): (b: bool)
    ensures v.Str? ==> b == ToBool(v.s)
    ensures v.Int? ==> (b <==> v.i == 1)
    ensures v.Bool? ==> b == v.b
    ensures v.Nil? || v.List? || v.Hash? || v.Rec? ==> !b
  {
    match v
    case Str(s) => ToBool(s)
    case Int(i) => IntegerToBool(i); ToBool(DecimalString(i))
    case Bool(x) => BoolToBool(); ToBool(if x then "true" else "false")
    case Nil => ToBool("")
    case _ => false
  }

  lemma BoolToBool()
    ensures ToBool("true") && !ToBool("false")
  {
    SingleLineToBool("true");
    SingleLineToBool("false");
    assert FoldEq("true", TruthyWords[0]);
  }

  /** `process_update`: only a relationship update flagged `multiple` goes through the
      association; everything else sets one attribute, whose failure is always caught. */
  function ProcessUpdate(exec: Executor, res: Resource, p: BatchParams): (r: Result<Option<string>, Fault>)
    ensures r.Err? ==> p.typ == Str(TypeRelationship) && MultipleFlag(p.multiple)
  {
    if p.typ == Str(TypeRelationship) && MultipleFlag(p.multiple) then UpdateHasMany(exec, res, p)
    else Ok(UpdateDefault(exec, res.table, p))
  }

  /** `batch_update`: it raises only when `process_update` does; otherwise an error
      that is present is answered with status 400 and anything else as success. */
  function BatchUpdate(exec: Executor, res: Resource, p: BatchParams): (r: Result<Response, Fault>)
    ensures r.Err? <==> ProcessUpdate(exec, res, p).Err?
    ensures r.Ok? ==>
              var errors := ProcessUpdate(exec, res, p).value;
              (r.value == StatusOk <==> errors.None? || BlankString(errors.value))
              && (r.value.Errors? ==> r.value == Errors(errors.value, 400))
  {
    match ProcessUpdate(exec, res, p)
    case Err(e) => Err(e)
    case Ok(errors) => Ok(Respond(errors))
  }

  // ---------------------------------------------------------------------------
  // update_default

  /** `update_default`: the answer is the database's to the one `update_all` that sets
      exactly `attribute_name` to `value` on the rows with the given ids. */
  function UpdateDefault(exec: Executor, table: string, p: BatchParams): (r: Option<string>)
    ensures forall s :: SetsOne(s, table, p.ids, p.attributeName, p.value) ==> r == exec(s)
  {
    SetsOneUnique(table, p.ids, p.attributeName, p.value);
    exec(UpdateAll(ByIds(table, p.ids), [Entry(p.attributeName, p.value)]))
  }

  /** An `update_all` on the rows with the given ids whose attribute hash holds exactly
      `name => v`. */
  predicate SetsOne(s: Statement, table: string, ids: Value, name: string, v: Value) {
    s.UpdateAll? && s.query == ByIds(table, ids)
    && Keys(s.attributes) == [name] && Lookup(s.attributes, name) == Some(v)
  }

  /** Only one statement sets exactly one attribute on the given rows. */
  lemma SetsOneUnique(table: string, ids: Value, name: string, v: Value)
    ensures SetsOne(UpdateAll(ByIds(table, ids), [Entry(name, v)]), table, ids, name, v)
    ensures forall s :: SetsOne(s, table, ids, name, v) ==> s == UpdateAll(ByIds(table, ids), [Entry(name, v)])
  {
    forall s | SetsOne(s, table, ids, name, v)
      ensures s == UpdateAll(ByIds(table, ids), [Entry(name, v)])
    {
      assert |s.attributes| == 1;
      assert s.attributes[0].key == name;
    }
  }

  // ---------------------------------------------------------------------------
  // update_has_many

  /** `v.each`: an array yields its items, a parameters hash its `[key, value]` pairs;
      nothing else has `each`. */
  function Each(v: Value): (r: Result<seq<Value>, Fault>)
    ensures v.List? ==> r == Ok(v.items)
    ensures v.Hash? ==> r.Ok? && |r.value| == |v.entries|
    ensures v.Hash? ==> forall i {:trigger v.entries[i]} :: 0 <= i < |v.entries| ==> r.value[i] == List([Str(v.entries[i].key), v.entries[i].val])
    ensures !v.List? && !v.Hash? ==> r.Err?
  {
    match v
    case List(xs) => Ok(xs)
    case Hash(es) => Ok(seq(|es|, i requires 0 <= i < |es| => List([Str(es[i].key), es[i].val])))
    case _ => Err(NoMethod("each"))
  }

  /** `{ id_key => id, association_column => value }`. */
  function Row(idKey: string, column: string, id: Value, v: Value): seq<Entry> {
    Put([Entry(idKey, id)], column, v)
  }

  function RowsFor(idKey: string, column: string, id: Value, vs: seq<Value>): (rows: seq<seq<Entry>>)
    ensures |rows| == |vs|
    ensures forall j :: 0 <= j < |vs| ==> rows[j] == Row(idKey, column, id, vs[j])
  {
    seq(|vs|, j requires 0 <= j < |vs| => Row(idKey, column, id, vs[j]))
  }

  /** The rows of the nested loops over `ids` already enumerated; `params[:value].each`
      runs once per id, so it is never reached when there are no ids. */
  function AddRows(idKey: string, column: string, ids: seq<Value>, values: Value): Result<seq<seq<Entry>>, Fault> {
    if |ids| == 0 then Ok([])
    else match AddRows(idKey, column, ids[..|ids| - 1], values)
      case Err(e) => Err(e)
      case Ok(rows) =>
        match Each(values)
        case Err(e) => Err(e)
        case Ok(vs) => Ok(rows + RowsFor(idKey, column, ids[|ids| - 1], vs))
  }

  /** The `add` data raises only when the ids or the values cannot be enumerated. */
  function AddData(idKey: string, column: string, ids: Value, values: Value): (r: Result<seq<seq<Entry>>, Fault>)
    ensures r.Err? ==> (!ids.List? && !ids.Hash?) || (!values.List? && !values.Hash?)
  {
    match Each(ids)
    case Err(e) => Err(e)
    case Ok(xs) =>
      if Each(values).Ok? then
        AddRowsOk(idKey, column, xs, values, Each(values).value);
        AddRows(idKey, column, xs, values)
      else AddRows(idKey, column, xs, values)
  }

  /** The `data` array of the `add` operator, built by the two nested loops. */
  method BuildAddData(idKey: string, column: string, ids: Value, values: Value)
    returns (r: Result<seq<seq<Entry>>, Fault>)
    ensures r == AddData(idKey, column, ids, values)
  {
    var outer := Each(ids);
    if outer.Err? {
      return Err(outer.error);
    }
    var xs := outer.value;
    var data: seq<seq<Entry>> := [];
    var i := 0;
    while i < |xs|
      invariant 0 <= i <= |xs|
      invariant AddRows(idKey, column, xs[..i], values) == Ok(data)
    {
      assert xs[..i + 1][..i] == xs[..i];
      var inner := Each(values);
      if inner.Err? {
        assert AddRows(idKey, column, xs[..i + 1], values) == Err(inner.error);
        AddRowsStops(idKey, column, xs, values, i + 1);
        return Err(inner.error);
      }
      data := AppendRows(data, idKey, column, xs[i], inner.value);
      i := i + 1;
    }
    assert xs[..|xs|] == xs;
    r := Ok(data);
  }

  lemma RowsForSnoc(idKey: string, column: string, id: Value, vs: seq<Value>, j: int)
    requires 0 <= j < |vs|
    ensures RowsFor(idKey, column, id, vs[..j + 1]) == RowsFor(idKey, column, id, vs[..j]) + [Row(idKey, column, id, vs[j])]
  {
    var a := RowsFor(idKey, column, id, vs[..j + 1]);
    var b := RowsFor(idKey, column, id, vs[..j]) + [Row(idKey, column, id, vs[j])];
    forall k | 0 <= k < |a|
      ensures a[k] == b[k]
    {
      assert vs[..j + 1][k] == vs[k];
      if k < j {
        assert vs[..j][k] == vs[k];
      }
    }
  }

  /** The inner loop: one row per value, in order, for the one id. */
  method AppendRows(data: seq<seq<Entry>>, idKey: string, column: string, id: Value, vs: seq<Value>)
    returns (d: seq<seq<Entry>>)
    ensures d == data + RowsFor(idKey, column, id, vs)
  {
    d := data;
    var j := 0;
    while j < |vs|
      invariant 0 <= j <= |vs|
      invariant d == data + RowsFor(idKey, column, id, vs[..j])
    {
      RowsForSnoc(idKey, column, id, vs, j);
      d := d + [Row(idKey, column, id, vs[j])];
      j := j + 1;
    }
    assert vs[..|vs|] == vs;
  }

  /** `klass.where(id_key => ids, association_column => value)`; the criteria are a
      hash, so equal key names collapse into one condition. */
  function RemoveQuery(klass: string, idKey: string, column: string, ids: Value, v: Value): Query {
    var criteria := Put([Entry(idKey, ids)], column, v);
    Query(klass, seq(|criteria|, i requires 0 <= i < |criteria| => Where(Eq(criteria[i].key, criteria[i].val))))
  }

  /** `update_has_many`: a missing column or association name, or an association the
      resource does not have, raises; so does an `add` whose ids or value cannot be
      enumerated. An operator other than `add` and `remove` issues nothing. */
  function UpdateHasMany(exec: Executor, res: Resource, p: BatchParams): (r: Result<Option<string>, Fault>)
    ensures p.associationColumn.None? || p.associationName.None? || p.associationName.value !in res.schema ==> r.Err?
    ensures r.Err? ==>
              p.associationColumn.None? || p.associationName.None? || p.associationName.value !in res.schema
              || (p.operator == Str(OperatorAdd) && ((!p.ids.List? && !p.ids.Hash?) || (!p.value.List? && !p.value.Hash?)))
    ensures p.associationColumn.Some? && p.associationName.Some? && p.associationName.value in res.schema
            && p.operator != Str(OperatorAdd) && p.operator != Str(OperatorRemove)
            ==> r == Ok(None)
  {
    if p.associationColumn.None? then Err(NoMethod("to_sym"))
    else if p.associationName.None? then Err(NoMethod("to_sym"))
    else if p.associationName.value !in res.schema then Err(NoMethod("klass"))
    else
      var column := p.associationColumn.value;
      var assoc := res.schema[p.associationName.value];
      var idKey := assoc.foreignKey;
      if p.operator == Str(OperatorAdd) then
        match AddData(idKey, column, p.ids, p.value)
        case Err(e) => Err(e)
        case Ok(data) => Ok(exec(InsertAll(assoc.klass, data, [column, idKey])))
      else if p.operator == Str(OperatorRemove) then
        Ok(exec(DestroyAll(RemoveQuery(assoc.klass, idKey, column, p.ids, p.value))))
      else Ok(None)
  }

  // ---------------------------------------------------------------------------
  // Properties

  lemma {:induction false} AddRowsStops(idKey: string, column: string, ids: seq<Value>, values: Value, k: int)
    requires 0 <= k <= |ids| && AddRows(idKey, column, ids[..k], values).Err?
    ensures AddRows(idKey, column, ids, values) == AddRows(idKey, column, ids[..k], values)
  {
    if k < |ids| {
      var init := ids[..|ids| - 1];
      assert init[..k] == ids[..k];
      AddRowsStops(idKey, column, init, values, k);
    } else {
      assert ids[..k] == ids;
    }
  }

  /** Once `value` can be enumerated, the nested loops cannot fail. */
  lemma {:induction false} AddRowsOk(idKey: string, column: string, ids: seq<Value>, values: Value, vs: seq<Value>)
    requires Each(values) == Ok(vs)
    ensures AddRows(idKey, column, ids, values).Ok?
  {
    if |ids| > 0 {
      AddRowsOk(idKey, column, ids[..|ids| - 1], values, vs);
    }
  }

  lemma {:induction false} AddRowsLength(idKey: string, column: string, ids: seq<Value>, values: Value, vs: seq<Value>)
    requires Each(values) == Ok(vs)
    ensures AddRows(idKey, column, ids, values).Ok?
    ensures |AddRows(idKey, column, ids, values).value| == |ids| * |vs|
  {
    if |ids| > 0 {
      var n := |ids| - 1;
      AddRowsLength(idKey, column, ids[..n], values, vs);
      assert |ids| * |vs| == n * |vs| + |vs|;
    }
  }

  /** The rows built for a prefix of the ids begin the rows built for all of them: the
      outer loop only ever appends. */
  lemma {:induction false} AddRowsExtends(idKey: string, column: string, ids: seq<Value>, values: Value, vs: seq<Value>, k: int)
    requires Each(values) == Ok(vs) && 0 <= k <= |ids|
    ensures AddRows(idKey, column, ids, values).Ok? && AddRows(idKey, column, ids[..k], values).Ok?
    ensures var rows := AddRows(idKey, column, ids, values).value;
            var pre := AddRows(idKey, column, ids[..k], values).value;
            |pre| <= |rows| && rows[..|pre|] == pre
  {
    AddRowsOk(idKey, column, ids, values, vs);
    AddRowsOk(idKey, column, ids[..k], values, vs);
    if k < |ids| {
      var init := ids[..|ids| - 1];
      assert init[..k] == ids[..k];
      AddRowsExtends(idKey, column, init, values, vs, k);
      AddRowsOk(idKey, column, init, values, vs);
      var mid := AddRows(idKey, column, init, values).value;
      var pre := AddRows(idKey, column, ids[..k], values).value;
      assert AddRows(idKey, column, ids, values).value == mid + RowsFor(idKey, column, ids[|ids| - 1], vs);
      assert (mid + RowsFor(idKey, column, ids[|ids| - 1], vs))[..|pre|] == mid[..|pre|];
    } else {
      assert ids[..k] == ids;
    }
  }

  /** One step of the outer loop: the rows for the last id follow those for the others. */
  lemma AddRowsSnoc(idKey: string, column: string, ids: seq<Value>, values: Value, vs: seq<Value>)
    requires Each(values) == Ok(vs) && |ids| > 0
    ensures AddRows(idKey, column, ids[..|ids| - 1], values).Ok?
    ensures AddRows(idKey, column, ids, values)
         == Ok(AddRows(idKey, column, ids[..|ids| - 1], values).value + RowsFor(idKey, column, ids[|ids| - 1], vs))
  {
    AddRowsOk(idKey, column, ids[..|ids| - 1], values, vs);
  }

  /** An element of the second part of a prefix of `rows`. */
  lemma PrefixAt<T>(rows: seq<T>, pre: seq<T>, block: seq<T>, j: int)
    requires |pre + block| <= |rows| && rows[..|pre + block|] == pre + block && 0 <= j < |block|
    ensures |pre| + j < |rows| && rows[|pre| + j] == block[j]
  {
    assert rows[|pre| + j] == rows[..|pre + block|][|pre| + j];
  }

  /** The rows for the i-th id follow the rows of the ids before it, one per value in
      order; with `AddRowsLength`, row `i * |vs| + j` pairs `ids[i]` with `vs[j]`. */
  lemma AddRowsAt(idKey: string, column: string, ids: seq<Value>, values: Value, vs: seq<Value>, i: int, j: int)
    requires Each(values) == Ok(vs)
    requires 0 <= i < |ids| && 0 <= j < |vs|
    ensures AddRows(idKey, column, ids, values).Ok? && AddRows(idKey, column, ids[..i], values).Ok?
    ensures |AddRows(idKey, column, ids[..i], values).value| + j < |AddRows(idKey, column, ids, values).value|
    ensures AddRows(idKey, column, ids, values).value[|AddRows(idKey, column, ids[..i], values).value| + j]
         == Row(idKey, column, ids[i], vs[j])
  {
    AddRowsOk(idKey, column, ids, values, vs);
    AddRowsOk(idKey, column, ids[..i], values, vs);
    var pre := AddRows(idKey, column, ids[..i], values).value;
    var rows := AddRows(idKey, column, ids, values).value;
    assert |pre| + j < |rows| && rows[|pre| + j] == Row(idKey, column, ids[i], vs[j]) by {
      AddRowsExtends(idKey, column, ids, values, vs, i + 1);
      var upto := ids[..i + 1];
      assert upto[..|upto| - 1] == ids[..i];
      assert upto[i] == ids[i];
      var block := RowsFor(idKey, column, ids[i], vs);
      AddRowsSnoc(idKey, column, upto, values, vs);
      var mid := AddRows(idKey, column, upto, values).value;
      assert mid == pre + block;
      assert rows[..|mid|] == mid;
      PrefixAt(rows, pre, block, j);
    }
  }

  /** The `add` data is the cross product of ids and values, ids outermost: row
      `i * |vs| + j` pairs the i-th id with the j-th value. */
  lemma AddRowsProduct(idKey: string, column: string, ids: seq<Value>, values: Value, vs: seq<Value>, i: int, j: int)
    requires Each(values) == Ok(vs)
    requires 0 <= i < |ids| && 0 <= j < |vs|
    ensures AddRows(idKey, column, ids, values).Ok?
    ensures i * |vs| + j < |AddRows(idKey, column, ids, values).value|
    ensures AddRows(idKey, column, ids, values).value[i * |vs| + j] == Row(idKey, column, ids[i], vs[j])
  {
    AddRowsAt(idKey, column, ids, values, vs, i, j);
    AddRowsLength(idKey, column, ids[..i], values, vs);
  }

  /** Every row pairs its id and its value under the two keys the upsert is unique by. */
  lemma RowHoldsBoth(idKey: string, column: string, id: Value, v: Value)
    requires idKey != column
    ensures Lookup(Row(idKey, column, id, v), idKey) == Some(id)
    ensures Lookup(Row(idKey, column, id, v), column) == Some(v)
    ensures Keys(Row(idKey, column, id, v)) == [idKey, column]
  {
    LookupPut([Entry(idKey, id)], column, v, idKey);
    LookupPut([Entry(idKey, id)], column, v, column);
    KeysPut([Entry(idKey, id)], column, v);
  }

  /** With no ids the inner loop never runs, so `value` is never enumerated: the data is
      empty whatever `value` holds. */
  lemma NoIdsNoRows(idKey: string, column: string, values: Value)
    ensures AddData(idKey, column, List([]), values) == Ok([])
  {
  }

  /** An update dispatches through the association exactly when the type is
      `relationship` and `multiple` reads as true; otherwise it is `update_default`. */
  lemma UpdateDispatch(exec: Executor, res: Resource, p: BatchParams)
    ensures (p.typ == Str(TypeRelationship) && MultipleFlag(p.multiple))
            ==> ProcessUpdate(exec, res, p) == UpdateHasMany(exec, res, p)
    ensures !(p.typ == Str(TypeRelationship) && MultipleFlag(p.multiple))
            ==> ProcessUpdate(exec, res, p) == Ok(exec(UpdateAll(ByIds(res.table, p.ids), [Entry(p.attributeName, p.value)])))
  {
  }

  /** `remove` deletes the associated rows whose foreign key is among the ids and whose
      column holds the value. */
  lemma RemoveCriteria(klass: string, idKey: string, column: string, ids: Value, v: Value)
    requires idKey != column
    ensures RemoveQuery(klass, idKey, column, ids, v) == Query(klass, [Where(Eq(idKey, ids)), Where(Eq(column, v))])
  {
    assert Put([Entry(idKey, ids)], column, v) == [Entry(idKey, ids), Entry(column, v)];
  }

  /** `add` inserts the cross product of ids and values into the associated table,
      unique by the column and the foreign key. */
  lemma UpdateHasManyAdd(exec: Executor, res: Resource, p: BatchParams)
    requires p.associationColumn.Some? && p.associationName.Some? && p.associationName.value in res.schema
    requires p.operator == Str(OperatorAdd)
    requires (p.ids.List? || p.ids.Hash?) && (p.value.List? || p.value.Hash?)
    ensures var assoc := res.schema[p.associationName.value];
            var column := p.associationColumn.value;
            AddData(assoc.foreignKey, column, p.ids, p.value).Ok?
            && UpdateHasMany(exec, res, p)
               == Ok(exec(InsertAll(assoc.klass, AddData(assoc.foreignKey, column, p.ids, p.value).value, [column, assoc.foreignKey])))
  {
    var assoc := res.schema[p.associationName.value];
    AddRowsOk(assoc.foreignKey, p.associationColumn.value, Each(p.ids).value, p.value, Each(p.value).value);
  }

  /** An `add` whose ids cannot be enumerated raises. */
  lemma AddWithoutEnumerableIdsRaises(exec: Executor, res: Resource, p: BatchParams)
    requires p.associationColumn.Some? && p.associationName.Some? && p.associationName.value in res.schema
    requires p.operator == Str(OperatorAdd)
    requires !p.ids.List? && !p.ids.Hash?
    ensures UpdateHasMany(exec, res, p).Err?
  {
  }

  /** An `add` with at least one id and a value that cannot be enumerated raises: the
      inner `each` is reached for the first id. */
  lemma AddWithoutEnumerableValueRaises(exec: Executor, res: Resource, p: BatchParams)
    requires p.associationColumn.Some? && p.associationName.Some? && p.associationName.value in res.schema
    requires p.operator == Str(OperatorAdd)
    requires (p.ids.List? || p.ids.Hash?) && |Each(p.ids).value| > 0
    requires !p.value.List? && !p.value.Hash?
    ensures UpdateHasMany(exec, res, p).Err?
  {
    var xs := Each(p.ids).value;
    assert xs[..|xs| - 1][..0] == [];
    AddRowsFirstRaises(res.schema[p.associationName.value].foreignKey, p.associationColumn.value, xs, p.value);
  }

  /** With at least one id, building the rows raises whenever the value cannot be
      enumerated. */
  lemma {:induction false} AddRowsFirstRaises(idKey: string, column: string, ids: seq<Value>, values: Value)
    requires |ids| > 0 && Each(values).Err?
    ensures AddRows(idKey, column, ids, values).Err?
  {
    if |ids| > 1 {
      AddRowsFirstRaises(idKey, column, ids[..|ids| - 1], values);
    }
  }

  /** `remove` destroys, in the associated table, the rows matching the foreign key and
      the column together. */
  lemma UpdateHasManyRemove(exec: Executor, res: Resource, p: BatchParams)
    requires p.associationColumn.Some? && p.associationName.Some? && p.associationName.value in res.schema
    requires p.operator == Str(OperatorRemove)
    requires res.schema[p.associationName.value].foreignKey != p.associationColumn.value
    ensures var assoc := res.schema[p.associationName.value];
            UpdateHasMany(exec, res, p)
            == Ok(exec(DestroyAll(Query(assoc.klass, [Where(Eq(assoc.foreignKey, p.ids)), Where(Eq(p.associationColumn.value, p.value))]))))
  {
    var assoc := res.schema[p.associationName.value];
    RemoveCriteria(assoc.klass, assoc.foreignKey, p.associationColumn.value, p.ids, p.value);
  }

  /** A missing `association_column` raises before any statement, whatever the operator. */
  lemma MissingColumnRaises(exec: Executor, res: Resource, p: BatchParams)
    requires p.associationColumn.None?
    ensures UpdateHasMany(exec, res, p) == Err(NoMethod("to_sym"))
  {
  }

  /** An exception with a blank message is answered as success. */
  lemma BlankMessageIsSuccess(msg: string)
    requires BlankString(msg)
    ensures Respond(Some(msg)) == StatusOk
  {
  }
}
