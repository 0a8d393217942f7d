# resource-api, modelled in Dafny

resource-api is a Rails engine. Its generic REST controller (`Api::ResourceController`) and
serializer (`BaseSerializer`) turn a few class-level declarations into index, show and
batch endpoints. This project models the decision logic of that layer and proves what it
promises:

- the class-level registries (`joins`, `left_joins`, `preloads`, `per_page`,
  `search_attributes`, `search_methods`, `sort_methods`, `index_attributes`,
  `show_attributes`, `allow_params`);
- the query composer: `build_query`, free-text search, filters and sorting;
- the controller's parameter shaping: `per_page`, `rename_params` and the blank-to-nil
  coercion;
- the serializer's walk over a declarative attribute list;
- batch-update planning;
- the preloader's branch tree;
- the `String#to_bool` and `String#is_integer?` extensions.

ActiveRecord relations are symbolic: a `Query` is a table and the ordered list of clauses
the fluent calls added (`Queries`). Association reflection is a schema map from
association name to macro (`Resource`). Records are finite trees of values (`Values.Value`).
An exception becomes an `Err(Fault)`, and a nil relation is an `Option<Query>`. Hooks
(`process_filter`, search and sort methods, `apply_filters`), `DateTime.parse` and the
database are parameters.

Class-level state is a Dafny `class` with `seq` fields and appending methods. The loops
of the source (`each`, `map` and the `while`-like walks) are `method`s with `while` loops.
Each such method is proved equal to a recursive specification function, and the lemmas are
proved about those functions. Two iterations are functions instead, because they build a
value without updating anything: the `inject` of `prepare_params` is `BlankToNil`, and the
`flat_map` of the preloader's `build_children` is `BuildChildren`/`BuildPairs`.

Where the gem's own description and its code disagree, the model follows the code:

- `show_attributes` appends like `index_attributes`; it does not replace.
- `less_than` and `greater_than` are accepted operators but filter nothing.
- A failed batch statement is answered with its message string, not an array of errors.
- `prepare_params` turns blank strings to nil only at the top level of the permitted
  hash. Whitespace-only strings count as blank too.

## Model

| member | source | states |
|---|---|---|
| StringExt.SingleLineToBool | lib/extensions/string.rb:6-9 | on a one-line string, `to_bool` is true iff the string is `true`, `t`, `yes`, `y` or `1` up to case, and false for every other string |
| StringExt.AnyLineToBool | lib/extensions/string.rb:7 | `^`/`$` are line anchors: one matching line anywhere makes `to_bool` true |
| StringExt.DecimalStringParses | lib/extensions/string.rb:2-4 | `Integer(n.to_s) == n` for every integer, so `is_integer?` holds for every optionally signed decimal rendering |
| StringExt.BlankIsNotInteger | lib/extensions/string.rb:3 | `is_integer?` is false for the empty string and for white space |
| StringExt.IntegerToBool | app/controllers/concerns/api/batch_updateable.rb:36 | `n.to_s.to_bool` holds for the integer 1 and for no other integer |
| StringExt.DecimalPrefixIsPrefix | app/controllers/api/resource_controller.rb:161 | what `to_i` reads is a prefix of the text after the sign |
| StringExt.DecimalPrefixRun | app/controllers/api/resource_controller.rb:161 | what `to_i` reads is empty or a digit run with single underscores between digits |
| StringExt.DecimalStringToI | app/controllers/api/resource_controller.rb:161 | `n.to_s.to_i == n` |
| Queryable.Registry.constructor | app/controllers/concerns/api/queryable.rb:7-28 | the relationship lists start empty and `per_page` unset |
| Queryable.Registry.Joins | app/controllers/concerns/api/queryable.rb:7-11 | appends the arguments in order (none: list unchanged) and returns the whole list |
| Queryable.Registry.LeftJoins | app/controllers/concerns/api/queryable.rb:13-17 | appends the arguments in order and returns the whole list |
| Queryable.Registry.Preloads | app/controllers/concerns/api/queryable.rb:24-28 | appends the arguments in order and returns the whole list |
| Queryable.Registry.PerPage | app/controllers/concerns/api/queryable.rb:19-22 | a given value replaces the stored one; the answer is the stored value or 10 |
| Queryable.ApplyRelationships | app/controllers/concerns/api/queryable.rb:40-71 | one `apply_*` loop appends exactly the `Attached` clauses, keeping the table |
| Queryable.BuildQuery | app/controllers/concerns/api/queryable.rb:30-36 | preloads, then joins, then left joins |
| Queryable.AttachedMembers | app/controllers/concerns/api/queryable.rb:40-76 | a clause is attached iff it attaches a registered relationship that `skip_relationship?` does not skip |
| Queryable.IndexAttachesNoHasMany | app/controllers/concerns/api/queryable.rb:73-76 | on `index`, no attached relationship (or hash's first key) is a has-many association |
| Queryable.AttachedOutsideIndex | app/controllers/concerns/api/queryable.rb:73-76 | outside `index` every relationship is attached, in registration order |
| Searchable.Registry.constructor | app/controllers/concerns/api/searchable.rb:5-15 | both lists start empty |
| Searchable.Registry.SearchAttributes | app/controllers/concerns/api/searchable.rb:5-9 | appends the arguments in call order and returns the whole list |
| Searchable.Registry.SearchMethods | app/controllers/concerns/api/searchable.rb:11-15 | appends the arguments in call order and returns the whole list |
| Searchable.ResolveSearchAttribute | app/controllers/concerns/api/searchable.rb:35-41 | a symbol resolves to `table.attr`, a string is used verbatim, anything else to nil |
| Searchable.ApplySearchable | app/controllers/concerns/api/searchable.rb:45-69 | the loop building `or_query` computes `SearchableF` |
| Searchable.ApplySearch | app/controllers/concerns/api/searchable.rb:20-28 | threads `item_class.all` through `apply_searchable` and each search method, then merges into the query |
| Searchable.OrChainDisjuncts | app/controllers/concerns/api/searchable.rb:52-62 | the OR chain is left-nested with one `ILIKE %term%` test per attribute, in registration order |
| Searchable.SearchableOnAll | app/controllers/concerns/api/searchable.rb:45-69 | identity when the term is blank or no attribute is registered; otherwise `all` merged with the OR chain |
| Searchable.SearchAddsOneClause | app/controllers/concerns/api/searchable.rb:20-28 | with a present term and attributes, the search adds exactly the one OR clause to the query |
| Searchable.OrChainTable | app/controllers/concerns/api/searchable.rb:54-62 | the OR chain is over the resource's table |
| Searchable.BlankSearchIsIdentity | app/controllers/concerns/api/searchable.rb:20-50 | a blank term (or no attributes) and no search methods leave the query unchanged |
| Sortable.Registry.constructor | app/controllers/concerns/api/sortable.rb:5-9 | the list starts empty |
| Sortable.Registry.SortMethods | app/controllers/concerns/api/sortable.rb:5-9 | appends the arguments and returns the whole list |
| Sortable.Direction | app/controllers/concerns/api/sortable.rb:28 | descending iff `sort_direction == 'descending'` |
| Sortable.SortKeys | app/controllers/concerns/api/sortable.rb:27 | an array is used as it is, any other value as a one-element list |
| Sortable.ToSym | app/controllers/concerns/api/sortable.rb:31 | only a string has `to_sym`, and it keeps the text |
| Sortable.ApplyDefaultSort | app/controllers/concerns/api/sortable.rb:24-35 | the loop over the sort keys computes `DefaultSortF`, stopping at the first failing key |
| Sortable.ApplySort | app/controllers/concerns/api/sortable.rb:13-22 | sort methods in registration order, then the default sort, then `order(:id)` |
| Sortable.OrderByKeys | app/controllers/concerns/api/sortable.rb:30-32 | string keys append one `Order(key, d)` each, in order, with one shared direction |
| Sortable.OrderByStops | app/controllers/concerns/api/sortable.rb:30-32 | once a key raises, later keys are never reached |
| Sortable.OrderByFails | app/controllers/concerns/api/sortable.rb:31 | a non-string key makes the default sort raise |
| Sortable.SortEndsWithId | app/controllers/concerns/api/sortable.rb:18-19 | every successful sort ends with `id` ascending |
| Sortable.HookOrderWins | app/controllers/concerns/api/sortable.rb:14-25 | when a sort method already ordered the query, the default sort is skipped |
| Sortable.DefaultSortIdempotent | app/controllers/concerns/api/sortable.rb:25 | applying the default sort twice equals applying it once |
| Filterable.Index | app/controllers/concerns/api/filterable.rb:73 | `date[:key]` on a hash reads the entry, nil when absent |
| Filterable.ApplyFilterable | app/controllers/concerns/api/filterable.rb:22-45 | the loop over the filters computes `FoldFilters` (no filters: the query unchanged) |
| Filterable.FoldStops | app/controllers/concerns/api/filterable.rb:25-42 | once a filter raises, the later filters are never applied |
| Filterable.FoldAppend | app/controllers/concerns/api/filterable.rb:25-44 | filters apply left to right: `fs + gs` is `gs` applied to the result of `fs` |
| Filterable.HookWins | app/controllers/concerns/api/filterable.rb:29-32 | a non-nil `process_filter` answer replaces the built-in dispatch |
| Filterable.AssociationIgnoresType | app/controllers/concerns/api/filterable.rb:33-34 | with an association present, the filter type is never looked at |
| Filterable.OtherTypesAreDefault | app/controllers/concerns/api/filterable.rb:35-41 | any type other than boolean and date goes to `filter_default` |
| Filterable.FilterDefault | app/controllers/concerns/api/filterable.rb:81-101 | on a present query it never raises, keeps the table and appends at most one clause, exactly one iff the operator is one of the six it knows; on a nil query it raises exactly when an operator applies |
| Filterable.FilterBoolean | app/controllers/concerns/api/filterable.rb:65-67 | equals `filter_default` with the operator forced to `equal` |
| Filterable.BooleanIsEquality | app/controllers/concerns/api/filterable.rb:35-67 | a boolean filter without an association adds `where(attribute => value)`, whatever its operator |
| Filterable.FilterDate | app/controllers/concerns/api/filterable.rb:69-79 | a value that is neither a hash nor a record raises |
| Filterable.DateBothBounds | app/controllers/concerns/api/filterable.rb:69-79 | with both bounds present, the result is `where(attribute => start..end)` of the parsed bounds; it raises iff a bound is not a string or does not parse, or the query is nil |
| Filterable.FilterHasMany | app/controllers/concerns/api/filterable.rb:103-132 | a missing column raises; on a present query it keeps the table and appends at most one clause, exactly one iff the operator is one `filter_default` knows, and that clause is an EXISTS test over the associated table correlated on column = parent id |
| Filterable.FilterAssociation | app/controllers/concerns/api/filterable.rb:56-63 | a name that is no association yields nil; on a present query, nil is answered only for such a name |
| Filterable.AssociationToOne | app/controllers/concerns/api/filterable.rb:57-59 | a belongs-to or has-one association appends the join, then the operator's clause, if any |
| Filterable.DefaultOperatorPairs | app/controllers/concerns/api/filterable.rb:85-97 | equal/not_equal, contain/not_contain and empty/not_empty add a `where` and its `where.not`: `equal` is `where(attribute => value)`, `contain` is `attribute ILIKE %value%`, `empty` is `where(attribute => nil)` |
| Filterable.ComparisonOperatorsAreNoOps | app/controllers/concerns/api/filterable.rb:81-101 | `less_than`/`greater_than` leave the query unchanged |
| Filterable.DateNeedsBothBounds | app/controllers/concerns/api/filterable.rb:73 | a date filter with a blank `startDate` or `endDate` is a no-op |
| Filterable.HasManyPredicateInside | app/controllers/concerns/api/filterable.rb:103-124 | for equal, not_equal, contain and not_contain the `filter_default` clause of the operator is applied inside the correlated, scoped subquery, and the query keeps the rows where it EXISTS |
| Filterable.HasManyEmptyPair | app/controllers/concerns/api/filterable.rb:113-128 | `empty` is NOT EXISTS and `not_empty` is EXISTS over the same subquery, keyed on column = parent id and merged with the scope |
| Filterable.NilStaysNil | app/controllers/concerns/api/filterable.rb:56-63 | the built-in handling never turns a nil query back into a relation |
| Filterable.StepExtends | app/controllers/concerns/api/filterable.rb:29-41 | one built-in step keeps the table and only appends clauses, or yields nil |
| Filterable.FiltersOnlyAppend | app/controllers/concerns/api/filterable.rb:22-45 | with the built-in handling, a filtered query is the input with clauses appended, or nil |
| BatchUpdateable.Respond | app/controllers/concerns/api/batch_updateable.rb:9-27 | `{status: ok}` iff the error is nil or blank, otherwise the message with status 400 |
| BatchUpdateable.BatchDelete | app/controllers/concerns/api/batch_updateable.rb:9-17 | success iff destroying the rows with the given ids raises nothing (or a blank message) |
| BatchUpdateable.MultipleFlag | app/controllers/concerns/api/batch_updateable.rb:36 | `multiple.to_s.to_bool`: a string by `to_bool`, an integer iff 1, a boolean itself, nil and collections false |
| BatchUpdateable.Each | app/controllers/concerns/api/batch_updateable.rb:104 | an array yields its items and a hash its `[key, value]` pairs, in order; anything else raises |
| BatchUpdateable.RowsFor | app/controllers/concerns/api/batch_updateable.rb:104-106 | one row `{fk => id, col => v}` per value, in order |
| BatchUpdateable.BuildAddData | app/controllers/concerns/api/batch_updateable.rb:100-107 | the nested loops compute `AddData` |
| BatchUpdateable.AppendRows | app/controllers/concerns/api/batch_updateable.rb:104-106 | the inner loop appends `RowsFor` the id |
| BatchUpdateable.AddRowsStops | app/controllers/concerns/api/batch_updateable.rb:103-107 | an `each` that raises ends the loops |
| BatchUpdateable.AddRowsLength | app/controllers/concerns/api/batch_updateable.rb:100-107 | the row count is `|ids| × |values|` |
| BatchUpdateable.AddRowsOk | app/controllers/concerns/api/batch_updateable.rb:103-107 | once `value` can be enumerated, building the rows cannot fail |
| BatchUpdateable.AddRowsExtends | app/controllers/concerns/api/batch_updateable.rb:103-107 | the rows for a prefix of the ids are a prefix of the rows for all of them |
| BatchUpdateable.AddRowsAt | app/controllers/concerns/api/batch_updateable.rb:103-107 | the rows for `ids[i]` come right after those of the earlier ids, row `j` pairing `ids[i]` with `values[j]` |
| BatchUpdateable.AddRowsProduct | app/controllers/concerns/api/batch_updateable.rb:100-107 | the `add` data is the id × value product, ids outermost: row `i·|values| + j` pairs `ids[i]` with `values[j]` |
| BatchUpdateable.RowHoldsBoth | app/controllers/concerns/api/batch_updateable.rb:105-109 | each row has exactly the two keys the insert is unique by, holding its id and value |
| BatchUpdateable.NoIdsNoRows | app/controllers/concerns/api/batch_updateable.rb:103-104 | with no ids the data is empty and `value` is never enumerated |
| BatchUpdateable.AddData | app/controllers/concerns/api/batch_updateable.rb:101-107 | building the `add` data raises only when the ids or the values cannot be enumerated |
| BatchUpdateable.ProcessUpdate | app/controllers/concerns/api/batch_updateable.rb:35-43 | it can raise only on the has-many path (type `relationship` and `multiple` truthy) |
| BatchUpdateable.BatchUpdate | app/controllers/concerns/api/batch_updateable.rb:19-27 | raises iff `process_update` does; otherwise success iff the error is nil or blank, else the message with status 400 |
| BatchUpdateable.UpdateDefault | app/controllers/concerns/api/batch_updateable.rb:71-90 | the answer is the database's answer to the one `update_all` on the given ids whose attribute hash holds exactly `attribute_name => value` |
| BatchUpdateable.SetsOneUnique | app/controllers/concerns/api/batch_updateable.rb:85-90 | exactly one statement sets only `attribute_name` on the given ids |
| BatchUpdateable.UpdateHasMany | app/controllers/concerns/api/batch_updateable.rb:92-120 | raises iff the column or association name is missing, the association is unknown, or `add` meets ids or values that cannot be enumerated; any operator other than `add` and `remove` issues nothing and answers nil |
| BatchUpdateable.UpdateHasManyAdd | app/controllers/concerns/api/batch_updateable.rb:100-109 | when ids and values are both an array or a hash, `add` issues `insert_all` of the `add` data into the associated table, unique by the column and the foreign key |
| BatchUpdateable.AddWithoutEnumerableIdsRaises | app/controllers/concerns/api/batch_updateable.rb:100-103 | `add` raises when the ids are neither an array nor a hash |
| BatchUpdateable.AddWithoutEnumerableValueRaises | app/controllers/concerns/api/batch_updateable.rb:100-104 | `add` with at least one id raises when the value is neither an array nor a hash |
| BatchUpdateable.AddRowsFirstRaises | app/controllers/concerns/api/batch_updateable.rb:103-104 | with at least one id, the inner `each` over a value that cannot be enumerated raises |
| BatchUpdateable.UpdateHasManyRemove | app/controllers/concerns/api/batch_updateable.rb:110-116 | `remove` destroys the associated rows matching both the foreign key and the column |
| BatchUpdateable.UpdateDispatch | app/controllers/concerns/api/batch_updateable.rb:35-43 | the has-many path iff type is `relationship` and `multiple` is truthy, else `update_default` |
| BatchUpdateable.RemoveCriteria | app/controllers/concerns/api/batch_updateable.rb:110-116 | `remove` deletes the rows whose fk is in `ids` and whose column is in `value` |
| BatchUpdateable.MissingColumnRaises | app/controllers/concerns/api/batch_updateable.rb:94 | a missing `association_column` raises before any statement |
| BatchUpdateable.BlankMessageIsSuccess | app/controllers/concerns/api/batch_updateable.rb:9-27 | an exception with a blank message is answered as success |
| ObjectSerializer.Registry.constructor | app/serializers/concerns/object_serializer.rb:6-32 | both attribute lists start empty |
| ObjectSerializer.Registry.IndexAttributes | app/serializers/concerns/object_serializer.rb:6-18 | appends `Registered(attrs, block)` and returns the list; nothing is removed or reordered |
| ObjectSerializer.Registry.ShowAttributes | app/serializers/concerns/object_serializer.rb:20-32 | appends `Registered(attrs, block)` and returns the list |
| ObjectSerializer.Registered | app/serializers/concerns/object_serializer.rb:9-13 | no arguments: nothing; one name and a block: one `{name => block}` holding exactly that block; otherwise the arguments in order |
| BaseSerializer.Send | app/serializers/base_serializer.rb:51 | `item.send(name)` succeeds iff the item is a record with that attribute |
| BaseSerializer.KindOf | app/serializers/base_serializer.rb:115-125 | the association macro `name` was declared with on the item's class (which one, when there is one); only a record can be reflected on |
| BaseSerializer.Related | app/serializers/base_serializer.rb:69 | only a collection can be enumerated |
| BaseSerializer.Serializer.constructor | app/serializers/base_serializer.rb:7-10 | keeps the class, current user and options |
| BaseSerializer.Serializer.RenderIndex | app/serializers/base_serializer.rb:12-29 | computes `RenderIndexF` |
| BaseSerializer.Serializer.RenderShow | app/serializers/base_serializer.rb:31-42 | computes `RenderShowF` |
| BaseSerializer.Serializer.SerializeEach | app/serializers/base_serializer.rb:18-26 | the `serialized <<` loop computes `SerializeEachF` |
| BaseSerializer.Serializer.ExtractAll | app/serializers/base_serializer.rb:21-23 | the attribute loop computes `ExtractAllF` |
| BaseSerializer.Serializer.ExtractValue | app/serializers/base_serializer.rb:46-113 | computes `ExtractF` |
| BaseSerializer.Serializer.ExtractEntries | app/serializers/base_serializer.rb:55-111 | the loop over an attribute hash's keys computes `ExtractEntriesF`, stopping at the first key that raises |
| BaseSerializer.Serializer.ExtractEntry | app/serializers/base_serializer.rb:55-110 | one key of an attribute hash computes `ExtractEntryF` |
| BaseSerializer.SerializeEachStops | app/serializers/base_serializer.rb:18-26 | an item that raises ends the loop |
| BaseSerializer.ExtractAllStops | app/serializers/base_serializer.rb:37-39 | an attribute that raises ends the loop |
| BaseSerializer.ExtractEntriesStops | app/serializers/base_serializer.rb:55-111 | a key that raises ends the loop |
| BaseSerializer.RenderNil | app/serializers/base_serializer.rb:12-32 | `render_index(nil)` is `[]` and `render_show(nil)` is `{}` |
| BaseSerializer.FlattenIsFlat | app/serializers/base_serializer.rb:18 | `[v].flatten` holds no array, and a non-array is wrapped alone |
| BaseSerializer.FlattenAllIsFlat | app/serializers/base_serializer.rb:18 | flattening a list leaves no array inside |
| BaseSerializer.FlattenAllOfFlat | app/serializers/base_serializer.rb:18 | flattening a flat list changes nothing |
| BaseSerializer.SerializeEachShape | app/serializers/base_serializer.rb:18-26 | one hash per item, in order, each filled from an empty hash |
| BaseSerializer.RenderIndexSingle | app/serializers/base_serializer.rb:12-29 | a single record renders as a one-element list |
| BaseSerializer.AbsentItemWritesNothing | app/serializers/base_serializer.rb:47 | an absent item writes nothing |
| BaseSerializer.FieldWrites | app/serializers/base_serializer.rb:50-51 | a symbol attribute stores the item's value under its name and changes no other key |
| BaseSerializer.ComputedWrites | app/serializers/base_serializer.rb:59-60 | a proc entry stores `proc(item, current_user, options)` under its key |
| BaseSerializer.InlineHasMany | app/serializers/base_serializer.rb:63-77 | a nested list on a has-many key stores a list whose element `i` is related record `i`'s attributes extracted into a fresh hash |
| BaseSerializer.InlineToOne | app/serializers/base_serializer.rb:80-90 | a nested list on a to-one key stores the related record's attributes extracted into a fresh hash (`{}` when nothing is associated), and raises iff that extraction does |
| BaseSerializer.SerializerHasMany | app/serializers/base_serializer.rb:98-104 | a serializer on a has-many key stores `render_index(related_items)`, and raises iff that rendering does |
| BaseSerializer.RenderIndexCollection | app/serializers/base_serializer.rb:12-27 | `render_index` of a collection of records gives one hash per record, in order, from the index attributes |
| BaseSerializer.SerializerToOne | app/serializers/base_serializer.rb:94-96 | a serializer on a to-one key stores `render_index(related).first`, or nil |
| BaseSerializer.SerializerDelegates | app/serializers/base_serializer.rb:107-109 | a serializer on a non-association key renders the item itself, as a list |
| BaseSerializer.NoBranchNoKey | app/serializers/base_serializer.rb:54-111 | an entry that matches no branch adds no key |
| BaseSerializer.EntriesKeepKeys | app/serializers/base_serializer.rb:55-111 | extracting an attribute hash never drops a key |
| BaseSerializer.EntryKeepsKeys | app/serializers/base_serializer.rb:55-110 | one entry never drops a key |
| BaseSerializer.ExtractAllKeepsKeys | app/serializers/base_serializer.rb:46-113 | extraction only adds keys |
| Preloader.Preloader.constructor | lib/active_record/preloader.rb:9-24 | the root branch has no association, the given scope and `associate_by_default`, the built children, and the records as `preloaded_records`; nil available records read as `[]` |
| Preloader.Preloader.Branches | lib/active_record/preloader.rb:26-28 | the root's children |
| Preloader.DeepScopeFree | lib/active_record/preloader.rb:39 | children built by a non-root branch carry no scope, at any depth |
| Preloader.OneScopeFree | lib/active_record/preloader.rb:33-41 | every branch one element of a non-root list builds is scope-free |
| Preloader.PairsScopeFree | lib/active_record/preloader.rb:33-41 | a branch built from a hash entry has scope-free children |
| Preloader.RootScopeFirstLevelOnly | lib/active_record/preloader.rb:31-43 | first-level branches get the root's scope, and nothing below them has one |
| Preloader.PairsScope | lib/active_record/preloader.rb:39 | hash entries of the root's list get the root's scope |
| Preloader.AssociateInherited | lib/active_record/preloader.rb:38 | every built branch inherits `associate_by_default` |
| Preloader.PairsAssociate | lib/active_record/preloader.rb:38 | branches built from hash entries inherit `associate_by_default` at every depth |
| Preloader.BranchNames | lib/active_record/preloader.rb:31-43 | the branches name the list's associations in order, one per symbol and one per hash key |
| Preloader.PairNames | lib/active_record/preloader.rb:33-37 | a hash yields one branch per key, in order |
| Resourceable.Model.constructor | app/models/concerns/resourceable.rb:17-19 | `permitted_params` is nil before any `allow_params` call |
| Resourceable.Model.AllowParams | app/models/concerns/resourceable.rb:12-15 | appends the arguments to the list (or to `[]`) and returns the whole list |
| Resourceable.Model.PermittedParams | app/models/concerns/resourceable.rb:17-19 | answers the stored list and changes nothing |
| Resourceable.Accumulated | app/models/concerns/resourceable.rb:12-15 | nil exactly when no call has been made |
| Resourceable.AccumulatedIsConcat | app/models/concerns/resourceable.rb:13-14 | after any calls, empty ones included, the list is the concatenation of all arguments |
| Resourceable.AllowAll | app/models/concerns/resourceable.rb:12-19 | a series of calls leaves `Accumulated` of their arguments |
| ResourceController.ParamCount | app/controllers/api/resource_controller.rb:161 | a count exists iff the key is given with a value that answers `to_i` (nil, integer, string) |
| ResourceController.PerPage | app/controllers/api/resource_controller.rb:159-180 | a positive parameter count wins; otherwise the class value; ≤ 0 means every record, or the class value when there are none; positive whenever the class value is |
| ResourceController.NonNumericPerPage | app/controllers/api/resource_controller.rb:161 | a string with no digit after its leading white space and sign (empty, a letter, `_`, a second sign) reads as 0 |
| ResourceController.FirstOccurrence | app/controllers/api/resource_controller.rb:122 | the first position where the pattern occurs, if any |
| ResourceController.SubFirst | app/controllers/api/resource_controller.rb:122 | `sub(pat, '')` removes the first occurrence, or leaves the string as it was |
| ResourceController.AttributesStem | app/controllers/api/resource_controller.rb:122 | `x_attributes` is looked up as `x` |
| ResourceController.Rename | app/controllers/api/resource_controller.rb:117-143 | the in-place loops compute `RenameF` |
| ResourceController.RenameEntries | app/controllers/api/resource_controller.rb:121-139 | the loop over one permit hash's keys computes `RenameEntriesF`, stopping at the first key that raises |
| ResourceController.RenameEntry | app/controllers/api/resource_controller.rb:121-138 | one nested-attributes key computes `RenameEntryF` |
| ResourceController.RenameEach | app/controllers/api/resource_controller.rb:128-135 | the element-wise `map` computes `RenameListF` |
| ResourceController.RenameParams | app/controllers/api/resource_controller.rb:108 | raises when no params were allowed, else renames with the permit list |
| ResourceController.RenameStops | app/controllers/api/resource_controller.rb:118-140 | a permit entry that raises ends the renaming |
| ResourceController.EntriesStop | app/controllers/api/resource_controller.rb:121-139 | a key that raises ends the inner loop |
| ResourceController.ListStops | app/controllers/api/resource_controller.rb:129-135 | an element that raises ends the `map` |
| ResourceController.PlainPermitsRenameNothing | app/controllers/api/resource_controller.rb:119 | permit entries that are not hashes rename nothing |
| ResourceController.BlankParamUntouched | app/controllers/api/resource_controller.rb:124 | an absent or blank parameter is left untouched |
| ResourceController.PresentParamMoves | app/controllers/api/resource_controller.rb:124-137 | a present scalar or non-integer-keyed hash is deleted from its stem name and stored unchanged under `k`; other keys keep their values |
| ResourceController.ArrayParamRenamed | app/controllers/api/resource_controller.rb:128-131 | an array is stored under `k`, renamed element by element |
| ResourceController.RenameListPointwise | app/controllers/api/resource_controller.rb:128-135 | the element-wise renaming keeps the length and order, each element renamed by itself |
| ResourceController.IntegerKeyedParamRenamed | app/controllers/api/resource_controller.rb:132-135 | an integer-keyed hash becomes the list of its renamed values, in the hash's key (insertion) order |
| ResourceController.BlankToNilKeys | app/controllers/api/resource_controller.rb:114 | the coercion keeps the keys and their order |
| ResourceController.BlankToNilLookup | app/controllers/api/resource_controller.rb:114 | blank strings become nil, and every other value is kept |
| ResourceController.IndexQuery | app/controllers/api/resource_controller.rb:33-38 | `base_query`, `build_query`, `apply_search`, `apply_filters`, `apply_sort` in that order; the result ends with `id` ascending |
| ResourceController.ShowQuery | app/controllers/api/resource_controller.rb:57-59 | `base_query` then `build_query`, with every relationship attached in order |

## Left out

- SQL execution: `where`, `joins`, `merge`, `exists`, `find`, `destroy_all`, `insert_all` and `update_all` are symbolic clauses or statements. The database is an `Executor` parameter that answers an exception message or nothing.
- ILIKE matching and `order_values` internals: a search or filter test is a symbolic predicate, and ordering is the presence of an `Order` clause.
- Pagination (`pagy`, `pagy_metadata`), rendering (`render json:`) and strong parameters (`require`/`permit`) are framework code. `IndexQuery` stops at the sorted query, and the blank-to-nil fold starts from the permitted hash.
- `create`, `update` and `destroy` persist records (`save`, `update`, `destroy`) and report validation errors, which needs a database. Only the query pipelines of `index` and `show` are modelled.
- `controller_name`, `constantize` and the resolution of `item_class` and `serializer_class`: the resource (`Resource`) and the serializer class (`SerializerClass`) are inputs.
- `DateTime.parse` is a `DateParser` parameter that may fail. Dates are opaque values.
- Association reflection is a schema map (`Resource.schema`, and `Record.kinds` on records).
- The ActiveRecord preloader's loading of records is not modelled; only the branch tree it builds is.
- `uploadable.rb`, `base_policy.rb` and `engine.rb` are not part of this model.
- Hooks (`process_filter`, search and sort methods, `apply_filters`) are total functions on relations. A search hook answering nil is not modelled: in Ruby the next hook then starts again from `item_class.all`, silently dropping the search so far, and only a nil from the last hook makes `query.merge` raise.
- Filterable.FilterHasMany: requires a has-many association name, which is the only way it is reached.
- Queries.AssocSpec: a relationship list holding a nested array (`preloads [:a, :b]` inside a list, or `{author: [[:books, :titles]]}`) is not expressible; Ruby splits such an array with `Array(a).flat_map { |p, c| … }` (lib/active_record/preloader.rb:33), reading a two-element array as a name and its children, and `skip_relationship?` never skips an array. The model accepts only names and hashes.
- A `filters` parameter that is not an array is not modelled; an absent one is the empty list.
- `attribute_name` is always a string (the column of a filter and of `update_default`).
- ObjectSerializer.Registry.IndexAttributes: requires the single attribute to be a name when a block is given; Ruby would build a hash keyed by any object.
- ObjectSerializer.Registry.ShowAttributes: the same narrowing as `IndexAttributes`.
- Serializer classes are snapshots of their attribute lists, so a serializer that refers to itself, directly or through another, cannot be written down.
- `extract_value` writes into the caller's hash; the model passes the hash by value and returns the new one. Order and content are the same, but aliasing is not modelled.
- A class that is not a serializer, on an association key, raises `NoMethod("render_index")` in the model. This is the model's choice: in Ruby `value.new(current_user, options)` may already raise (an `ArgumentError`, say) before `render_index` is looked up.
- `[items].flatten` flattens a relation like an array.
- `Integer()` is modelled with its white space, sign, base prefixes and single underscores. Float values (`to_i` of a Float, `Integer("1.0")`) are not.
- Ruby values are nil, booleans, integers, strings, arrays, hashes and records; floats, symbols as values and dates are not separate cases.
- `rename_params` only reads request parameters, so a record there is treated like a scalar that has no `[]`. A permit hash whose value is not a list (`{a: {b: []}}`) is not expressible; Ruby iterates it as pairs and skips it.
- A permit hash literal with a repeated key keeps each entry in the model; Ruby keeps only the last value.
- `ResourceController.PerPage` takes the class `per_page` and the record count as arguments. The count query runs only when needed in Ruby; the model does not observe the difference.
- `insert_all` with empty data is passed to the executor like any other statement. This is the model's choice: what Rails does with an empty `insert_all` is left to the executor.
- Strings and symbols are one `string` type. A relationship registered as a String never equals the Symbol association names in Ruby, so `skip_relationship?` never skips it; the model skips it like the symbol.
- BaseSerializer.Send answers only for records; Ruby's `send` works on any object that has the method (a string's `length`, say), which the model reads as `NoMethod`.
