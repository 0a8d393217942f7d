/** Api::ResourceController: the `per_page` resolution, the renaming of nested-attribute
    parameters, the blank-to-nil coercion of `prepare_params`, and the fixed order in which
    `index` and `show` compose their query. */
module ResourceController {
  import opened Wrappers
  import opened Values
  import opened StringExt
  import opened Queries
  import opened Resourceable
  import Queryable
  import Searchable
  import Sortable

  // ---------------------------------------------------------------------------
  // per_page

  /** `params[:per_page].to_i`, when the key is given and its value answers `to_i`:
      nil reads 0, an Integer is itself, a String goes through `String#to_i`; booleans,
      arrays and hashes do not answer `to_i`. */
  function ParamCount(param: Option<Value>): (r: Option<int>)
    ensures r.Some? <==> param.Some? && (param.value.Nil? || param.value.Int? || param.value.Str?)
  {
    match param
    case None => None
    case Some(v) =>
      match v
      case Nil => Some(0)
      case Int(i) => Some(i)
      case Str(s) => Some(ToI(s))
      case _ => None
  }

  /** `per_page`: the parameter's count, else the class `per_page`; a count of zero or
      less asks for every record (`allCount`, the size of `item_class.all`), and when
      there are none the class value is used after all. */
  method PerPage(param: Option<Value>, classPerPage: int, allCount: nat) returns (count: int)
    ensures ParamCount(param).Some? && ParamCount(param).value > 0 ==> count == ParamCount(param).value
    ensures ParamCount(param).None? && classPerPage > 0 ==> count == classPerPage
    ensures ParamCount(param).GetOr(classPerPage) <= 0 && allCount > 0 ==> count == allCount
    ensures ParamCount(param).GetOr(classPerPage) <= 0 && allCount == 0 ==> count == classPerPage
    ensures classPerPage > 0 ==> count > 0
  {
    var given := ParamCount(param);
    if given.None? {
      given := Some(classPerPage);
    }
    count := given.value;
    if count <= 0 {
      if allCount == 0 {
        count := classPerPage;
      } else {
        count := allCount;
      }
    }
  }

  /** A string parameter with no digit after its leading white space and sign (empty,
      a letter, an underscore, a second sign) reads as 0 and so asks for every record. */
  lemma NonNumericPerPage(s: string)
    requires var body := SplitSign(DropLeadingSpace(s)).1; |body| == 0 || !IsDigit(body[0], 10)
    ensures ParamCount(Some(Str(s))) == Some(0)
  {
    var split := SplitSign(DropLeadingSpace(s));
    var body := split.1;
    assert IsDigit('0', 10);
    assert !(|body| >= 2 && body[0] == '0');
    assert DecimalPrefix(body) == [];
    assert RunValue([], 10) == 0;
    assert ToI(s) == if split.0 then -0 else 0;
  }

  // ---------------------------------------------------------------------------
  // String#sub(pattern, '') for the first occurrence

  predicate OccursAt(s: string, pat: string, i: int) {
    0 <= i && i + |pat| <= |s| && s[i..i + |pat|] == pat
  }

  /** The first position at or after `from` where `pat` occurs. */
  function FirstOccurrence(s: string, pat: string, from: nat): (r: Option<nat>)
    ensures r.Some? ==> from <= r.value && OccursAt(s, pat, r.value)
    ensures r.Some? ==> forall j :: from <= j < r.value ==> !OccursAt(s, pat, j)
    ensures r.None? ==> forall j :: from <= j ==> !OccursAt(s, pat, j)
    decreases |s| - from
  {
    if from + |pat| > |s| then None
    else if s[from..from + |pat|] == pat then Some(from)
    else FirstOccurrence(s, pat, from + 1)
  }

  /** `i` is the first position where `pat` occurs in `s`. */
  predicate IsFirst(s: string, pat: string, i: int) {
    OccursAt(s, pat, i) && forall j :: 0 <= j < i ==> !OccursAt(s, pat, j)
  }

  lemma FirstIsUnique(s: string, pat: string, i: int, k: int)
    requires IsFirst(s, pat, i) && IsFirst(s, pat, k)
    ensures i == k
  {
    assert !(k < i);
    assert !(i < k);
  }

  /** `s.sub(pat, '')`: the first occurrence removed, or `s` itself when there is none. */
  function SubFirst(s: string, pat: string): (r: string)
    ensures (forall j :: 0 <= j ==> !OccursAt(s, pat, j)) ==> r == s
    ensures forall i :: IsFirst(s, pat, i) ==> r == s[..i] + s[i + |pat|..]
  {
    match FirstOccurrence(s, pat, 0)
    case None => s
    case Some(i) =>
      assert IsFirst(s, pat, i);
      assert forall k :: IsFirst(s, pat, k) ==> k == i by {
        forall k | IsFirst(s, pat, k)
          ensures k == i
        {
          FirstIsUnique(s, pat, i, k);
        }
      }
      s[..i] + s[i + |pat|..]
  }

  const Suffix: string := "_attributes"

  /** The parameter a nested-attributes name `x_attributes` is looked up under is `x`. */
  lemma AttributesStem(n: string)
    requires forall j :: !OccursAt(n, Suffix, j)
    ensures SubFirst(n + Suffix, Suffix) == n
  {
    var s := n + Suffix;
    assert s[|n|..|n| + |Suffix|] == Suffix;
    assert OccursAt(s, Suffix, |n|);
    forall j | 0 <= j < |n|
      ensures !OccursAt(s, Suffix, j)
    {
      if j + |Suffix| <= |n| {
        assert s[j..j + |Suffix|] == n[j..j + |Suffix|];
        assert !OccursAt(n, Suffix, j);
      } else {
        assert s[|n|] == '_';
        assert forall m :: 1 <= m < |Suffix| ==> Suffix[m] != '_';
        assert |n| + |Suffix| > j + |Suffix| ==> s[j..j + |Suffix|][|n| - j] == s[|n|];
      }
    }
    assert s[..|n|] == n;
    assert s[|n| + |Suffix|..] == [];
  }

  // ---------------------------------------------------------------------------
  // rename_params, as functions

  /** `parameters[x]` on something other than a parameters hash. */
  function IndexFault(v: Value): Fault {
    match v
    case Nil => NoMethod("[]")
    case Bool(_) => NoMethod("[]")
    case _ => TypeMismatch("no implicit conversion of Symbol into Integer")
  }

  /** `attributes.keys.all?(&:is_integer?)`. */
  predicate IntegerKeys(hs: seq<Entry>) {
    forall i :: 0 <= i < |hs| ==> IsInteger(hs[i].key)
  }

  /** `attributes.keys.map { |key| attributes[key] }`. */
  function KeyedValues(hs: seq<Entry>): (vs: seq<Value>)
    ensures |vs| == |hs|
  {
    seq(|hs|, i requires 0 <= i < |hs| => Lookup(hs, hs[i].key).GetOr(Nil))
  }

  /** `rename_params(parameters, ps)`: each hash in the permit list, in order, renames
      the parameters it names. */
  function RenameF(p: Value, ps: seq<Permit>): Result<Value, Fault>
    decreases ps, 0, 0
  {
    if |ps| == 0 then Ok(p)
    else
      match RenameF(p, ps[..|ps| - 1])
      case Err(e) => Err(e)
      case Ok(q) =>
        match ps[|ps| - 1]
        case Key(_) => Ok(q)
        case Nested(es) => RenameEntriesF(q, es)
  }

  /** `permitted_parameter.keys.each { ... }`. */
  function RenameEntriesF(p: Value, es: seq<NestedPermit>): Result<Value, Fault>
    decreases es, 0, 0
  {
    if |es| == 0 then Ok(p)
    else
      match RenameEntriesF(p, es[..|es| - 1])
      case Err(e) => Err(e)
      case Ok(q) => RenameEntryF(q, es[|es| - 1])
  }

  /** One nested-attributes key `e.key`: the parameter named by the key with its first
      `_attributes` removed, when present, is deleted and stored again under `e.key`,
      renamed element by element when it is an array or an integer-keyed hash. */
  function RenameEntryF(p: Value, e: NestedPermit): Result<Value, Fault>
    decreases e, 0, 0
  {
    if !p.Hash? then Err(IndexFault(p))
    else
      var stem := SubFirst(e.key, Suffix);
      var attributes := Lookup(p.entries, stem).GetOr(Nil);
      if Blank(attributes) then Ok(p)
      else
        match RenamedValue(attributes, e.inner)
        case Err(x) => Err(x)
        case Ok(v) => Ok(Hash(Put(Delete(p.entries, stem), e.key, v)))
  }

  /** The value stored under the nested-attributes name: an array renamed element by
      element, an integer-keyed hash as the array of its renamed values, anything else
      as it is. */
  function RenamedValue(attributes: Value, inner: seq<Permit>): Result<Value, Fault>
    decreases inner, 2, 0
  {
    match attributes
    case List(items) =>
      (match RenameListF(items, inner)
       case Err(x) => Err(x)
       case Ok(xs) => Ok(List(xs)))
    case Hash(hs) =>
      if IntegerKeys(hs) then
        (match RenameListF(KeyedValues(hs), inner)
         case Err(x) => Err(x)
         case Ok(xs) => Ok(List(xs)))
      else Ok(attributes)
    case _ => Ok(attributes)
  }

  /** `xs.map { |attrs| rename_params(attrs, ps) }`. */
  function RenameListF(xs: seq<Value>, ps: seq<Permit>): Result<seq<Value>, Fault>
    decreases ps, 1, |xs|
  {
    if |xs| == 0 then Ok([])
    else
      match RenameListF(xs[..|xs| - 1], ps)
      case Err(e) => Err(e)
      case Ok(ys) =>
        match RenameF(xs[|xs| - 1], ps)
        case Err(e) => Err(e)
        case Ok(y) => Ok(ys + [y])
  }

  /** `rename_params(params[param_name], permitted_params)`: with no `allow_params` call
      the permit list is nil and `each` is not defined on it. */
  function RenameParamsF(p: Value, permitted: Option<seq<Permit>>): Result<Value, Fault> {
    match permitted
    case None => Err(NoMethod("each"))
    case Some(ps) => RenameF(p, ps)
  }

  // ---------------------------------------------------------------------------
  // rename_params, as the in-place loops

  /** `rename_params(parameters, ps)`. */
  method Rename(parameters: Value, ps: seq<Permit>) returns (r: Result<Value, Fault>)
    ensures r == RenameF(parameters, ps)
    decreases ps, 0, 0
  {
    var current := parameters;
    var i := 0;
    while i < |ps|
      invariant 0 <= i <= |ps|
      invariant RenameF(parameters, ps[..i]) == Ok(current)
    {
      assert ps[..i + 1][..i] == ps[..i];
      match ps[i] {
        case Key(_) =>
        case Nested(es) =>
          var step := RenameEntries(current, es);
          if step.Err? {
            RenameStops(parameters, ps, i + 1);
            return step;
          }
          current := step.value;
      }
      i := i + 1;
    }
    assert ps[..|ps|] == ps;
    r := Ok(current);
  }

  /** The inner `each` over the keys of one permitted hash, stopping at the first key
      that raises. */
  method RenameEntries(parameters: Value, es: seq<NestedPermit>) returns (r: Result<Value, Fault>)
    ensures r == RenameEntriesF(parameters, es)
    decreases es, 0, 1
  {
    var current := parameters;
    var j := 0;
    while j < |es|
      invariant 0 <= j <= |es|
      invariant RenameEntriesF(parameters, es[..j]) == Ok(current)
    {
      assert es[..j + 1][..j] == es[..j];
      var step := RenameEntry(current, es[j]);
      if step.Err? {
        EntriesStop(parameters, es, j + 1);
        return step;
      }
      current := step.value;
      j := j + 1;
    }
    assert es[..|es|] == es;
    r := Ok(current);
  }

  /** The body of the inner `each`, for one nested-attributes key. */
  method RenameEntry(parameters: Value, e: NestedPermit) returns (r: Result<Value, Fault>)
    ensures r == RenameEntryF(parameters, e)
    decreases e, 0, 0
  {
    if !parameters.Hash? {
      return Err(IndexFault(parameters));
    }
    var stem := SubFirst(e.key, Suffix);
    var attributes := Lookup(parameters.entries, stem).GetOr(Nil);
    if Blank(attributes) {
      return Ok(parameters);
    }
    var entries := Delete(parameters.entries, stem);
    match attributes {
      case List(items) =>
        var mapped := RenameEach(items, e.inner);
        if mapped.Err? {
          return Err(mapped.error);
        }
        entries := Put(entries, e.key, List(mapped.value));
      case Hash(hs) =>
        if IntegerKeys(hs) {
          var mapped := RenameEach(KeyedValues(hs), e.inner);
          if mapped.Err? {
            return Err(mapped.error);
          }
          entries := Put(entries, e.key, List(mapped.value));
        } else {
          entries := Put(entries, e.key, attributes);
        }
      case _ =>
        entries := Put(entries, e.key, attributes);
    }
    r := Ok(Hash(entries));
  }

  /** The `map` that renames each element with the nested permit list. */
  method RenameEach(xs: seq<Value>, ps: seq<Permit>) returns (r: Result<seq<Value>, Fault>)
    ensures r == RenameListF(xs, ps)
    decreases ps, 1, |xs|
  {
    var out: seq<Value> := [];
    var i := 0;
    while i < |xs|
      invariant 0 <= i <= |xs|
      invariant RenameListF(xs[..i], ps) == Ok(out)
    {
      assert xs[..i + 1][..i] == xs[..i];
      var x := Rename(xs[i], ps);
      if x.Err? {
        ListStops(xs, ps, i + 1);
        return Err(x.error);
      }
      out := out + [x.value];
      i := i + 1;
    }
    assert xs[..|xs|] == xs;
    r := Ok(out);
  }

  /** The renaming of `prepare_params`. */
  method RenameParams(parameters: Value, permitted: Option<seq<Permit>>) returns (r: Result<Value, Fault>)
    ensures r == RenameParamsF(parameters, permitted)
  {
    if permitted.None? {
      return Err(NoMethod("each"));
    }
    r := Rename(parameters, permitted.value);
  }

  // ---------------------------------------------------------------------------
  // Properties of rename_params

  lemma {:induction false} RenameStops(p: Value, ps: seq<Permit>, k: int)
    requires 0 <= k <= |ps| && RenameF(p, ps[..k]).Err?
    ensures RenameF(p, ps) == RenameF(p, ps[..k])
    decreases |ps|
  {
    if k < |ps| {
      assert ps[..|ps| - 1][..k] == ps[..k];
      RenameStops(p, ps[..|ps| - 1], k);
    } else {
      assert ps[..k] == ps;
    }
  }

  lemma {:induction false} EntriesStop(p: Value, es: seq<NestedPermit>, k: int)
    requires 0 <= k <= |es| && RenameEntriesF(p, es[..k]).Err?
    ensures RenameEntriesF(p, es) == RenameEntriesF(p, es[..k])
    decreases |es|
  {
    if k < |es| {
      assert es[..|es| - 1][..k] == es[..k];
      EntriesStop(p, es[..|es| - 1], k);
    } else {
      assert es[..k] == es;
    }
  }

  lemma {:induction false} ListStops(xs: seq<Value>, ps: seq<Permit>, k: int)
    requires 0 <= k <= |xs| && RenameListF(xs[..k], ps).Err?
    ensures RenameListF(xs, ps) == RenameListF(xs[..k], ps)
    decreases |xs|
  {
    if k < |xs| {
      assert xs[..|xs| - 1][..k] == xs[..k];
      ListStops(xs[..|xs| - 1], ps, k);
    } else {
      assert xs[..k] == xs;
    }
  }

  /** A permit list without hashes renames nothing, whatever the parameters are. */
  lemma {:induction false} PlainPermitsRenameNothing(p: Value, ps: seq<Permit>)
    requires forall i :: 0 <= i < |ps| ==> ps[i].Key?
    ensures RenameF(p, ps) == Ok(p)
  {
    if |ps| > 0 {
      PlainPermitsRenameNothing(p, ps[..|ps| - 1]);
    }
  }

  /** A key whose parameter is absent or blank leaves the parameters as they were. */
  lemma BlankParamUntouched(es: seq<Entry>, e: NestedPermit)
    requires Lookup(es, SubFirst(e.key, Suffix)).Some? ==> Blank(Lookup(es, SubFirst(e.key, Suffix)).value)
    ensures RenameEntryF(Hash(es), e) == Ok(Hash(es))
  {
  }

  lemma RenamedIntegerKeyed(hs: seq<Entry>, inner: seq<Permit>)
    requires IntegerKeys(hs) && RenameListF(KeyedValues(hs), inner).Ok?
    ensures RenamedValue(Hash(hs), inner) == Ok(List(RenameListF(KeyedValues(hs), inner).value))
  {
  }

  /** A present parameter is deleted from its stem name and its renamed value stored
      under the nested-attributes name. */
  lemma RenameEntryStores(es: seq<Entry>, e: NestedPermit, stem: string, a: Value, v: Value)
    requires stem == SubFirst(e.key, Suffix) && Lookup(es, stem) == Some(a) && !Blank(a)
    requires RenamedValue(a, e.inner) == Ok(v)
    ensures RenameEntryF(Hash(es), e) == Ok(Hash(Put(Delete(es, stem), e.key, v)))
  {
  }

  /** A present parameter that is neither an array nor an integer-keyed hash moves,
      unchanged, from its stem name to the nested-attributes name. */
  lemma PresentParamMoves(es: seq<Entry>, e: NestedPermit, q: string)
    requires Lookup(es, SubFirst(e.key, Suffix)).Some?
    requires var v := Lookup(es, SubFirst(e.key, Suffix)).value;
             Present(v) && !v.List? && !(v.Hash? && IntegerKeys(v.entries))
    ensures RenameEntryF(Hash(es), e).Ok?
    ensures var r := RenameEntryF(Hash(es), e).value;
            r.Hash?
            && Lookup(r.entries, e.key) == Lookup(es, SubFirst(e.key, Suffix))
            && (q != e.key ==> Lookup(r.entries, q) == (if q == SubFirst(e.key, Suffix) then None else Lookup(es, q)))
  {
    var stem := SubFirst(e.key, Suffix);
    var v := Lookup(es, stem).value;
    var rest := Delete(es, stem);
    assert RenamedValue(v, e.inner) == Ok(v);
    RenameEntryStores(es, e, stem, v, v);
    LookupPut(rest, e.key, v, e.key);
    LookupPut(rest, e.key, v, q);
    LookupDelete(es, stem, q);
  }

  /** An array parameter is renamed element by element, in order, under the
      nested-attributes name. */
  lemma ArrayParamRenamed(es: seq<Entry>, e: NestedPermit, items: seq<Value>)
    requires Lookup(es, SubFirst(e.key, Suffix)) == Some(List(items)) && |items| > 0
    requires RenameListF(items, e.inner).Ok?
    ensures RenameEntryF(Hash(es), e).Ok?
    ensures var r := RenameEntryF(Hash(es), e).value;
            r.Hash? && Lookup(r.entries, e.key) == Some(List(RenameListF(items, e.inner).value))
  {
    var stem := SubFirst(e.key, Suffix);
    var xs := RenameListF(items, e.inner).value;
    assert RenamedValue(List(items), e.inner) == Ok(List(xs));
    RenameEntryStores(es, e, stem, List(items), List(xs));
    LookupPut(Delete(es, stem), e.key, List(xs), e.key);
  }

  /** The element-wise renaming keeps the length and the order of the elements. */
  lemma {:induction false} RenameListPointwise(xs: seq<Value>, ps: seq<Permit>)
    requires RenameListF(xs, ps).Ok?
    ensures |RenameListF(xs, ps).value| == |xs|
    ensures forall i :: 0 <= i < |xs| ==> RenameF(xs[i], ps) == Ok(RenameListF(xs, ps).value[i])
    decreases |xs|
  {
    if |xs| > 0 {
      var init := xs[..|xs| - 1];
      RenameListPointwise(init, ps);
      forall i | 0 <= i < |xs| - 1
        ensures RenameF(xs[i], ps) == Ok(RenameListF(xs, ps).value[i])
      {
        assert xs[i] == init[i];
      }
    }
  }

  /** Integer keys in any order: the hash's values, taken in key order, are renamed like
      an array's elements. */
  lemma IntegerKeyedParamRenamed(es: seq<Entry>, e: NestedPermit, hs: seq<Entry>)
    requires Lookup(es, SubFirst(e.key, Suffix)) == Some(Hash(hs)) && |hs| > 0 && IntegerKeys(hs)
    requires RenameListF(KeyedValues(hs), e.inner).Ok?
    ensures RenameEntryF(Hash(es), e).Ok?
    ensures var r := RenameEntryF(Hash(es), e).value;
            r.Hash? && Lookup(r.entries, e.key) == Some(List(RenameListF(KeyedValues(hs), e.inner).value))
  {
    var stem := SubFirst(e.key, Suffix);
    var xs := RenameListF(KeyedValues(hs), e.inner).value;
    RenamedIntegerKeyed(hs, e.inner);
    RenameEntryStores(es, e, stem, Hash(hs), List(xs));
    LookupPut(Delete(es, stem), e.key, List(xs), e.key);
  }

  // ---------------------------------------------------------------------------
  // prepare_params: blank strings to nil

  /** `(v.is_a?(String) && v.blank?) ? nil : v`. */
  function Coerce(v: Value): Value {
    if v.Str? && BlankString(v.s) then Nil else v
  }

  /** `inject({}) { |h, (k, v)| h[k] = coerce(v); h }`. */
  function BlankToNil(es: seq<Entry>): seq<Entry> {
    if |es| == 0 then []
    else Put(BlankToNil(es[..|es| - 1]), es[|es| - 1].key, Coerce(es[|es| - 1].val))
  }

  lemma KeysSnoc(es: seq<Entry>, e: Entry)
    ensures Keys(es + [e]) == Keys(es) + [e.key]
  {
  }

  /** The coercion keeps the keys and their order. */
  lemma {:induction false} BlankToNilKeys(es: seq<Entry>)
    requires UniqueKeys(es)
    ensures Keys(BlankToNil(es)) == Keys(es)
  {
    if |es| > 0 {
      var init, last := es[..|es| - 1], es[|es| - 1];
      assert es == init + [last];
      BlankToNilKeys(init);
      KeysPut(BlankToNil(init), last.key, Coerce(last.val));
      KeysSnoc(init, last);
      assert last.key !in Keys(init) by {
        forall i | 0 <= i < |init| ensures Keys(init)[i] != last.key {
          assert es[i].key != es[|es| - 1].key;
        }
      }
    }
  }

  /** A blank string becomes nil; every other value, non-blank strings and blank
      non-strings (nil, false, empty arrays and hashes) included, is kept. */
  lemma {:induction false} BlankToNilLookup(es: seq<Entry>, k: string)
    requires UniqueKeys(es)
    ensures match Lookup(es, k)
            case None => Lookup(BlankToNil(es), k).None?
            case Some(v) => Lookup(BlankToNil(es), k) == Some(if v.Str? && BlankString(v.s) then Nil else v)
  {
    if |es| > 0 {
      var init, last := es[..|es| - 1], es[|es| - 1];
      assert es == init + [last];
      BlankToNilLookup(init, k);
      LookupPut(BlankToNil(init), last.key, Coerce(last.val), k);
      LookupSnoc(init, last, k);
      if k == last.key {
        forall i | 0 <= i < |init| ensures Keys(init)[i] != last.key {
          assert es[i].key != es[|es| - 1].key;
        }
      }
    }
  }

  lemma {:induction false} LookupSnoc(es: seq<Entry>, e: Entry, k: string)
    ensures Lookup(es + [e], k) == if k in Keys(es) then Lookup(es, k) else if e.key == k then Some(e.val) else None
  {
    if |es| > 0 {
      assert (es + [e])[1..] == es[1..] + [e];
      LookupSnoc(es[1..], e, k);
      assert Keys(es) == [es[0].key] + Keys(es[1..]);
    }
  }

  // ---------------------------------------------------------------------------
  // The action pipelines

  /** `build_query(query)` as the clauses it appends, for an action. */
  function Built(reg: Queryable.Registry, query: Query, res: Resource, action: string): Query
    reads reg
  {
    Query(query.table, query.clauses
                       + Queryable.Attached(Queryable.AttachPreload, reg.preloads, res, action)
                       + Queryable.Attached(Queryable.AttachJoin, reg.joins, res, action)
                       + Queryable.Attached(Queryable.AttachLeftJoin, reg.leftJoins, res, action))
  }

  /** The query of `index`: `base_query`, then `build_query`, `apply_search`,
      `apply_filters` (an overridable hook, the identity by default) and `apply_sort`. */
  method IndexQuery(qreg: Queryable.Registry, sreg: Searchable.Registry, oreg: Sortable.Registry,
                    res: Resource, applyFilters: Query -> Query,
                    search: Value, sortBy: Value, sortDirection: Value)
    returns (r: Result<Query, Fault>)
    ensures r == Sortable.SortF(oreg.sortMethods, sortBy, sortDirection,
                  applyFilters(Searchable.SearchF(sreg.attrs, sreg.searchMethods, res.table, search,
                                                  Built(qreg, All(res.table), res, "index"))))
    ensures r.Ok? ==> |r.value.clauses| > 0 && r.value.clauses[|r.value.clauses| - 1] == Order("id", Asc)
  {
    var query := All(res.table);
    query := Queryable.BuildQuery(qreg, query, res, "index");
    query := Searchable.ApplySearch(sreg, res.table, search, query);
    query := applyFilters(query);
    r := Sortable.ApplySort(oreg, sortBy, sortDirection, query);
    if r.Ok? {
      Sortable.SortEndsWithId(oreg.sortMethods, sortBy, sortDirection, query);
    }
  }

  /** One clause per relationship, in order. */
  function Every(k: Queryable.Attachment, rels: seq<AssocSpec>): (cs: seq<Clause>)
    ensures |cs| == |rels|
  {
    seq(|rels|, i requires 0 <= i < |rels| => Queryable.AttachClause(k, rels[i]))
  }

  /** The query `show` finds its item in: `base_query` then `build_query`, where every
      registered relationship is attached, in order. */
  method ShowQuery(qreg: Queryable.Registry, res: Resource) returns (q: Query)
    ensures q == Built(qreg, All(res.table), res, "show")
    ensures q.table == res.table
    ensures q.clauses == Every(Queryable.AttachPreload, qreg.preloads) + Every(Queryable.AttachJoin, qreg.joins)
                       + Every(Queryable.AttachLeftJoin, qreg.leftJoins)
  {
    q := Queryable.BuildQuery(qreg, All(res.table), res, "show");
    Queryable.AttachedOutsideIndex(Queryable.AttachPreload, qreg.preloads, res, "show");
    Queryable.AttachedOutsideIndex(Queryable.AttachJoin, qreg.joins, res, "show");
    Queryable.AttachedOutsideIndex(Queryable.AttachLeftJoin, qreg.leftJoins, res, "show");
  }
}
