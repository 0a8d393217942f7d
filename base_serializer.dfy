/** BaseSerializer: renders records by walking a serializer class's attribute lists.
    Each rendered item becomes an ordered hash; a symbol copies the item's value, a hash
    entry dispatches on what it maps to (a callback, a nested list for an association,
    or a nested serializer class).

    The recursive functions below say what rendering answers; the methods of the
    `Serializer` class are the loops of the source, each proved equal to its function.
    The hashes being filled are passed in and handed back rather than updated through
    a shared reference; in the source each is a fresh local hash. */
module BaseSerializer {
  import opened Wrappers
  import opened Values
  import opened ObjectSerializer

  // ---------------------------------------------------------------------------
  // Ruby helpers

  /** `[v].flatten`: nested arrays are spliced, everything else is one element. */
  function Flatten(v: Value): seq<Value>
    decreases v, 1
  {
    if v.List? then FlattenAll(v.items) else [v]
  }

  function FlattenAll(xs: seq<Value>): seq<Value>
    decreases xs, 0
  {
    if |xs| == 0 then [] else FlattenAll(xs[..|xs| - 1]) + Flatten(xs[|xs| - 1])
  }

  /** `item.send(name)`: a record answers its attribute or association reader; nothing
      else has the method. */
  function Send(item: Value, name: string): (r: Result<Value, Fault>)
    ensures r.Ok? <==> item.Rec? && name in item.rec.fields
  {
    if item.Rec? && name in item.rec.fields then Ok(item.rec.fields[name]) else Err(NoMethod(name))
  }

  /** The association macro `name` was declared with on the item's class, if any;
      only a model class can be reflected on. */
  function KindOf(item: Value, name: string): (r: Result<Option<Kind>, Fault>)
    ensures r.Ok? <==> item.Rec?
    ensures r.Ok? ==> (r.value.Some? <==> name in item.rec.kinds)
    ensures r.Ok? && r.value.Some? ==> r.value.value == item.rec.kinds[name]
  {
    if !item.Rec? then Err(NoMethod("reflect_on_all_associations"))
    else if name in item.rec.kinds then Ok(Some(item.rec.kinds[name]))
    else Ok(None)
  }

  /** `is_belongs_to?` / `is_has_one?` / `is_has_many?` */
  predicate HasKind(k: Option<Kind>, kind: Kind) {
    k == Some(kind)
  }

  /** `related_items.each`: an association collection is enumerable, nothing else is. */
  function Related(v: Value): (r: Result<seq<Value>, Fault>)
    ensures r.Ok? <==> v.List?
  {
    if v.List? then Ok(v.items) else Err(NoMethod("each"))
  }

  // ---------------------------------------------------------------------------
  // What rendering answers

  /** `render_index(items)`. */
  function RenderIndexF(c: SerializerClass, user: Value, opts: Value, items: Value): Result<seq<Value>, Fault>
    decreases c, 2, 0
  {
    if items.Nil? then Ok([]) else SerializeEachF(c.indexAttributes, user, opts, Flatten(items))
  }

  /** `render_show(item)`. */
  function RenderShowF(c: SerializerClass, user: Value, opts: Value, item: Value): Result<Value, Fault>
    decreases c, 2, 0
  {
    if item.Nil? then Ok(Hash([]))
    else match ExtractAllF(c.showAttributes, user, opts, [], item)
      case Err(e) => Err(e)
      case Ok(m) => Ok(Hash(m))
  }

  /** One fresh hash per item, filled from `attrs`: the loop of `render_index` and the
      has-many loop of `extract_value`. */
  function SerializeEachF(attrs: seq<Attribute>, user: Value, opts: Value, xs: seq<Value>): Result<seq<Value>, Fault>
    decreases attrs, 1, |xs|
  {
    if |xs| == 0 then Ok([])
    else match SerializeEachF(attrs, user, opts, xs[..|xs| - 1])
      case Err(e) => Err(e)
      case Ok(rs) =>
        match ExtractAllF(attrs, user, opts, [], xs[|xs| - 1])
        case Err(e) => Err(e)
        case Ok(m) => Ok(rs + [Hash(m)])
  }

  /** `extract_value` for every attribute of `attrs`, in order, into `out`. */
  function ExtractAllF(attrs: seq<Attribute>, user: Value, opts: Value, out: seq<Entry>, item: Value): Result<seq<Entry>, Fault>
    decreases attrs, 0, 0
  {
    if |attrs| == 0 then Ok(out)
    else match ExtractAllF(attrs[..|attrs| - 1], user, opts, out, item)
      case Err(e) => Err(e)
      case Ok(o) => ExtractF(attrs[|attrs| - 1], user, opts, o, item)
  }

  /** `extract_value(out, item, a)`. */
  function ExtractF(a: Attribute, user: Value, opts: Value, out: seq<Entry>, item: Value): Result<seq<Entry>, Fault>
    decreases a, 0, 0
  {
    if Blank(item) then Ok(out)
    else match a
      case Field(n) =>
        (match Send(item, n)
         case Err(e) => Err(e)
         case Ok(v) => Ok(Put(out, n, v)))
      case Keyed(es) => ExtractEntriesF(es, user, opts, out, item)
      case Unsupported(_) => Ok(out)
  }

  function ExtractEntriesF(es: seq<KeyedEntry>, user: Value, opts: Value, out: seq<Entry>, item: Value): Result<seq<Entry>, Fault>
    decreases es, 0, 0
  {
    if |es| == 0 then Ok(out)
    else match ExtractEntriesF(es[..|es| - 1], user, opts, out, item)
      case Err(e) => Err(e)
      case Ok(o) => ExtractEntryF(es[|es| - 1], user, opts, o, item)
  }

  /** One key of an attribute hash, on a present item. */
  function ExtractEntryF(e: KeyedEntry, user: Value, opts: Value, out: seq<Entry>, item: Value): Result<seq<Entry>, Fault>
    decreases e, 0, 0
  {
    match e.spec
    case Computed(fn) => Ok(Put(out, e.key, fn(item, user, opts)))
    case Other(_) => Ok(out)
    case Inline(attrs) => InlineEntryF(e.key, attrs, user, opts, out, item)
    case SerializerRef(c) => SerializerEntryF(e.key, c, user, opts, out, item)
  }

  /** A key mapped to a nested attribute list. */
  function InlineEntryF(key: string, attrs: seq<Attribute>, user: Value, opts: Value, out: seq<Entry>, item: Value): Result<seq<Entry>, Fault>
    decreases attrs, 2, 0
  {
    match KindOf(item, key)
    case Err(err) => Err(err)
    case Ok(k) =>
      if HasKind(k, HasMany) then
        match Send(item, key)
        case Err(err) => Err(err)
        case Ok(rel) =>
          match Related(rel)
          case Err(err) => Err(err)
          case Ok(xs) =>
            match SerializeEachF(attrs, user, opts, xs)
            case Err(err) => Err(err)
            case Ok(ms) => Ok(Put(out, key, List(ms)))
      else if HasKind(k, BelongsTo) || HasKind(k, HasOne) then
        match Send(item, key)
        case Err(err) => Err(err)
        case Ok(related) =>
          match ExtractAllF(attrs, user, opts, [], related)
          case Err(err) => Err(err)
          case Ok(m) => Ok(Put(out, key, Hash(m)))
      else Ok(out)
  }

  /** A key mapped to a class. */
  function SerializerEntryF(key: string, c: SerializerClass, user: Value, opts: Value, out: seq<Entry>, item: Value): Result<seq<Entry>, Fault>
    decreases c, 3, 0
  {
    match KindOf(item, key)
    case Err(err) => Err(err)
    case Ok(k) =>
      if HasKind(k, BelongsTo) || HasKind(k, HasOne) then
        match Send(item, key)
        case Err(err) => Err(err)
        case Ok(related) =>
          if !c.isSerializer then Err(NoMethod("render_index"))
          else match RenderIndexF(c, user, opts, related)
            case Err(err) => Err(err)
            case Ok(l) => Ok(Put(out, key, if |l| == 0 then Nil else l[0]))
      else if HasKind(k, HasMany) then
        match Send(item, key)
        case Err(err) => Err(err)
        case Ok(related) =>
          if !c.isSerializer then Err(NoMethod("render_index"))
          else match RenderIndexF(c, user, opts, related)
            case Err(err) => Err(err)
            case Ok(l) => Ok(Put(out, key, List(l)))
      else if c.isSerializer then
        match RenderIndexF(c, user, opts, item)
        case Err(err) => Err(err)
        case Ok(l) => Ok(Put(out, key, List(l)))
      else Ok(out)
  }

  // ---------------------------------------------------------------------------
  // The serializer object

  class Serializer {
    const cls: SerializerClass
    const currentUser: Value
    const options: Value

    /** `initialize(current_user = nil, options = {})` of a serializer class. */
    constructor (cls: SerializerClass, currentUser: Value, options: Value)
      ensures this.cls == cls && this.currentUser == currentUser && this.options == options
    {
      this.cls := cls;
      this.currentUser := currentUser;
      this.options := options;
    }

    /** `render_index(items)`. */
    method RenderIndex(items: Value) returns (r: Result<seq<Value>, Fault>)
      decreases cls, 2, 0
      ensures r == RenderIndexF(cls, currentUser, options, items)
    {
      if items.Nil? {
        return Ok([]);
      }
      r := SerializeEach(cls.indexAttributes, Flatten(items));
    }

    /** `render_show(item)`. */
    method RenderShow(item: Value) returns (r: Result<Value, Fault>)
      decreases cls, 2, 0
      ensures r == RenderShowF(cls, currentUser, options, item)
    {
      if item.Nil? {
        return Ok(Hash([]));
      }
      var serialized := ExtractAll(cls.showAttributes, [], item);
      if serialized.Err? {
        return Err(serialized.error);
      }
      r := Ok(Hash(serialized.value));
    }

    /** `serialized << item_serialized` for each item. */
    method SerializeEach(attrs: seq<Attribute>, xs: seq<Value>) returns (r: Result<seq<Value>, Fault>)
      decreases attrs, 1, |xs|
      ensures r == SerializeEachF(attrs, currentUser, options, xs)
    {
      var serialized: seq<Value> := [];
      var i := 0;
      while i < |xs|
        invariant 0 <= i <= |xs|
        invariant SerializeEachF(attrs, currentUser, options, xs[..i]) == Ok(serialized)
      {
        assert xs[..i + 1][..i] == xs[..i];
        var itemSerialized := ExtractAll(attrs, [], xs[i]);
        if itemSerialized.Err? {
          assert SerializeEachF(attrs, currentUser, options, xs[..i + 1]) == Err(itemSerialized.error);
          SerializeEachStops(attrs, currentUser, options, xs, i + 1);
          return Err(itemSerialized.error);
        }
        serialized := serialized + [Hash(itemSerialized.value)];
        i := i + 1;
      }
      assert xs[..|xs|] == xs;
      r := Ok(serialized);
    }

    /** `attrs.each { |a| extract_value(out, item, a) }`. */
    method ExtractAll(attrs: seq<Attribute>, out: seq<Entry>, item: Value) returns (r: Result<seq<Entry>, Fault>)
      decreases attrs, 0, 0
      ensures r == ExtractAllF(attrs, currentUser, options, out, item)
    {
      var o := out;
      var i := 0;
      while i < |attrs|
        invariant 0 <= i <= |attrs|
        invariant ExtractAllF(attrs[..i], currentUser, options, out, item) == Ok(o)
      {
        assert attrs[..i + 1][..i] == attrs[..i];
        var step := ExtractValue(o, item, attrs[i]);
        if step.Err? {
          assert ExtractAllF(attrs[..i + 1], currentUser, options, out, item) == Err(step.error);
          ExtractAllStops(attrs, currentUser, options, out, item, i + 1);
          return Err(step.error);
        }
        o := step.value;
        i := i + 1;
      }
      assert attrs[..|attrs|] == attrs;
      r := Ok(o);
    }

    /** `extract_value(serialized, item, attribute)`. */
    method ExtractValue(serialized: seq<Entry>, item: Value, attribute: Attribute) returns (r: Result<seq<Entry>, Fault>)
      decreases attribute, 0, 0
      ensures r == ExtractF(attribute, currentUser, options, serialized, item)
    {
      if Blank(item) {
        return Ok(serialized);
      }
      match attribute
      case Field(n) =>
        var v := Send(item, n);
        if v.Err? {
          return Err(v.error);
        }
        r := Ok(Put(serialized, n, v.value));
      case Keyed(es) =>
        r := ExtractEntries(serialized, item, es);
      case Unsupported(_) =>
        r := Ok(serialized);
    }

    /** `attribute.keys.each { |key| ... }` over an attribute hash. */
    method ExtractEntries(serialized: seq<Entry>, item: Value, es: seq<KeyedEntry>) returns (r: Result<seq<Entry>, Fault>)
      decreases es, 0, 1
      ensures r == ExtractEntriesF(es, currentUser, options, serialized, item)
    {
      var o := serialized;
      var j := 0;
      while j < |es|
        invariant 0 <= j <= |es|
        invariant ExtractEntriesF(es[..j], currentUser, options, serialized, item) == Ok(o)
      {
        EntriesSnoc(es, currentUser, options, serialized, item, j);
        var step := ExtractEntry(o, item, es[j]);
        if step.Err? {
          ExtractEntriesStops(es, currentUser, options, serialized, item, j + 1);
          return Err(step.error);
        }
        o := step.value;
        j := j + 1;
      }
      assert es[..|es|] == es;
      r := Ok(o);
    }

    /** The body of `attribute.keys.each` for one key. */
    method ExtractEntry(serialized: seq<Entry>, item: Value, e: KeyedEntry) returns (r: Result<seq<Entry>, Fault>)
      decreases e, 0, 0
      ensures r == ExtractEntryF(e, currentUser, options, serialized, item)
    {
      var key := e.key;
      match e.spec {
        case Computed(fn) =>
          r := Ok(Put(serialized, key, fn(item, currentUser, options)));
        case Other(_) =>
          r := Ok(serialized);
        case Inline(attrs) =>
          var k := KindOf(item, key);
          if k.Err? {
            return Err(k.error);
          }
          if HasKind(k.value, HasMany) {
            var rel := Send(item, key);
            if rel.Err? {
              return Err(rel.error);
            }
            var xs := Related(rel.value);
            if xs.Err? {
              return Err(xs.error);
            }
            var ms := SerializeEach(attrs, xs.value);
            if ms.Err? {
              return Err(ms.error);
            }
            r := Ok(Put(serialized, key, List(ms.value)));
          } else if HasKind(k.value, BelongsTo) || HasKind(k.value, HasOne) {
            var related := Send(item, key);
            if related.Err? {
              return Err(related.error);
            }
            var m := ExtractAll(attrs, [], related.value);
            if m.Err? {
              return Err(m.error);
            }
            r := Ok(Put(serialized, key, Hash(m.value)));
          } else {
            r := Ok(serialized);
          }
        case SerializerRef(c) =>
          var k := KindOf(item, key);
          if k.Err? {
            return Err(k.error);
          }
          if HasKind(k.value, BelongsTo) || HasKind(k.value, HasOne) || HasKind(k.value, HasMany) {
            var related := Send(item, key);
            if related.Err? {
              return Err(related.error);
            }
            if !c.isSerializer {
              return Err(NoMethod("render_index"));
            }
            var serializer := new Serializer(c, currentUser, options);
            var l := serializer.RenderIndex(related.value);
            if l.Err? {
              return Err(l.error);
            }
            if HasKind(k.value, HasMany) {
              r := Ok(Put(serialized, key, List(l.value)));
            } else {
              r := Ok(Put(serialized, key, if |l.value| == 0 then Nil else l.value[0]));
            }
          } else if c.isSerializer {
            var serializer := new Serializer(c, currentUser, options);
            var l := serializer.RenderIndex(item);
            if l.Err? {
              return Err(l.error);
            }
            r := Ok(Put(serialized, key, List(l.value)));
          } else {
            r := Ok(serialized);
          }
      }
    }
  }

  // ---------------------------------------------------------------------------
  // Early exits of the folds

  lemma {:induction false} SerializeEachStops(attrs: seq<Attribute>, user: Value, opts: Value, xs: seq<Value>, k: int)
    requires 0 <= k <= |xs| && SerializeEachF(attrs, user, opts, xs[..k]).Err?
    ensures SerializeEachF(attrs, user, opts, xs) == SerializeEachF(attrs, user, opts, xs[..k])
  {
    if k < |xs| {
      var init := xs[..|xs| - 1];
      assert init[..k] == xs[..k];
      SerializeEachStops(attrs, user, opts, init, k);
    } else {
      assert xs[..k] == xs;
    }
  }

  lemma {:induction false} ExtractAllStops(attrs: seq<Attribute>, user: Value, opts: Value, out: seq<Entry>, item: Value, k: int)
    requires 0 <= k <= |attrs| && ExtractAllF(attrs[..k], user, opts, out, item).Err?
    ensures ExtractAllF(attrs, user, opts, out, item) == ExtractAllF(attrs[..k], user, opts, out, item)
  {
    if k < |attrs| {
      var init := attrs[..|attrs| - 1];
      assert init[..k] == attrs[..k];
      ExtractAllStops(init, user, opts, out, item, k);
    } else {
      assert attrs[..k] == attrs;
    }
  }

  /** One more key of the hash: the fold over `es[..j + 1]` is the fold over `es[..j]`
      followed by the key `es[j]`. */
  lemma EntriesSnoc(es: seq<KeyedEntry>, user: Value, opts: Value, out: seq<Entry>, item: Value, j: int)
    requires 0 <= j < |es|
    ensures ExtractEntriesF(es[..j + 1], user, opts, out, item)
         == match ExtractEntriesF(es[..j], user, opts, out, item)
            case Err(e) => Err(e)
            case Ok(o) => ExtractEntryF(es[j], user, opts, o, item)
  {
    assert es[..j + 1][..j] == es[..j];
  }

  lemma {:induction false} ExtractEntriesStops(es: seq<KeyedEntry>, user: Value, opts: Value, out: seq<Entry>, item: Value, k: int)
    requires 0 <= k <= |es| && ExtractEntriesF(es[..k], user, opts, out, item).Err?
    ensures ExtractEntriesF(es, user, opts, out, item) == ExtractEntriesF(es[..k], user, opts, out, item)
  {
    if k < |es| {
      var init := es[..|es| - 1];
      assert init[..k] == es[..k];
      ExtractEntriesStops(init, user, opts, out, item, k);
    } else {
      assert es[..k] == es;
    }
  }

  // ---------------------------------------------------------------------------
  // Properties

  /** Nothing to render: `render_index(nil)` is `[]` and `render_show(nil)` is `{}`. */
  lemma RenderNil(c: SerializerClass, user: Value, opts: Value)
    ensures RenderIndexF(c, user, opts, Nil) == Ok([])
    ensures RenderShowF(c, user, opts, Nil) == Ok(Hash([]))
  {
  }

  /** `[v].flatten` leaves no array inside, and a value that is not an array stays
      alone. */
  lemma {:induction false} FlattenIsFlat(v: Value)
    ensures forall k :: 0 <= k < |Flatten(v)| ==> !Flatten(v)[k].List?
    ensures !v.List? ==> Flatten(v) == [v]
    decreases v, 1
  {
    if v.List? {
      FlattenAllIsFlat(v.items);
    }
  }

  lemma {:induction false} FlattenAllIsFlat(xs: seq<Value>)
    ensures forall k :: 0 <= k < |FlattenAll(xs)| ==> !FlattenAll(xs)[k].List?
    decreases xs, 0
  {
    if |xs| > 0 {
      FlattenAllIsFlat(xs[..|xs| - 1]);
      FlattenIsFlat(xs[|xs| - 1]);
    }
  }

  /** Flattening an already flat list changes nothing. */
  lemma {:induction false} FlattenAllOfFlat(xs: seq<Value>)
    requires forall k :: 0 <= k < |xs| ==> !xs[k].List?
    ensures FlattenAll(xs) == xs
  {
    if |xs| > 0 {
      FlattenAllOfFlat(xs[..|xs| - 1]);
      assert xs[..|xs| - 1] + [xs[|xs| - 1]] == xs;
    }
  }

  /** One hash per item, in order, each filled from a fresh empty hash; and rendering
      fails exactly when some item fails. */
  lemma {:induction false} SerializeEachShape(attrs: seq<Attribute>, user: Value, opts: Value, xs: seq<Value>)
    ensures SerializeEachF(attrs, user, opts, xs).Ok?
        <==> forall i :: 0 <= i < |xs| ==> ExtractAllF(attrs, user, opts, [], xs[i]).Ok?
    ensures SerializeEachF(attrs, user, opts, xs).Ok? ==>
              var rs := SerializeEachF(attrs, user, opts, xs).value;
              |rs| == |xs|
              && forall i :: 0 <= i < |xs| ==> rs[i] == Hash(ExtractAllF(attrs, user, opts, [], xs[i]).value)
  {
    if |xs| > 0 {
      var init := xs[..|xs| - 1];
      SerializeEachShape(attrs, user, opts, init);
      assert forall i :: 0 <= i < |init| ==> init[i] == xs[i];
    }
  }

  /** A single record renders as a one-element list. */
  lemma RenderIndexSingle(c: SerializerClass, user: Value, opts: Value, item: Value)
    requires !item.Nil? && !item.List?
    requires ExtractAllF(c.indexAttributes, user, opts, [], item).Ok?
    ensures RenderIndexF(c, user, opts, item) == Ok([Hash(ExtractAllF(c.indexAttributes, user, opts, [], item).value)])
  {
    FlattenIsFlat(item);
    assert [item][..0] == [];
    var m := ExtractAllF(c.indexAttributes, user, opts, [], item).value;
    assert SerializeEachF(c.indexAttributes, user, opts, []) == Ok([]);
    assert SerializeEachF(c.indexAttributes, user, opts, [item]) == Ok([] + [Hash(m)]);
    assert [] + [Hash(m)] == [Hash(m)];
  }

  /** An absent (blank) item writes nothing, whatever the attributes. */
  lemma {:induction false} AbsentItemWritesNothing(attrs: seq<Attribute>, user: Value, opts: Value, out: seq<Entry>, item: Value)
    requires Blank(item)
    ensures ExtractAllF(attrs, user, opts, out, item) == Ok(out)
  {
    if |attrs| > 0 {
      AbsentItemWritesNothing(attrs[..|attrs| - 1], user, opts, out, item);
    }
  }

  /** A symbol attribute stores the item's value under its own name and leaves every
      other key as it was. */
  lemma FieldWrites(n: string, user: Value, opts: Value, out: seq<Entry>, item: Value, q: string)
    requires Present(item) && item.Rec? && n in item.rec.fields
    ensures ExtractF(Field(n), user, opts, out, item).Ok?
    ensures Lookup(ExtractF(Field(n), user, opts, out, item).value, q)
         == if q == n then Some(item.rec.fields[n]) else Lookup(out, q)
  {
    LookupPut(out, n, item.rec.fields[n], q);
  }

  /** A callback entry stores `callback(item, current_user, options)` under its key. */
  lemma ComputedWrites(key: string, fn: Callback, user: Value, opts: Value, out: seq<Entry>, item: Value)
    ensures ExtractEntryF(KeyedEntry(key, Computed(fn)), user, opts, out, item).Ok?
    ensures Lookup(ExtractEntryF(KeyedEntry(key, Computed(fn)), user, opts, out, item).value, key)
         == Some(fn(item, user, opts))
  {
    LookupPut(out, key, fn(item, user, opts), key);
  }

  /** A nested list on a has-many key stores one hash per associated record, in order:
      element `i` is the i-th record's attributes extracted into a fresh hash. */
  lemma InlineHasMany(key: string, attrs: seq<Attribute>, user: Value, opts: Value, out: seq<Entry>, item: Value)
    requires item.Rec? && key in item.rec.kinds && item.rec.kinds[key] == HasMany
    requires key in item.rec.fields && item.rec.fields[key].List?
    requires forall i :: 0 <= i < |item.rec.fields[key].items| ==> ExtractAllF(attrs, user, opts, [], item.rec.fields[key].items[i]).Ok?
    ensures var r := ExtractEntryF(KeyedEntry(key, Inline(attrs)), user, opts, out, item);
            var xs := item.rec.fields[key].items;
            r.Ok? && Lookup(r.value, key).Some? && Lookup(r.value, key).value.List?
            && |Lookup(r.value, key).value.items| == |xs|
            && forall i :: 0 <= i < |xs| ==>
                 Lookup(r.value, key).value.items[i] == Hash(ExtractAllF(attrs, user, opts, [], xs[i]).value)
  {
    var xs := item.rec.fields[key].items;
    SerializeEachShape(attrs, user, opts, xs);
    var ms := SerializeEachF(attrs, user, opts, xs).value;
    assert KindOf(item, key) == Ok(Some(HasMany));
    assert InlineEntryF(key, attrs, user, opts, out, item) == Ok(Put(out, key, List(ms)));
    LookupPut(out, key, List(ms), key);
  }

  /** A nested list on a to-one key stores a single hash: the associated record's
      attributes extracted into a fresh hash, which is empty when nothing is
      associated; the entry raises exactly when that extraction does. */
  lemma InlineToOne(key: string, attrs: seq<Attribute>, user: Value, opts: Value, out: seq<Entry>, item: Value)
    requires item.Rec? && key in item.rec.kinds && item.rec.kinds[key] != HasMany
    requires key in item.rec.fields
    ensures var r := ExtractEntryF(KeyedEntry(key, Inline(attrs)), user, opts, out, item);
            var m := ExtractAllF(attrs, user, opts, [], item.rec.fields[key]);
            (r.Ok? <==> m.Ok?)
            && (m.Ok? ==> Lookup(r.value, key) == Some(Hash(m.value)))
    ensures item.rec.fields[key].Nil? ==>
              var r := ExtractEntryF(KeyedEntry(key, Inline(attrs)), user, opts, out, item);
              r.Ok? && Lookup(r.value, key) == Some(Hash([]))
  {
    var rel := item.rec.fields[key];
    var m := ExtractAllF(attrs, user, opts, [], rel);
    assert KindOf(item, key) == Ok(Some(item.rec.kinds[key]));
    assert Send(item, key) == Ok(rel);
    if m.Ok? {
      assert InlineEntryF(key, attrs, user, opts, out, item) == Ok(Put(out, key, Hash(m.value)));
      LookupPut(out, key, Hash(m.value), key);
    } else {
      assert InlineEntryF(key, attrs, user, opts, out, item) == Err(m.error);
    }
    if rel.Nil? {
      AbsentItemWritesNothing(attrs, user, opts, [], Nil);
    }
  }

  /** A serializer class on a has-many key stores what that class's `render_index`
      answers for the association, and raises exactly when that rendering does. */
  lemma SerializerHasMany(key: string, c: SerializerClass, user: Value, opts: Value, out: seq<Entry>, item: Value)
    requires c.isSerializer
    requires item.Rec? && key in item.rec.kinds && item.rec.kinds[key] == HasMany
    requires key in item.rec.fields
    ensures var r := ExtractEntryF(KeyedEntry(key, SerializerRef(c)), user, opts, out, item);
            var l := RenderIndexF(c, user, opts, item.rec.fields[key]);
            (r.Ok? <==> l.Ok?)
            && (l.Ok? ==> Lookup(r.value, key) == Some(List(l.value)))
  {
    var l := RenderIndexF(c, user, opts, item.rec.fields[key]);
    assert KindOf(item, key) == Ok(Some(HasMany));
    assert Send(item, key) == Ok(item.rec.fields[key]);
    if l.Ok? {
      assert SerializerEntryF(key, c, user, opts, out, item) == Ok(Put(out, key, List(l.value)));
      LookupPut(out, key, List(l.value), key);
    } else {
      assert SerializerEntryF(key, c, user, opts, out, item) == Err(l.error);
    }
  }

  /** `render_index` of a collection of records: one hash per record, in order, each
      filled from the class's index attributes. */
  lemma RenderIndexCollection(c: SerializerClass, user: Value, opts: Value, xs: seq<Value>)
    requires forall i :: 0 <= i < |xs| ==> xs[i].Rec?
    requires forall i :: 0 <= i < |xs| ==> ExtractAllF(c.indexAttributes, user, opts, [], xs[i]).Ok?
    ensures RenderIndexF(c, user, opts, List(xs)).Ok?
    ensures |RenderIndexF(c, user, opts, List(xs)).value| == |xs|
    ensures forall i :: 0 <= i < |xs| ==>
              RenderIndexF(c, user, opts, List(xs)).value[i] == Hash(ExtractAllF(c.indexAttributes, user, opts, [], xs[i]).value)
  {
    FlattenAllOfFlat(xs);
    SerializeEachShape(c.indexAttributes, user, opts, xs);
  }

  /** A serializer class on a to-one key stores the first rendered hash, or nil when
      nothing is associated. */
  lemma SerializerToOne(key: string, c: SerializerClass, user: Value, opts: Value, out: seq<Entry>, item: Value)
    requires c.isSerializer
    requires item.Rec? && key in item.rec.kinds && item.rec.kinds[key] != HasMany
    requires key in item.rec.fields
    requires var rel := item.rec.fields[key];
             rel.Nil? || (rel.Rec? && ExtractAllF(c.indexAttributes, user, opts, [], rel).Ok?)
    ensures var r := ExtractEntryF(KeyedEntry(key, SerializerRef(c)), user, opts, out, item);
            var rel := item.rec.fields[key];
            r.Ok?
            && Lookup(r.value, key)
               == Some(if rel.Nil? then Nil else Hash(ExtractAllF(c.indexAttributes, user, opts, [], rel).value))
  {
    var rel := item.rec.fields[key];
    assert KindOf(item, key) == Ok(Some(item.rec.kinds[key]));
    assert Send(item, key) == Ok(rel);
    if rel.Rec? {
      var h := Hash(ExtractAllF(c.indexAttributes, user, opts, [], rel).value);
      RenderIndexSingle(c, user, opts, rel);
      assert SerializerEntryF(key, c, user, opts, out, item) == Ok(Put(out, key, h));
      LookupPut(out, key, h, key);
    } else {
      assert SerializerEntryF(key, c, user, opts, out, item) == Ok(Put(out, key, Nil));
      LookupPut(out, key, Nil, key);
    }
  }

  /** A serializer class on a key that is no association renders the item itself
      through that class, as a one-element list. */
  lemma SerializerDelegates(key: string, c: SerializerClass, user: Value, opts: Value, out: seq<Entry>, item: Value)
    requires c.isSerializer
    requires item.Rec? && key !in item.rec.kinds
    requires ExtractAllF(c.indexAttributes, user, opts, [], item).Ok?
    ensures var r := ExtractEntryF(KeyedEntry(key, SerializerRef(c)), user, opts, out, item);
            r.Ok? && Lookup(r.value, key) == Some(List([Hash(ExtractAllF(c.indexAttributes, user, opts, [], item).value)]))
  {
    var l := [Hash(ExtractAllF(c.indexAttributes, user, opts, [], item).value)];
    RenderIndexSingle(c, user, opts, item);
    assert KindOf(item, key) == Ok(None);
    assert SerializerEntryF(key, c, user, opts, out, item) == Ok(Put(out, key, List(l)));
    LookupPut(out, key, List(l), key);
  }

  /** An entry that matches no branch adds no key. */
  lemma NoBranchNoKey(e: KeyedEntry, user: Value, opts: Value, out: seq<Entry>, item: Value)
    requires item.Rec? && e.key !in item.rec.kinds
    requires e.spec.Other? || e.spec.Inline? || (e.spec.SerializerRef? && !e.spec.cls.isSerializer)
    ensures ExtractEntryF(e, user, opts, out, item) == Ok(out)
  {
  }

  /** Extraction only adds keys: every key already in the hash is still there. */
  lemma {:induction false} EntriesKeepKeys(es: seq<KeyedEntry>, user: Value, opts: Value, out: seq<Entry>, item: Value, q: string)
    requires ExtractEntriesF(es, user, opts, out, item).Ok? && q in Keys(out)
    ensures q in Keys(ExtractEntriesF(es, user, opts, out, item).value)
  {
    if |es| > 0 {
      var init := es[..|es| - 1];
      EntriesKeepKeys(init, user, opts, out, item, q);
      var o := ExtractEntriesF(init, user, opts, out, item).value;
      EntryKeepsKeys(es[|es| - 1], user, opts, o, item, q);
    }
  }

  lemma EntryKeepsKeys(e: KeyedEntry, user: Value, opts: Value, out: seq<Entry>, item: Value, q: string)
    requires ExtractEntryF(e, user, opts, out, item).Ok? && q in Keys(out)
    ensures q in Keys(ExtractEntryF(e, user, opts, out, item).value)
  {
  }

  lemma {:induction false} ExtractAllKeepsKeys(attrs: seq<Attribute>, user: Value, opts: Value, out: seq<Entry>, item: Value, q: string)
    requires ExtractAllF(attrs, user, opts, out, item).Ok? && q in Keys(out)
    ensures q in Keys(ExtractAllF(attrs, user, opts, out, item).value)
  {
    if |attrs| > 0 {
      var init := attrs[..|attrs| - 1];
      ExtractAllKeepsKeys(init, user, opts, out, item, q);
      var o := ExtractAllF(init, user, opts, out, item).value;
      var a := attrs[|attrs| - 1];
      if !Blank(item) {
        match a
        case Field(n) =>
          KeysPut(o, n, item.rec.fields[n]);
        case Keyed(es) =>
          EntriesKeepKeys(es, user, opts, o, item, q);
        case Unsupported(_) =>
      }
    }
  }
}
