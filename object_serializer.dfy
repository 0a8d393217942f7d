/** ObjectSerializer: the declarative attribute lists of a serializer class, and the
    `index_attributes` / `show_attributes` class methods that accumulate them. */
module ObjectSerializer {
  import opened Wrappers
  import opened Values

  /** A block or proc given an attribute: called with the item, the current user and
      the options. */
  type Callback = (Value, Value, Value) -> Value

  /** One element of an attribute list. */
  datatype Attribute =
      /** A symbol: the item's method of that name. */
    | Field(name: string)
      /** A hash: each key with what to do for it. */
    | Keyed(entries: seq<KeyedEntry>)
      /** Anything else, which `extract_value` ignores. */
    | Unsupported(v: Value)

  datatype KeyedEntry = KeyedEntry(key: string, spec: Spec)

  /** The value stored under a key of an attribute hash. */
  datatype Spec =
    | Computed(fn: Callback)
      /** An array: a nested attribute list for an association. */
    | Inline(attrs: seq<Attribute>)
      /** A class: a nested serializer (or, when `isSerializer` is false, some other class). */
    | SerializerRef(cls: SerializerClass)
      /** Anything else, which matches no branch. */
    | Other(v: Value)

  /** A serializer class as its attribute lists at the time of rendering. */
  datatype SerializerClass = SerializerClass(isSerializer: bool, indexAttributes: seq<Attribute>, showAttributes: seq<Attribute>)

  /** The class instance variables `@index_attributes` and `@show_attributes`. */
  class Registry {
    var indexAttributes: seq<Attribute>
    var showAttributes: seq<Attribute>

    constructor ()
      ensures indexAttributes == [] && showAttributes == []
    {
      indexAttributes, showAttributes := [], [];
    }

    /** `self.index_attributes(*attrs, &block)`. */
    method IndexAttributes(attrs: seq<Attribute>, block: Option<Callback>) returns (r: seq<Attribute>)
      requires |attrs| == 1 && block.Some? ==> attrs[0].Field?
      modifies this`indexAttributes
      ensures indexAttributes == old(indexAttributes) + Registered(attrs, block)
      ensures r == indexAttributes
    {
      if |attrs| > 0 {
        if |attrs| == 1 && block.Some? {
          indexAttributes := indexAttributes + [Keyed([KeyedEntry(attrs[0].name, Computed(block.value))])];
        } else {
          indexAttributes := indexAttributes + attrs;
        }
      }
      r := indexAttributes;
    }

    /** `self.show_attributes(*attrs, &block)`. */
    method ShowAttributes(attrs: seq<Attribute>, block: Option<Callback>) returns (r: seq<Attribute>)
      requires |attrs| == 1 && block.Some? ==> attrs[0].Field?
      modifies this`showAttributes
      ensures showAttributes == old(showAttributes) + Registered(attrs, block)
      ensures r == showAttributes
    {
      if |attrs| > 0 {
        if |attrs| == 1 && block.Some? {
          showAttributes := showAttributes + [Keyed([KeyedEntry(attrs[0].name, Computed(block.value))])];
        } else {
          showAttributes := showAttributes + attrs;
        }
      }
      r := showAttributes;
    }
  }

  /** What one registration call appends: `{name => block}` for one name with a block,
      otherwise the arguments themselves (a block given with several names is dropped). */
  function Registered(attrs: seq<Attribute>, block: Option<Callback>): (r: seq<Attribute>)
    requires |attrs| == 1 && block.Some? ==> attrs[0].Field?
    ensures |attrs| == 0 ==> r == []
    ensures |attrs| == 1 && block.Some? ==>
              |r| == 1 && r[0].Keyed? && |r[0].entries| == 1
              && r[0].entries[0].key == attrs[0].name && r[0].entries[0].spec == Computed(block.value)
    ensures !(|attrs| == 1 && block.Some?) ==> r == attrs
  {
    if |attrs| == 0 then []
    else if |attrs| == 1 && block.Some? then [Keyed([KeyedEntry(attrs[0].name, Computed(block.value))])]
    else attrs
  }
}
