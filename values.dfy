/** The Ruby values the controller layer reads and writes: request parameters,
    record attributes and serialized output. Hashes keep Ruby's insertion order,
    so they are lists of entries rather than maps. */
module Values {
  import opened Wrappers

  /** The three association macros the layer reflects on. */
  datatype Kind = BelongsTo | HasOne | HasMany

  datatype Value =
    | Nil
    | Bool(b: bool)
    | Int(i: int)
    | Str(s: string)
    | List(items: seq<Value>)
    | Hash(entries: seq<Entry>)
    | Rec(rec: Record)

  datatype Entry = Entry(key: string, val: Value)

  /** A loaded record: what `send` answers (attributes and association readers alike)
      and its class's association reflection. */
  datatype Record = Record(fields: map<string, Value>, kinds: map<string, Kind>)

  /** The Ruby exceptions the model keeps: a method called on a receiver that does not
      have it (most often `nil`), a wrong argument type, and a failed date parse. */
  datatype Fault = NoMethod(name: string) | TypeMismatch(detail: string) | ParseFailure(input: string)

  /** Unicode White_Space, the class `[[:space:]]` that `String#blank?` tests. */
  predicate IsSpace(c: char) {
    ('\t' <= c <= '\r') || c == ' ' || c == '\U{0085}' || c == '\U{00A0}' || c == '\U{1680}'
    || ('\U{2000}' <= c <= '\U{200A}') || c == '\U{2028}' || c == '\U{2029}'
    || c == '\U{202F}' || c == '\U{205F}' || c == '\U{3000}'
  }

  predicate BlankString(s: string) {
    forall i :: 0 <= i < |s| ==> IsSpace(s[i])
  }

  /** ActiveSupport's `blank?`: nil, false, whitespace-only strings and empty collections. */
  predicate Blank(v: Value) {
    match v
    case Nil => true
    case Bool(b) => !b
    case Int(_) => false
    case Str(s) => BlankString(s)
    case List(xs) => |xs| == 0
    case Hash(es) => |es| == 0
    case Rec(_) => false
  }

  predicate Present(v: Value) {
    !Blank(v)
  }

  /** `present?` of an optional string parameter (an absent key reads as nil). */
  predicate PresentStr(o: Option<string>) {
    o.Some? && !BlankString(o.value)
  }

  // ---------------------------------------------------------------------------
  // Ordered hashes

  function Keys(es: seq<Entry>): (ks: seq<string>)
    ensures |ks| == |es|
    ensures forall i :: 0 <= i < |es| ==> ks[i] == es[i].key
  {
    if |es| == 0 then [] else [es[0].key] + Keys(es[1..])
  }

  predicate UniqueKeys(es: seq<Entry>) {
    forall i, j :: 0 <= i < j < |es| ==> es[i].key != es[j].key
  }

  /** `h[k]`: the value stored under `k`, if any. */
  function Lookup(es: seq<Entry>, k: string): (r: Option<Value>)
    ensures r.Some? <==> k in Keys(es)
  {
    if |es| == 0 then None
    else if es[0].key == k then Some(es[0].val)
    else Lookup(es[1..], k)
  }

  /** `h.delete(k)`, keeping every other entry in place. */
  function Delete(es: seq<Entry>, k: string): (r: seq<Entry>)
    ensures k !in Keys(r)
    ensures |r| <= |es|
  {
    if |es| == 0 then []
    else if es[0].key == k then Delete(es[1..], k)
    else [es[0]] + Delete(es[1..], k)
  }

  /** `h[k] = v`: an existing key keeps its position, a new key goes last. */
  function Put(es: seq<Entry>, k: string, v: Value): (r: seq<Entry>)
    ensures k in Keys(r)
    ensures forall q :: q in Keys(es) ==> q in Keys(r)
  {
    if |es| == 0 then [Entry(k, v)]
    else if es[0].key == k then [Entry(k, v)] + es[1..]
    else [es[0]] + Put(es[1..], k, v)
  }

  lemma {:induction false} LookupPut(es: seq<Entry>, k: string, v: Value, q: string)
    ensures Lookup(Put(es, k, v), q) == if q == k then Some(v) else Lookup(es, q)
  {
    if |es| > 0 && es[0].key != k {
      LookupPut(es[1..], k, v, q);
    }
  }

  lemma {:induction false} LookupDelete(es: seq<Entry>, k: string, q: string)
    ensures Lookup(Delete(es, k), q) == if q == k then None else Lookup(es, q)
  {
    if |es| > 0 {
      LookupDelete(es[1..], k, q);
    }
  }

  /** Assigning to a new key appends it; assigning to an existing one keeps the key order. */
  lemma {:induction false} KeysPut(es: seq<Entry>, k: string, v: Value)
    ensures Keys(Put(es, k, v)) == if k in Keys(es) then Keys(es) else Keys(es) + [k]
  {
    if |es| > 0 && es[0].key != k {
      KeysPut(es[1..], k, v);
      assert Keys(es) == [es[0].key] + Keys(es[1..]);
    }
  }

  lemma {:induction false} PutUnique(es: seq<Entry>, k: string, v: Value)
    requires UniqueKeys(es)
    ensures UniqueKeys(Put(es, k, v))
  {
    KeysPut(es, k, v);
    var r := Put(es, k, v);
    forall i, j | 0 <= i < j < |r| ensures r[i].key != r[j].key {
      assert Keys(r)[i] == r[i].key && Keys(r)[j] == r[j].key;
      if k in Keys(es) {
        assert Keys(es)[i] == es[i].key && Keys(es)[j] == es[j].key;
      } else {
        if j < |es| {
          assert Keys(es)[i] == es[i].key && Keys(es)[j] == es[j].key;
        } else {
          assert Keys(es)[i] == es[i].key;
        }
      }
    }
  }
}
