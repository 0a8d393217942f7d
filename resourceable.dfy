/** Resourceable: the `allow_params` / `permitted_params` accumulator a model class uses
    to declare the attributes a controller may mass-assign. */
module Resourceable {
  import opened Wrappers

  /** One entry of a permit list: an attribute name, or a hash from nested-attribute
      names to their own permit lists. */
  datatype Permit =
    | Key(name: string)
    | Nested(entries: seq<NestedPermit>)

  datatype NestedPermit = NestedPermit(key: string, inner: seq<Permit>)

  /** The class instance variable `@params` of a model class: nil until the first
      `allow_params` call. */
  class Model {
    var params: Option<seq<Permit>>

    constructor ()
      ensures params == None
    {
      params := None;
    }

    /** `allow_params(*params)`: starts from an empty list and appends the arguments. */
    method AllowParams(args: seq<Permit>) returns (r: seq<Permit>)
      modifies this`params
      ensures params == Some(old(params).GetOr([]) + args)
      ensures r == params.value
    {
      var current := params.GetOr([]);
      params := Some(current + args);
      r := current + args;
    }

    /** `permitted_params`: the stored list, or nil; reading it changes nothing. */
    function PermittedParams(): (r: Option<seq<Permit>>)
      reads this
      ensures r == params
    {
      params
    }
  }

  /** The list after a series of `allow_params` calls. */
  function Accumulated(calls: seq<seq<Permit>>): (r: Option<seq<Permit>>)
    ensures r.None? <==> |calls| == 0
  {
    if |calls| == 0 then None
    else Some(Accumulated(calls[..|calls| - 1]).GetOr([]) + calls[|calls| - 1])
  }

  /** The flattened arguments of a series of calls. */
  function Concat(calls: seq<seq<Permit>>): seq<Permit> {
    if |calls| == 0 then [] else Concat(calls[..|calls| - 1]) + calls[|calls| - 1]
  }

  /** After any calls, empty ones included, the list is the concatenation of every
      argument so far. */
  lemma {:induction false} AccumulatedIsConcat(calls: seq<seq<Permit>>)
    requires |calls| > 0
    ensures Accumulated(calls) == Some(Concat(calls))
  {
    if |calls| > 1 {
      AccumulatedIsConcat(calls[..|calls| - 1]);
    }
  }

  /** A class body declaring its params over several `allow_params` calls, one after the
      other: `@params` ends as `Accumulated` of the arguments. */
  method AllowAll(calls: seq<seq<Permit>>) returns (m: Model)
    ensures fresh(m)
    ensures m.PermittedParams() == Accumulated(calls)
  {
    m := new Model();
    var i := 0;
    while i < |calls|
      invariant 0 <= i <= |calls|
      invariant m.params == Accumulated(calls[..i])
    {
      assert calls[..i + 1][..i] == calls[..i];
      var _ := m.AllowParams(calls[i]);
      i := i + 1;
    }
    assert calls[..|calls|] == calls;
  }
}
