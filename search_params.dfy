/**
  The lookup half of URLSearchParams, through which both routes read their
  inputs: the query string of /authorize and the form body of /token.
  Splitting and percent-decoding the raw text is not modelled; a route is
  given the decoded name/value pairs in order.
*/
module SearchParams {
  import opened Wrappers

  /** Decoded name/value pairs, in the order they appear in the text. */
  type Params = seq<(string, string)>

  /** `params.get(name)`: the value of the FIRST pair with that name, or null. */
  function Get(params: Params, name: string): (r: Option<string>)
    ensures r.None? <==> forall i :: 0 <= i < |params| ==> params[i].0 != name
    ensures r.Some? ==>
              exists i :: 0 <= i < |params| && params[i] == (name, r.value)
                          && forall j :: 0 <= j < i ==> params[j].0 != name
  {
    if params == [] then None
    else if params[0].0 == name then Some(params[0].1)
    else
      var r := Get(params[1..], name);
      assert r.Some? ==> exists i :: 1 <= i < |params| && params[i] == (name, r.value)
                                     && forall j :: 0 <= j < i ==> params[j].0 != name;
      r
  }

  /** The value of a pair is what `get` returns when no earlier pair has that name. */
  lemma GetFirst(params: Params, i: int, name: string)
    requires 0 <= i < |params| && params[i].0 == name
    requires forall j :: 0 <= j < i ==> params[j].0 != name
    ensures Get(params, name) == Some(params[i].1)
  {
  }

  /** `params.get(name) || ""`: a missing (or empty) parameter reads as "". */
  function GetOrEmpty(params: Params, name: string): string
  {
    match Get(params, name)
    case Some(v) => v
    case None => ""
  }

  /**
    What `params.get(name) || ""` reads: "" when no pair has that name,
    otherwise the value of the first pair with that name.
  */
  lemma GetOrEmptyValue(params: Params, name: string)
    ensures (forall i :: 0 <= i < |params| ==> params[i].0 != name) ==> GetOrEmpty(params, name) == ""
    ensures forall i :: (0 <= i < |params| && params[i].0 == name
                         && forall j :: 0 <= j < i ==> params[j].0 != name) ==>
                        GetOrEmpty(params, name) == params[i].1
  {
    forall i | 0 <= i < |params| && params[i].0 == name && forall j :: 0 <= j < i ==> params[j].0 != name
      ensures GetOrEmpty(params, name) == params[i].1
    {
      GetFirst(params, i, name);
    }
  }
}
