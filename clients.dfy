/**
  The client registry (server/lib/clients.ts): the list of registered
  clients, loaded lazily from configuration on first use, and the exact-match
  check of a redirect URI against a client's registered list.
*/
module Clients {
  import opened Wrappers

  datatype Client = Client(client_id: string, redirect_uris: seq<string>)

  /** Index i holds the first client in list order with that id. */
  predicate IsFirstMatch(clients: seq<Client>, id: string, i: int)
  {
    0 <= i < |clients| && clients[i].client_id == id
    && forall j :: 0 <= j < i ==> clients[j].client_id != id
  }

  /** `findClient` over a loaded list: `find(c => c.client_id === id) || null`. */
  function Find(clients: seq<Client>, id: string): (r: Option<Client>)
    ensures r.None? <==> forall i :: 0 <= i < |clients| ==> clients[i].client_id != id
    ensures r.Some? ==> exists i :: IsFirstMatch(clients, id, i) && clients[i] == r.value
  {
    if clients == [] then None
    else if clients[0].client_id == id then
      assert IsFirstMatch(clients, id, 0);
      Some(clients[0])
    else
      var r := Find(clients[1..], id);
      assert r.Some? ==> exists i :: IsFirstMatch(clients[1..], id, i) && clients[1..][i] == r.value;
      assert forall i :: IsFirstMatch(clients[1..], id, i) ==> IsFirstMatch(clients, id, i + 1);
      r
  }

  /**
    `validateRedirect` over a loaded list: false for an unknown client, and
    otherwise true exactly when the URI is string-equal to one of the first
    matching client's registered URIs (no prefix or pattern matching).
  */
  function ValidRedirect(clients: seq<Client>, id: string, uri: string): (b: bool)
    ensures b <==> exists i :: IsFirstMatch(clients, id, i)
                               && exists k :: 0 <= k < |clients[i].redirect_uris|
                                              && clients[i].redirect_uris[k] == uri
  {
    match Find(clients, id)
    case None => false
    case Some(c) => uri in c.redirect_uris
  }

  /** At most one index is the first match. */
  lemma FirstMatchUnique(clients: seq<Client>, id: string, i: int, j: int)
    requires IsFirstMatch(clients, id, i) && IsFirstMatch(clients, id, j)
    ensures i == j
  {
  }

  /**
    With duplicated ids only the first entry counts: whatever follows it,
    including other entries with the same id, is never consulted.
  */
  lemma {:induction false} FirstEntryDecides(before: seq<Client>, c: Client, after: seq<Client>, uri: string)
    requires forall j :: 0 <= j < |before| ==> before[j].client_id != c.client_id
    ensures Find(before + [c] + after, c.client_id) == Some(c)
    ensures ValidRedirect(before + [c] + after, c.client_id, uri) <==> uri in c.redirect_uris
  {
    var cs := before + [c] + after;
    assert IsFirstMatch(cs, c.client_id, |before|);
    var r := Find(cs, c.client_id);
    var i :| IsFirstMatch(cs, c.client_id, i) && cs[i] == r.value;
    FirstMatchUnique(cs, c.client_id, i, |before|);
  }

  /**
    The module-level `clients` list. It starts empty and `loadClients` fills
    it from the configured list (the parsed CLIENTS_JSON) the first time it is
    found empty, so it only ever holds nothing or the configured list.
  */
  class Registry {
    const configured: seq<Client>
    var clients: seq<Client>

    ghost predicate Valid()
      reads this
    {
      clients == [] || clients == configured
    }

    constructor (configured: seq<Client>)
      ensures Valid() && this.configured == configured && clients == []
    {
      this.configured := configured;
      clients := [];
    }

    /**
      `loadClients`: loads only while the list is empty; a non-empty list is
      returned unchanged, so repeated calls are idempotent.
    */
    method LoadClients() returns (cs: seq<Client>)
      requires Valid()
      modifies this
      ensures Valid()
      ensures old(clients) != [] ==> clients == old(clients)
      ensures old(clients) == [] ==> clients == configured
      ensures cs == clients && cs == configured
    {
      if |clients| == 0 {
        clients := configured;
      }
      cs := clients;
    }

    /** `findClient`: the first configured client with that id, or null. */
    method FindClient(id: string) returns (c: Option<Client>)
      requires Valid()
      modifies this
      ensures Valid() && clients == configured
      ensures c == Find(configured, id)
    {
      var cs := LoadClients();
      c := Find(cs, id);
    }

    /** `validateRedirect`: exact membership in the first matching client's URIs. */
    method ValidateRedirect(id: string, uri: string) returns (b: bool)
      requires Valid()
      modifies this
      ensures Valid() && clients == configured
      ensures b == ValidRedirect(configured, id, uri)
    {
      var c := FindClient(id);
      if c.None? {
        return false;
      }
      b := uri in c.value.redirect_uris;
    }
  }
}
