/**
  The authorization-code store (server/lib/authcodes.ts): a process-wide map
  from code to record. A record is inserted when /authorize mints a code and
  removed the first time /token presents it, so a code is redeemed at most
  once. The random code and the clock are parameters.
*/
module AuthCodes {
  import opened Wrappers

  /** The only challenge method the server accepts (section 4.2 of RFC 7636). */
  const S256: string := "S256"

  /** One issued code and everything bound to it. */
  datatype AuthCode = AuthCode(
    code: string,
    client_id: string,
    redirect_uri: string,
    code_challenge: string,
    challengeMethod: string,
    userEmail: string,
    createdAt: int)

  /** What a caller supplies to createCode: a record without `code` and `createdAt`. */
  datatype CodeInput = CodeInput(
    client_id: string,
    redirect_uri: string,
    code_challenge: string,
    challengeMethod: string,
    userEmail: string)

  /** Every record is stored under its own code and carries method S256. */
  ghost predicate WellFormed(codes: map<string, AuthCode>)
  {
    forall c :: c in codes ==> codes[c].code == c && codes[c].challengeMethod == S256
  }

  class CodeStore {
    var codes: map<string, AuthCode>

    ghost predicate Valid()
      reads this
    {
      WellFormed(codes)
    }

    constructor ()
      ensures Valid() && codes == map[]
    {
      codes := map[];
    }

    /**
      `createCode`: stores the input under the new code and returns the stored
      record. There is no freshness check: a colliding code replaces the older
      record, and every other code keeps its record.
    */
    method CreateCode(input: CodeInput, code: string, createdAt: int) returns (item: AuthCode)
      requires Valid()
      requires input.challengeMethod == S256
      modifies this
      ensures Valid()
      ensures item.code == code && item.createdAt == createdAt
      ensures item.client_id == input.client_id && item.redirect_uri == input.redirect_uri
      ensures item.code_challenge == input.code_challenge && item.challengeMethod == S256
      ensures item.userEmail == input.userEmail
      ensures codes == old(codes)[code := item]
      ensures forall c :: c != code ==> (c in codes <==> c in old(codes))
      ensures forall c :: c != code && c in codes ==> codes[c] == old(codes)[c]
    {
      item := AuthCode(code, input.client_id, input.redirect_uri, input.code_challenge,
                       input.challengeMethod, input.userEmail, createdAt);
      codes := codes[code := item];
    }

    /**
      `consumeCode`: look up and delete in one step. A present code yields its
      record and is gone afterwards; an absent one yields null and changes
      nothing. No other code is affected either way.
    */
    method ConsumeCode(code: string) returns (item: Option<AuthCode>)
      requires Valid()
      modifies this
      ensures Valid()
      ensures code in old(codes) ==> item == Some(old(codes)[code]) && codes == old(codes) - {code}
      ensures code !in old(codes) ==> item == None && codes == old(codes)
      ensures item.Some? ==> item.value.code == code && item.value.challengeMethod == S256
      ensures code !in codes
      ensures forall c :: c != code ==> (c in codes <==> c in old(codes))
      ensures forall c :: c != code && c in codes ==> codes[c] == old(codes)[c]
    {
      if code in codes {
        item := Some(codes[code]);
        codes := codes - {code};
      } else {
        item := None;
      }
    }
  }

  /** Presenting the same code twice: the second lookup finds nothing. */
  method ConsumeTwice(store: CodeStore, code: string) returns (first: Option<AuthCode>, second: Option<AuthCode>)
    requires store.Valid()
    modifies store
    ensures store.Valid()
    ensures first == (if code in old(store.codes) then Some(old(store.codes)[code]) else None)
    ensures second == None
    ensures store.codes == old(store.codes) - {code}
  {
    first := store.ConsumeCode(code);
    second := store.ConsumeCode(code);
  }
}
