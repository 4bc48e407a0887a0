/**
  The session store (server/lib/sessions.ts): a process-wide map from session
  id to the logged-in email. The `sid` cookie of a request is an input
  (absent, or its value), and the cookie set by setSession is its result.
*/
module Sessions {
  import opened Wrappers

  datatype Session = Session(userEmail: string, createdAt: int)

  class SessionStore {
    var sessions: map<string, Session>

    constructor ()
      ensures sessions == map[]
    {
      sessions := map[];
    }

    /**
      `getCurrentSession`: null when the request has no `sid` cookie (or an
      empty one) or an unknown sid; otherwise the stored session.
    */
    function GetCurrentSession(cookie: Option<string>): (r: Option<Session>)
      reads this
      ensures cookie == None || cookie == Some("") ==> r == None
      ensures cookie.Some? && cookie.value != "" ==>
                (r.Some? <==> cookie.value in sessions)
                && (r.Some? ==> r.value == sessions[cookie.value])
    {
      match cookie
      case None => None
      case Some(sid) =>
        if sid == "" then None
        else if sid in sessions then Some(sessions[sid])
        else None
    }

    /** `requireSession`: throws "no-session" exactly when there is no current session. */
    function RequireSession(cookie: Option<string>): (r: Result<Session, string>)
      reads this
      ensures r.Err? <==> GetCurrentSession(cookie) == None
      ensures r.Err? ==> r.error == "no-session"
      ensures r.Ok? ==> GetCurrentSession(cookie) == Some(r.value)
    {
      match GetCurrentSession(cookie)
      case None => Err("no-session")
      case Some(s) => Ok(s)
    }

    /**
      `setSession`: stores the email under the new sid and sets the cookie to
      it, so a request carrying that cookie then finds this session. Other
      sessions are left alone.
    */
    method SetSession(email: string, sid: string, createdAt: int) returns (cookie: string)
      requires sid != ""
      modifies this
      ensures cookie == sid
      ensures sessions == old(sessions)[sid := Session(email, createdAt)]
      ensures forall s :: s != sid ==> (s in sessions <==> s in old(sessions))
      ensures forall s :: s != sid && s in sessions ==> sessions[s] == old(sessions)[s]
      ensures GetCurrentSession(Some(cookie)) == Some(Session(email, createdAt))
    {
      sessions := sessions[sid := Session(email, createdAt)];
      cookie := sid;
    }
  }
}
