/** The parts of an Express exchange the handlers touch: the JSON body they send, the status
    they set, and the user record the session middleware keeps between requests. */
module Http {
  import opened Wrappers

  /** A JSON value as `res.json` serialises it. Objects keep their keys in insertion order. */
  datatype Json =
    | JNull
    | JBool(b: bool)
    | JInt(i: int)
    | JReal(x: real)
    | JStr(s: string)
    | JArr(elems: seq<Json>)
    | JObj(members: seq<(string, Json)>)

  /** The value stored under `key`, first occurrence first. */
  function Lookup(members: seq<(string, Json)>, key: string): (r: Option<Json>)
    ensures r.Some? <==> exists i :: 0 <= i < |members| && members[i].0 == key
  {
    if members == [] then None
    else if members[0].0 == key then Some(members[0].1)
    else Lookup(members[1..], key)
  }

  /** A string field of a request (body, query or path) as JavaScript tests it: `if (field)`
      and `!field` see it only when it was sent and is not the empty string. */
  predicate Truthy(f: Option<string>) {
    f.Some? && f.value != []
  }

  /** What the client receives: the status and either a JSON body or, after `.end()`, none. */
  datatype Response = Response(status: int, body: Option<Json>)

  /** `res.status(status).json({ error: msg })`. */
  function ErrorReply(status: int, msg: string): Response {
    Response(status, Some(JObj([("error", JStr(msg))])))
  }

  /** `res.status(status).json({ message: msg })`. */
  function MessageReply(status: int, msg: string): Response {
    Response(status, Some(JObj([("message", JStr(msg))])))
  }

  /** `res.json(body)` without a status: Express sends 200. */
  function DefaultStatusReply(body: Json): Response {
    Response(200, Some(body))
  }

  /** `req.session.user`: lesson 10 stores the id, email and username of the new row, the later
      lessons only the id. */
  datatype SessionUser = SessionUser(id: int, email: Option<string>, username: Option<string>)

  /** A session user holding only an id, as `{ id }` is written from lesson 11 on. */
  function IdOnly(id: int): SessionUser {
    SessionUser(id, None, None)
  }

  /** The session the `express-session` middleware hands to a handler; the handlers assign or
      clear `user`, and `destroy` ends the whole session. */
  class Session {
    var user: Option<SessionUser>

    constructor (user: Option<SessionUser>)
      ensures this.user == user
    {
      this.user := user;
    }
  }
}
