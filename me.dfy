/** `getCurrentUser` of `me.controller.ts`: whether the visitor is logged in, and as whom. */
module Me {
  import opened Wrappers
  import opened Seqs
  import opened Http
  import opened Auth

  /** `{ isLoggedIn: false }`. */
  function LoggedOut(): Response {
    Response(200, Some(JObj([("isLoggedIn", JBool(false))])))
  }

  /** The `name` column as JSON: SQL NULL becomes `null`. */
  function NameJson(name: Option<string>): Json {
    match name
    case None => JNull
    case Some(n) => JStr(n)
  }

  /** `getCurrentUser`. Everything runs inside the `try`, the connection first (`fault` is that
      connection or the lookup throwing); `!req.session.user?.id` treats a missing session and
      the id 0 alike; a session id without a row makes `checkUser.name` throw, which the
      `catch` turns into the same 500. Nothing is written. */
  function GetCurrentUser(rows: seq<UserRow>, session: Option<SessionUser>, fault: bool): (r: Response)
    ensures fault ==> r == ErrorReply(500, "Internal server error")
    ensures !fault && (session.None? || session.value.id == 0) ==> r == LoggedOut()
    ensures !fault && session.Some? && session.value.id != 0 ==>
      ((forall j :: 0 <= j < |rows| ==> rows[j].id != session.value.id) ==> r == ErrorReply(500, "Internal server error"))
    ensures !fault && session.Some? && session.value.id != 0 ==>
      forall j :: (0 <= j < |rows| && rows[j].id == session.value.id &&
                   forall k :: 0 <= k < j ==> rows[k].id != session.value.id) ==>
        r == Response(200, Some(JObj([("isLoggedIn", JBool(true)), ("name", NameJson(rows[j].name))])))
  {
    if fault then ErrorReply(500, "Internal server error")
    else if session.None? || session.value.id == 0 then LoggedOut()
    else match FirstIndex(rows, WithId(session.value.id))
      case None => ErrorReply(500, "Internal server error")
      case Some(i) => Response(200, Some(JObj([("isLoggedIn", JBool(true)), ("name", NameJson(rows[i].name))])))
  }

  /** With unique ids, a logged-in user is greeted by the name of their own row. */
  lemma CurrentUserName(t: UsersState, i: nat)
    requires UsersWellFormed(t) && i < |t.rows|
    ensures GetCurrentUser(t.rows, Some(IdOnly(t.rows[i].id)), false)
         == Response(200, Some(JObj([("isLoggedIn", JBool(true)), ("name", NameJson(t.rows[i].name))])))
  {
    FirstIndexOf(t.rows, WithId(t.rows[i].id), i);
  }

  /** Right after a lesson-15 registration, the new session user is reported as logged in
      under the name just stored. */
  lemma GreetedAfterRegistration(t: UsersState, d: UserData)
    requires UsersWellFormed(t)
    ensures GetCurrentUser(Inserted(t, d).rows, Some(IdOnly(t.nextId)), false)
         == Response(200, Some(JObj([("isLoggedIn", JBool(true)), ("name", JStr(d.name))])))
  {
    var rows := Inserted(t, d).rows;
    FirstIndexOf(rows, WithId(t.nextId), |t.rows|);
  }
}
