/** The `POST` handler of web/app/api/share/route.ts: the share settings written to a
    resume. The random UUID and the SHA-256 digest are parameters. */
module ShareRoute {
  import opened Wrappers
  import opened JsonData
  import opened Http
  import opened ApiAuth

  const Unauthorized: string := "Unauthorized"
  const MissingResumeId: string := "Missing resume_id"

  /** The share columns of a `resumes` row; None is a column never written. */
  datatype ShareColumns = ShareColumns(uuid: Option<string>, permission: Option<Json>, passwordHash: Option<string>)

  /** The update payload; `hash` is the optional `share_password_hash`. */
  datatype Payload = Payload(uuid: string, permission: Json, hash: Option<string>)

  /** `body.permission || 'public'` */
  function Permission(body: Json): (p: Json)
    ensures Truthy(p)
    ensures TruthyOpt(Get(body, "permission")) ==> p == Get(body, "permission").value
  {
    Or(Get(body, "permission"), JStr("public"))
  }

  /** The payload, or None when `createHash(...).update(password)` throws because a
      truthy password is not a string. */
  function MakePayload(sha256Hex: string -> string, uuid: string, permission: Json, password: Option<Json>): (r: Option<Payload>)
    ensures r.Some? ==> r.value.uuid == uuid && r.value.permission == permission
    ensures r.None? <==> permission == JStr("password") && TruthyOpt(password) && !password.value.JStr?
    ensures r.Some? ==> (r.value.hash.Some? <==> permission == JStr("password") && TruthyOpt(password))
    ensures r.Some? && r.value.hash.Some? ==> r.value.hash.value == sha256Hex(password.value.s)
  {
    if permission == JStr("password") && TruthyOpt(password) then
      if password.value.JStr? then Some(Payload(uuid, permission, Some(sha256Hex(password.value.s)))) else None
    else Some(Payload(uuid, permission, None))
  }

  /** `update(payload)`: the fields in the payload are replaced, a hash not in it is left
      as it was. */
  function Apply(row: ShareColumns, p: Payload): (r: ShareColumns)
    ensures r.uuid == Some(p.uuid) && r.permission == Some(p.permission)
    ensures r.passwordHash == if p.hash.Some? then p.hash else row.passwordHash
  {
    ShareColumns(Some(p.uuid), Some(p.permission), if p.hash.Some? then p.hash else row.passwordHash)
  }

  /** `.update(payload).eq('id', resume_id)` on a table keyed by id: a missing id updates
      nothing. */
  function Update(table: map<Json, ShareColumns>, id: Json, p: Payload): (t: map<Json, ShareColumns>)
    ensures t.Keys == table.Keys
    ensures id in table ==> t[id] == Apply(table[id], p)
    ensures forall k :: k in table && k != id ==> t[k] == table[k]
  {
    if id in table then table[id := Apply(table[id], p)] else table
  }

  /** The share columns of the `resumes` table, by row id. */
  class ShareTable {
    var rows: map<Json, ShareColumns>

    constructor ()
      ensures rows == map[]
    {
      rows := map[];
    }

    /** `update(payload).eq('id', id)` */
    method Apply(id: Json, p: Payload)
      modifies this
      ensures rows == Update(old(rows), id, p)
    {
      rows := Update(rows, id, p);
    }
  }

  datatype ShareOutcome = ShareOutcome(response: Response, table: map<Json, ShareColumns>)

  /** `POST`: `user` is `getUser`'s user (None on an error or no user), `body` the parsed
      body (None when parsing fails, which the handler turns into `{}`). */
  function Share(sha256Hex: string -> string, uuid: string, user: Option<User>, body: Option<Json>,
                updateError: Option<string>, table: map<Json, ShareColumns>): (o: ShareOutcome)
    ensures o.table != table ==> o.response.status == 200
    ensures user.None? ==> o == ShareOutcome(Error(401, Unauthorized), table)
  {
    if user.None? then ShareOutcome(Error(401, Unauthorized), table)
    else
      var b := body.GetOr(JObj([]));
      if b.JNull? then ShareOutcome(Uncaught, table)
      else
        var permission := Permission(b);
        if !TruthyOpt(Get(b, "resume_id")) then ShareOutcome(Error(400, MissingResumeId), table)
        else
          match MakePayload(sha256Hex, uuid, permission, Get(b, "password"))
          case None => ShareOutcome(Uncaught, table)
          case Some(p) =>
            if updateError.Some? then ShareOutcome(Error(500, updateError.value), table)
            else
              ShareOutcome(Ok(JObj([("share_uuid", JStr(uuid)), ("permission", permission)])),
                           Update(table, Get(b, "resume_id").value, p))
  }

  method Post(table: ShareTable, sha256Hex: string -> string, uuid: string, user: Option<User>, body: Option<Json>,
              updateError: Option<string>) returns (response: Response)
    modifies table
    ensures Share(sha256Hex, uuid, user, body, updateError, old(table.rows)) == ShareOutcome(response, table.rows)
  {
    if user.None? {
      return Error(401, Unauthorized);
    }
    var b := body.GetOr(JObj([]));
    if b.JNull? {
      return Uncaught;
    }
    var permission := Permission(b);
    if !TruthyOpt(Get(b, "resume_id")) {
      return Error(400, MissingResumeId);
    }
    var payload := MakePayload(sha256Hex, uuid, permission, Get(b, "password"));
    if payload.None? {
      return Uncaught;
    }
    if updateError.Some? {
      return Error(500, updateError.value);
    }
    table.Apply(Get(b, "resume_id").value, payload.value);
    response := Ok(JObj([("share_uuid", JStr(uuid)), ("permission", permission)]));
  }

  /** An absent or falsy permission is stored as `public`; anything truthy is stored as
      given, without validation. */
  lemma PermissionDefault(body: Json)
    ensures !TruthyOpt(Get(body, "permission")) ==> Permission(body) == JStr("public")
    ensures TruthyOpt(Get(body, "permission")) ==> Permission(body) == Get(body, "permission").value
  {
  }

  /** A missing `resume_id` is a 400 and nothing is written. */
  lemma MissingIdWritesNothing(sha256Hex: string -> string, uuid: string, user: User, body: Json,
                               updateError: Option<string>, table: map<Json, ShareColumns>)
    requires !body.JNull? && !TruthyOpt(Get(body, "resume_id"))
    ensures Share(sha256Hex, uuid, Some(user), Some(body), updateError, table) == ShareOutcome(Error(400, MissingResumeId), table)
  {
  }

  /** A successful share writes the fresh uuid and the permission to the row and echoes
      both; the hash is the password's digest exactly when the permission is `password`
      and a password was given, and otherwise the previous hash stays. */
  lemma ShareWritesAndEchoes(sha256Hex: string -> string, uuid: string, user: User, body: Json,
                             table: map<Json, ShareColumns>)
    requires !body.JNull? && TruthyOpt(Get(body, "resume_id"))
    requires MakePayload(sha256Hex, uuid, Permission(body), Get(body, "password")).Some?
    ensures var o := Share(sha256Hex, uuid, Some(user), Some(body), None, table);
            var id := Get(body, "resume_id").value;
            var password := Get(body, "password");
            o.response == Ok(JObj([("share_uuid", JStr(uuid)), ("permission", Permission(body))])) &&
            (id in table ==>
               o.table[id].uuid == Some(uuid) && o.table[id].permission == Some(Permission(body)) &&
               o.table[id].passwordHash ==
                 (if Permission(body) == JStr("password") && TruthyOpt(password)
                  then Some(sha256Hex(password.value.s)) else table[id].passwordHash)) &&
            (forall k :: k in table && k != id ==> o.table[k] == table[k])
  {
  }

  /** A `password` share without a password keeps whatever hash the row had, so the old
      password still opens it. */
  lemma PasswordShareWithoutPasswordKeepsHash(sha256Hex: string -> string, uuid: string, user: User,
                                              id: Json, table: map<Json, ShareColumns>)
    requires Truthy(id) && id in table
    ensures var body := JObj([("resume_id", id), ("permission", JStr("password"))]);
            Share(sha256Hex, uuid, Some(user), Some(body), None, table).table[id].passwordHash == table[id].passwordHash
  {
    var body := JObj([("resume_id", id), ("permission", JStr("password"))]);
    assert "resume_id"[0] != "permission"[0] && "resume_id"[0] != "password"[0];
    assert "permission"[1] != "password"[1];
    LookupCons(("resume_id", id), [("permission", JStr("password"))], "permission");
    LookupCons(("resume_id", id), [("permission", JStr("password"))], "password");
    LookupCons(("permission", JStr("password")), [], "password");
    assert [("resume_id", id), ("permission", JStr("password"))] == [("resume_id", id)] + [("permission", JStr("password"))];
    assert [("permission", JStr("password"))] == [("permission", JStr("password"))] + [];
  }
}
