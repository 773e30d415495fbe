/** The `POST` handler of web/app/api/stats/route.ts: a per-(resume, type) counter in the
    `resume_stats` table, inserted at 1 or incremented. */
module StatsRoute {
  import opened Wrappers
  import opened JsonData
  import opened Http
  import opened ApiAuth

  const Unauthorized: string := "Unauthorized"
  const MissingKey: string := "Missing type or resume_id"

  // ---------------------------------------------------------------- the stats table

  /** A row of `resume_stats`; `count` is a nullable integer column. */
  datatype StatRow = StatRow(id: nat, resumeId: Json, kind: Json, count: Option<int>)

  predicate IsKey(row: StatRow, resumeId: Json, kind: Json) {
    row.resumeId == resumeId && row.kind == kind
  }

  /** How many rows the lookup `.eq('resume_id').eq('type')` selects. */
  function MatchCount(rows: seq<StatRow>, resumeId: Json, kind: Json): nat {
    if rows == [] then 0
    else MatchCount(rows[..|rows| - 1], resumeId, kind) + (if IsKey(rows[|rows| - 1], resumeId, kind) then 1 else 0)
  }

  /** The last selected row, if any. */
  function LastMatch(rows: seq<StatRow>, resumeId: Json, kind: Json): (r: Option<StatRow>)
    ensures r.Some? ==> r.value in rows && IsKey(r.value, resumeId, kind)
    ensures r.None? <==> MatchCount(rows, resumeId, kind) == 0
  {
    if rows == [] then None
    else if IsKey(rows[|rows| - 1], resumeId, kind) then Some(rows[|rows| - 1])
    else LastMatch(rows[..|rows| - 1], resumeId, kind)
  }

  /** `.single()`: the row when exactly one is selected, null data otherwise. */
  function Single(rows: seq<StatRow>, resumeId: Json, kind: Json): (r: Option<StatRow>)
    ensures r.Some? <==> MatchCount(rows, resumeId, kind) == 1
    ensures r.Some? ==> r.value in rows && IsKey(r.value, resumeId, kind)
  {
    if MatchCount(rows, resumeId, kind) == 1 then LastMatch(rows, resumeId, kind) else None
  }

  /** `.update({ count }).eq('id', id)` */
  function SetCountById(rows: seq<StatRow>, id: nat, count: int): (r: seq<StatRow>)
    ensures |r| == |rows|
    ensures forall i :: 0 <= i < |rows| ==> r[i] == if rows[i].id == id then rows[i].(count := Some(count)) else rows[i]
  {
    seq(|rows|, i requires 0 <= i < |rows| => if rows[i].id == id then rows[i].(count := Some(count)) else rows[i])
  }

  /** Distinct ids, all below the next one the table assigns. */
  predicate IdsFresh(rows: seq<StatRow>, nextId: nat) {
    (forall i :: 0 <= i < |rows| ==> rows[i].id < nextId) &&
    (forall i, j :: 0 <= i < j < |rows| ==> rows[i].id != rows[j].id)
  }

  /** At most one row per (resume, type). */
  predicate UniqueKeys(rows: seq<StatRow>) {
    forall i, j :: 0 <= i < j < |rows| ==> !IsKey(rows[j], rows[i].resumeId, rows[i].kind)
  }

  predicate CountsNonNegative(rows: seq<StatRow>) {
    forall i :: 0 <= i < |rows| ==> rows[i].count.None? || rows[i].count.value >= 0
  }

  class StatsTable {
    var rows: seq<StatRow>
    var nextId: nat

    ghost predicate Valid()
      reads this
    {
      IdsFresh(rows, nextId)
    }

    constructor ()
      ensures rows == [] && Valid()
    {
      rows := [];
      nextId := 0;
    }

    /** `insert({ resume_id, type, count: 1 })` */
    method Insert(resumeId: Json, kind: Json)
      requires Valid()
      modifies this
      ensures Valid()
      ensures rows == old(rows) + [StatRow(old(nextId), resumeId, kind, Some(1))]
      ensures nextId == old(nextId) + 1
    {
      rows := rows + [StatRow(nextId, resumeId, kind, Some(1))];
      nextId := nextId + 1;
    }

    /** `update({ count }).eq('id', id)` */
    method SetCount(id: nat, count: int)
      requires Valid()
      modifies this
      ensures Valid()
      ensures rows == SetCountById(old(rows), id, count) && nextId == old(nextId)
    {
      rows := SetCountById(rows, id, count);
    }
  }

  // ---------------------------------------------------------------- the handler

  datatype StatsOutcome = StatsOutcome(response: Response, rows: seq<StatRow>, nextId: nat)

  /** `POST`: `user` is `getUser`'s user, `body` the parsed body (None when parsing fails,
      which becomes `{}`), `readFails` whether the `select` fails (its error is not read,
      so the data is null), `writeError` the error of the insert or the update. */
  function Record(rows: seq<StatRow>, nextId: nat, user: Option<User>, body: Option<Json>, readFails: bool, writeError: Option<string>): (o: StatsOutcome)
    ensures o.rows != rows ==> o.response == Ok(JObj([("ok", JBool(true))]))
  {
    if user.None? then StatsOutcome(Error(401, Unauthorized), rows, nextId)
    else
      var b := body.GetOr(JObj([]));
      if b.JNull? then StatsOutcome(Uncaught, rows, nextId)
      else if !TruthyOpt(Get(b, "type")) || !TruthyOpt(Get(b, "resume_id")) then StatsOutcome(Error(400, MissingKey), rows, nextId)
      else if writeError.Some? then StatsOutcome(Error(500, writeError.value), rows, nextId)
      else
        var kind := Get(b, "type").value;
        var resumeId := Get(b, "resume_id").value;
        match (if readFails then None else Single(rows, resumeId, kind))
        case None => StatsOutcome(Ok(JObj([("ok", JBool(true))])), rows + [StatRow(nextId, resumeId, kind, Some(1))], nextId + 1)
        case Some(row) =>
          StatsOutcome(Ok(JObj([("ok", JBool(true))])), SetCountById(rows, row.id, row.count.GetOr(0) + 1), nextId)
  }

  method Post(table: StatsTable, user: Option<User>, body: Option<Json>, readFails: bool, writeError: Option<string>) returns (response: Response)
    requires table.Valid()
    modifies table
    ensures table.Valid()
    ensures Record(old(table.rows), old(table.nextId), user, body, readFails, writeError) == StatsOutcome(response, table.rows, table.nextId)
  {
    if user.None? {
      return Error(401, Unauthorized);
    }
    var b := body.GetOr(JObj([]));
    if b.JNull? {
      return Uncaught;
    }
    if !TruthyOpt(Get(b, "type")) || !TruthyOpt(Get(b, "resume_id")) {
      return Error(400, MissingKey);
    }
    if writeError.Some? {
      return Error(500, writeError.value);
    }
    var kind := Get(b, "type").value;
    var resumeId := Get(b, "resume_id").value;
    var data := if readFails then None else Single(table.rows, resumeId, kind);
    if data.None? {
      table.Insert(resumeId, kind);
    } else {
      table.SetCount(data.value.id, data.value.count.GetOr(0) + 1);
    }
    response := Ok(JObj([("ok", JBool(true))]));
  }

  // ---------------------------------------------------------------- properties

  /** A request the handler rejects leaves the table as it was. */
  lemma RejectionsLeaveTable(rows: seq<StatRow>, nextId: nat, user: Option<User>, body: Option<Json>, readFails: bool, writeError: Option<string>)
    requires user.None? || writeError.Some? ||
             (body.Some? && (body.value.JNull? || !TruthyOpt(Get(body.value, "type")) || !TruthyOpt(Get(body.value, "resume_id"))))
    ensures Record(rows, nextId, user, body, readFails, writeError).rows == rows
    ensures Record(rows, nextId, user, body, readFails, writeError).response.status != 200
  {
  }

  /** The body fields a successful call counts under. */
  predicate Keyed(body: Option<Json>, resumeId: Json, kind: Json) {
    body.Some? && Get(body.value, "type") == Some(kind) && Get(body.value, "resume_id") == Some(resumeId) &&
    Truthy(kind) && Truthy(resumeId)
  }

  /** The first call for a key inserts a row with count 1. */
  lemma FirstCallInserts(rows: seq<StatRow>, nextId: nat, user: User, body: Option<Json>, resumeId: Json, kind: Json)
    requires Keyed(body, resumeId, kind) && MatchCount(rows, resumeId, kind) == 0
    ensures Record(rows, nextId, Some(user), body, false, None).rows == rows + [StatRow(nextId, resumeId, kind, Some(1))]
  {
  }

  /** A later call raises that row's count by one, a null count counting as 0, and
      changes no other row. */
  lemma {:induction false} LaterCallIncrements(rows: seq<StatRow>, nextId: nat, user: User, body: Option<Json>, resumeId: Json, kind: Json)
    requires IdsFresh(rows, nextId) && Keyed(body, resumeId, kind) && MatchCount(rows, resumeId, kind) == 1
    ensures var r := Record(rows, nextId, Some(user), body, false, None).rows;
            |r| == |rows| &&
            forall i :: 0 <= i < |rows| ==>
              r[i] == if IsKey(rows[i], resumeId, kind) then rows[i].(count := Some(rows[i].count.GetOr(0) + 1)) else rows[i]
  {
    var row := Single(rows, resumeId, kind).value;
    var k :| 0 <= k < |rows| && rows[k] == row;
    forall i | 0 <= i < |rows|
      ensures (rows[i].id == row.id) == IsKey(rows[i], resumeId, kind)
    {
      if IsKey(rows[i], resumeId, kind) && i != k {
        TwoMatches(rows, resumeId, kind, i, k);
      }
    }
  }

  /** Two distinct positions of the same key count twice. */
  lemma {:induction false} TwoMatches(rows: seq<StatRow>, resumeId: Json, kind: Json, i: nat, j: nat)
    requires i < |rows| && j < |rows| && i != j
    requires IsKey(rows[i], resumeId, kind) && IsKey(rows[j], resumeId, kind)
    ensures MatchCount(rows, resumeId, kind) >= 2
    decreases |rows|
  {
    var last := |rows| - 1;
    var init := rows[..last];
    if i == last {
      OneMatch(init, resumeId, kind, j);
    } else if j == last {
      OneMatch(init, resumeId, kind, i);
    } else {
      TwoMatches(init, resumeId, kind, i, j);
    }
  }

  lemma {:induction false} OneMatch(rows: seq<StatRow>, resumeId: Json, kind: Json, i: nat)
    requires i < |rows| && IsKey(rows[i], resumeId, kind)
    ensures MatchCount(rows, resumeId, kind) >= 1
    decreases |rows|
  {
    if i < |rows| - 1 {
      OneMatch(rows[..|rows| - 1], resumeId, kind, i);
    }
  }

  lemma {:induction false} NoneMatch(rows: seq<StatRow>, resumeId: Json, kind: Json)
    requires forall i :: 0 <= i < |rows| ==> !IsKey(rows[i], resumeId, kind)
    ensures MatchCount(rows, resumeId, kind) == 0
    decreases |rows|
  {
    if rows != [] {
      NoneMatch(rows[..|rows| - 1], resumeId, kind);
    }
  }

  /** With a unique row per key, `MatchCount` is at most one. */
  lemma {:induction false} UniqueCountsOnce(rows: seq<StatRow>, resumeId: Json, kind: Json)
    requires UniqueKeys(rows)
    ensures MatchCount(rows, resumeId, kind) <= 1
    decreases |rows|
  {
    if rows != [] {
      var init := rows[..|rows| - 1];
      UniqueCountsOnce(init, resumeId, kind);
      if IsKey(rows[|rows| - 1], resumeId, kind) {
        forall i | 0 <= i < |init|
          ensures !IsKey(init[i], resumeId, kind)
        {
          assert !IsKey(rows[|rows| - 1], rows[i].resumeId, rows[i].kind);
        }
        NoneMatch(init, resumeId, kind);
      }
    }
  }

  /** The table keeps one row per key and non-negative counts, and after a successful
      call the key's count is at least 1. */
  lemma {:induction false} RecordKeepsTableSound(rows: seq<StatRow>, nextId: nat, user: User, body: Option<Json>, resumeId: Json, kind: Json)
    requires IdsFresh(rows, nextId) && UniqueKeys(rows) && CountsNonNegative(rows) && Keyed(body, resumeId, kind)
    ensures var o := Record(rows, nextId, Some(user), body, false, None);
            UniqueKeys(o.rows) && CountsNonNegative(o.rows) &&
            exists i :: 0 <= i < |o.rows| && IsKey(o.rows[i], resumeId, kind) && o.rows[i].count.Some? && o.rows[i].count.value >= 1
  {
    var o := Record(rows, nextId, Some(user), body, false, None);
    UniqueCountsOnce(rows, resumeId, kind);
    if MatchCount(rows, resumeId, kind) == 0 {
      var n := |rows|;
      assert o.rows == rows + [StatRow(nextId, resumeId, kind, Some(1))];
      forall i, j | 0 <= i < j < |o.rows|
        ensures !IsKey(o.rows[j], o.rows[i].resumeId, o.rows[i].kind)
      {
        if j == n && IsKey(o.rows[j], o.rows[i].resumeId, o.rows[i].kind) {
          OneMatch(rows, resumeId, kind, i);
        }
      }
      assert IsKey(o.rows[n], resumeId, kind);
    } else {
      LaterCallIncrements(rows, nextId, user, body, resumeId, kind);
      var row := Single(rows, resumeId, kind).value;
      var k :| 0 <= k < |rows| && rows[k] == row;
      assert o.rows[k].count == Some(rows[k].count.GetOr(0) + 1);
      forall i, j | 0 <= i < j < |o.rows|
        ensures !IsKey(o.rows[j], o.rows[i].resumeId, o.rows[i].kind)
      {
        assert o.rows[i].resumeId == rows[i].resumeId && o.rows[i].kind == rows[i].kind;
        assert o.rows[j].resumeId == rows[j].resumeId && o.rows[j].kind == rows[j].kind;
      }
    }
  }

  /** `.single()` yields no data when a key has two rows, so such a key is inserted
      again at count 1 instead of being counted. */
  lemma DuplicatesInsertAgain(rows: seq<StatRow>, nextId: nat, user: User, body: Option<Json>, resumeId: Json, kind: Json)
    requires Keyed(body, resumeId, kind) && MatchCount(rows, resumeId, kind) >= 2
    ensures Record(rows, nextId, Some(user), body, false, None).rows == rows + [StatRow(nextId, resumeId, kind, Some(1))]
  {
  }

  /** A failed lookup leaves the data null, so the call inserts a fresh row at count 1
      whatever the table holds, even when the key already has a row. */
  lemma ReadFailureInsertsAgain(rows: seq<StatRow>, nextId: nat, user: User, body: Option<Json>, resumeId: Json, kind: Json)
    requires Keyed(body, resumeId, kind)
    ensures Record(rows, nextId, Some(user), body, true, None) ==
            StatsOutcome(Ok(JObj([("ok", JBool(true))])), rows + [StatRow(nextId, resumeId, kind, Some(1))], nextId + 1)
  {
  }
}
