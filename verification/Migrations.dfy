/** Data migrations of the state database: the legacy refinement merge
    (src/migrations/refinement-consolidation.ts), the session re-keying and kind
    normalization, and the loop that re-runs them (src/migrations/index.ts). */
module Migrations {
  import opened Numbers
  import SessionStore
  import opened Sorting
  import opened Wrappers

  type Attempt = nat                                // all columns of a row but its id
  datatype Scope = Scope(owner: string, repo: string, issue: int)
  datatype Instruction = Instruction(comment: int, createdAt: string)
  datatype Marker = Marker(attemptsCopied: nat, instructionsCopied: nat)

  /** What `state_json` parses to. An array takes a `kind` property but does not print it. */
  datatype JsonKind = Missing | Implementation | Refinement | OtherValue
  datatype Json = Malformed | Primitive | List(items: nat) | Object(kind: JsonKind, rest: nat)

  datatype Row = Row(owner: string, repo: string, issue: int, json: Json)
  datatype LogLine = LogLine(key: string, entry: nat)

  datatype Db = Db(
    sessions: map<string, Row>, logs: seq<LogLine>,
    attempts: map<string, Attempt>, instructions: map<Scope, Instruction>, marker: Option<Marker>, applied: set<nat>)

  /** The legacy file: None for a missing table. */
  datatype Legacy = Legacy(attempts: Option<map<string, Attempt>>, instructions: Option<map<Scope, Instruction>>)

  // ------------------------------------------------------------ consolidation

  predicate Agree<K, V(==)>(a: map<K, V>, b: map<K, V>) {
    forall k | k in a && k in b :: a[k] == b[k]
  }

  /** INSERT … WHERE NOT IN: rows that are there stay as they are. */
  function Inserted<K, V>(legacy: Option<map<K, V>>, rows: map<K, V>): map<K, V> {
    if legacy.None? then rows else legacy.value + rows
  }

  function Copied<K, V>(legacy: Option<map<K, V>>, rows: map<K, V>): nat {
    if legacy.None? then 0 else |legacy.value.Keys - rows.Keys|
  }

  /** The join on the key after the insert finds a differing pair. */
  predicate Clashes<K, V(==)>(legacy: Option<map<K, V>>, rows: map<K, V>) {
    legacy.Some? && !Agree(legacy.value, rows)
  }

  datatype Ended = Ended(db: Db, ok: bool)

  predicate HasTables(legacy: Option<Legacy>) {
    legacy.Some? && (legacy.value.attempts.Some? || legacy.value.instructions.Some?)
  }

  /** migrateRefinementStoreIntoBotState. `canonical` is the check of the file name, and
      `sql` says whether the statements themselves succeed. */
  function Consolidate(db: Db, canonical: bool, legacy: Option<Legacy>, sql: bool): Ended {
    if !canonical || db.marker.Some? || !HasTables(legacy) then Ended(db, true)
    else
      var l := legacy.value;
      var attempts, instructions := Inserted(l.attempts, db.attempts), Inserted(l.instructions, db.instructions);
      if !sql || Clashes(l.attempts, attempts) || Clashes(l.instructions, instructions) then Ended(db, false)
      else
        Ended(db.(attempts := attempts, instructions := instructions,
                  marker := Some(Marker(Copied(l.attempts, db.attempts), Copied(l.instructions, db.instructions)))),
              true)
  }

  /** Old and legacy rows, and nothing else. */
  ghost predicate IsUnion<K(!new), V>(rows: map<K, V>, legacy: Option<map<K, V>>, after: map<K, V>) {
    && (forall k :: k in after <==> k in rows || (legacy.Some? && k in legacy.value))
    && (forall k <- rows :: after[k] == rows[k])
    && (legacy.Some? ==> forall k <- legacy.value :: after[k] == legacy.value[k])
  }

  predicate TablesAgree(db: Db, l: Legacy) {
    && (l.attempts.Some? ==> Agree(l.attempts.value, db.attempts))
    && (l.instructions.Some? ==> Agree(l.instructions.value, db.instructions))
  }

  predicate CountsNewRows(m: Marker, before: Db, after: Db) {
    && m.attemptsCopied == |after.attempts| - |before.attempts|
    && m.instructionsCopied == |after.instructions| - |before.instructions|
  }

  /** All or nothing. With legacy tables and no marker yet, the merge succeeds exactly when
      the tables agree on the ids and keys they share (and SQL does not fail); then both
      tables are the union and the marker counts the new rows; otherwise nothing changed. */
  lemma ConsolidationIsAllOrNothing(db: Db, legacy: Legacy, sql: bool)
    requires db.marker.None? && (legacy.attempts.Some? || legacy.instructions.Some?)
    ensures var r := Consolidate(db, true, Some(legacy), sql);
      && (r.ok <==> sql && TablesAgree(db, legacy))
      && (!r.ok ==> r.db == db)
      && (r.ok ==> IsUnion(db.attempts, legacy.attempts, r.db.attempts) && IsUnion(db.instructions, legacy.instructions, r.db.instructions))
      && (r.ok ==> r.db.marker.Some? && CountsNewRows(r.db.marker.value, db, r.db))
      && r.db.sessions == db.sessions && r.db.logs == db.logs
  {
    hide IsUnion, Copied;
    InsertedIsUnion(legacy.attempts, db.attempts);
    InsertedIsUnion(legacy.instructions, db.instructions);
  }

  lemma InsertedIsUnion<K(!new), V>(legacy: Option<map<K, V>>, rows: map<K, V>)
    ensures Clashes(legacy, Inserted(legacy, rows)) <==> legacy.Some? && !Agree(legacy.value, rows)
    ensures !Clashes(legacy, Inserted(legacy, rows)) ==> IsUnion(rows, legacy, Inserted(legacy, rows))
    ensures Copied(legacy, rows) == |Inserted(legacy, rows)| - |rows|
  {
    if legacy.Some? {
      var all, new_ := legacy.value + rows, legacy.value.Keys - rows.Keys;
      assert all.Keys == new_ + rows.Keys;
      assert |new_ + rows.Keys| == |new_| + |rows.Keys|;
    }
  }

  /** A second run changes nothing, whether the first committed or rolled back. */
  lemma ConsolidationIsIdempotent(db: Db, canonical: bool, legacy: Option<Legacy>, sql: bool)
    ensures var r := Consolidate(db, canonical, legacy, sql);
      Consolidate(r.db, canonical, legacy, sql) == r
  {
  }

  // --------------------------------------------------------------- migration 9

  function IsRefinement(json: Json): bool {
    json.Object? && json.kind.Refinement?
  }

  function NormalKind(json: Json): JsonKind {
    if IsRefinement(json) then Refinement else Implementation
  }

  /** `state.kind = kind` and printing the state again. */
  function WithKind(json: Json): Json {
    if json.Object? then json.(kind := NormalKind(json)) else json
  }

  function NextKey(row: Row): string {
    "github-" + row.owner + "-" + row.repo + "-issue-" + IntText(row.issue)
    + (if IsRefinement(row.json) then "-refinement" else "-implementation")
  }

  function Rekeyed(row: Row): Row {
    row.(json := WithKind(row.json))
  }

  function MoveLogs(logs: seq<LogLine>, from: string, to: string): (r: seq<LogLine>)
    ensures |r| == |logs|
    ensures forall i | 0 <= i < |r| :: r[i] == if logs[i].key == from then logs[i].(key := to) else logs[i]
  {
    if logs == [] then []
    else [if logs[0].key == from then logs[0].(key := to) else logs[0]] + MoveLogs(logs[1..], from, to)
  }

  /** A row as the SELECT returned it. */
  datatype Selected = Selected(key: string, row: Row)

  /** One turn of the loop; None when it throws: setting `kind` on a primitive is a
      TypeError, and the primary key refuses a key that is taken. */
  function RekeyOne(db: Db, s: Selected): Option<Db> {
    if s.row.json.Malformed? then Some(db)
    else if s.row.json.Primitive? then None
    else
      var next := NextKey(s.row);
      if next != s.key && next in db.sessions then None
      else
        Some(db.(sessions := (db.sessions - {s.key})[next := Rekeyed(s.row)],
                 logs := if next != s.key then MoveLogs(db.logs, s.key, next) else db.logs))
  }

  function RekeyAll(db: Db, rows: seq<Selected>): Option<Db>
    decreases |rows|
  {
    if rows == [] then Some(db)
    else
      var next := RekeyOne(db, rows[0]);
      if next.None? then None else RekeyAll(next.value, rows[1..])
  }

  /** The SELECT lists every session once, in some order. */
  ghost predicate Lists(rows: seq<Selected>, sessions: map<string, Row>) {
    && (forall i | 0 <= i < |rows| :: rows[i].key in sessions && sessions[rows[i].key] == rows[i].row)
    && (forall i, j | 0 <= i < j < |rows| :: rows[i].key != rows[j].key)
    && (forall k <- sessions :: exists i :: 0 <= i < |rows| && rows[i].key == k)
  }

  /** make_session_keys_kind_aware */
  function Migrate9(db: Db, rows: seq<Selected>): Ended {
    var r := RekeyAll(db, rows);
    if r.Some? then Ended(r.value, true) else Ended(db, false)
  }

  // -------------------------------------------------------------- migration 14

  function NormalizeOne(db: Db, s: Selected): Option<Db> {
    if s.row.json.Malformed? then Some(db)
    else if s.row.json.Primitive? then None
    else if s.row.json == WithKind(s.row.json) || s.key !in db.sessions then Some(db)
    else Some(db.(sessions := db.sessions[s.key := db.sessions[s.key].(json := WithKind(s.row.json))]))
  }

  function NormalizeAll(db: Db, rows: seq<Selected>): Option<Db>
    decreases |rows|
  {
    if rows == [] then Some(db)
    else
      var next := NormalizeOne(db, rows[0]);
      if next.None? then None else NormalizeAll(next.value, rows[1..])
  }

  /** normalize_session_kinds_durable */
  function Migrate14(db: Db, rows: seq<Selected>): Ended {
    var r := NormalizeAll(db, rows);
    if r.Some? then Ended(r.value, true) else Ended(db, false)
  }

  // ------------------------------------------------------------- fixed points

  /** The row sits under the key it asks for, with its kind written out. */
  predicate Settled(key: string, row: Row) {
    row.json.Malformed? || (!row.json.Primitive? && NextKey(row) == key && Rekeyed(row) == row)
  }

  lemma RekeyedIsSettled(row: Row)
    requires !row.json.Malformed? && !row.json.Primitive?
    ensures Settled(NextKey(row), Rekeyed(row)) && NextKey(Rekeyed(row)) == NextKey(row)
  {
  }

  /** The key and the row of the `i`th selected session when `n` rows are dealt with. */
  function Place(rows: seq<Selected>, i: nat, n: nat): string
    requires i < |rows|
  {
    if i < n && !rows[i].row.json.Malformed? then NextKey(rows[i].row) else rows[i].key
  }

  function Content(rows: seq<Selected>, i: nat, n: nat): Row
    requires i < |rows|
  {
    if i < n then Rekeyed(rows[i].row) else rows[i].row
  }

  function Places(rows: seq<Selected>, n: nat): (r: seq<string>)
    ensures |r| == |rows| && forall i | 0 <= i < |r| :: r[i] == Place(rows, i, n)
  {
    seq(|rows|, i requires 0 <= i < |rows| => Place(rows, i, n))
  }

  function Contents(rows: seq<Selected>, n: nat): (r: seq<Row>)
    ensures |r| == |rows| && forall i | 0 <= i < |r| :: r[i] == Content(rows, i, n)
  {
    seq(|rows|, i requires 0 <= i < |rows| => Content(rows, i, n))
  }

  /** The table holds these rows under these keys, each key once, and nothing else. */
  predicate IsTable(sessions: map<string, Row>, keys: seq<string>, rows: seq<Row>) {
    && |keys| == |rows|
    && (forall i | 0 <= i < |keys| :: keys[i] in sessions && sessions[keys[i]] == rows[i])
    && (forall i, j | 0 <= i < j < |keys| :: keys[i] != keys[j])
    && (forall k <- sessions :: k in keys)
  }

  /** Every selected session has a place of its own, and there is nothing else. */
  predicate Placed(sessions: map<string, Row>, rows: seq<Selected>, n: nat) {
    IsTable(sessions, Places(rows, n), Contents(rows, n))
  }

  lemma MoveRow(sessions: map<string, Row>, keys: seq<string>, rows: seq<Row>, n: nat, key: string, row: Row)
    requires IsTable(sessions, keys, rows) && n < |keys|
    requires key == keys[n] || key !in sessions
    ensures IsTable((sessions - {keys[n]})[key := row], keys[n := key], rows[n := row])
  {
    var after, moved := (sessions - {keys[n]})[key := row], keys[n := key];
    forall k <- after
      ensures k in moved
    {
      if k == key {
        assert moved[n] == key;
      } else {
        var i :| 0 <= i < |keys| && keys[i] == k;
        assert moved[i] == k;
      }
    }
  }

  /** Where the log lines of a key are after the first `n` rows. */
  function LogKey(key: string, rows: seq<Selected>, n: nat): string
    requires n <= |rows|
  {
    if n == 0 then key
    else
      var k := LogKey(key, rows, n - 1);
      if k == rows[n - 1].key then Place(rows, n - 1, n) else k
  }

  predicate LogsFollow(before: seq<LogLine>, after: seq<LogLine>, rows: seq<Selected>, n: nat)
    requires n <= |rows|
  {
    |after| == |before| && forall i | 0 <= i < |after| :: after[i] == before[i].(key := LogKey(before[i].key, rows, n))
  }

  lemma NothingPlacedYet(sessions: map<string, Row>, rows: seq<Selected>)
    requires Lists(rows, sessions)
    ensures Placed(sessions, rows, 0)
  {
    forall k <- sessions
      ensures k in Places(rows, 0)
    {
      var i :| 0 <= i < |rows| && rows[i].key == k;
      assert Places(rows, 0)[i] == k;
    }
  }

  lemma PlaceOne(db: Db, rows: seq<Selected>, n: nat)
    requires n < |rows| && Placed(db.sessions, rows, n) && RekeyOne(db, rows[n]).Some?
    ensures Placed(RekeyOne(db, rows[n]).value.sessions, rows, n + 1)
  {
    hide NextKey, Rekeyed, IsTable;
    ThisPlace(rows, n);
    var key, row := Place(rows, n, n + 1), Rekeyed(rows[n].row);
    assert Places(rows, n + 1) == Places(rows, n)[n := key];
    assert Contents(rows, n + 1) == Contents(rows, n)[n := row];
    if rows[n].row.json.Malformed? {
      assert Places(rows, n)[n := key] == Places(rows, n) && Contents(rows, n)[n := row] == Contents(rows, n);
    } else {
      MoveRow(db.sessions, Places(rows, n), Contents(rows, n), n, key, row);
    }
  }

  lemma ThisPlace(rows: seq<Selected>, n: nat)
    requires n < |rows|
    ensures Place(rows, n, n) == rows[n].key && Content(rows, n, n) == rows[n].row
    ensures Content(rows, n, n + 1) == Rekeyed(rows[n].row)
    ensures Place(rows, n, n + 1) == if rows[n].row.json.Malformed? then rows[n].key else NextKey(rows[n].row)
    ensures rows[n].row.json.Malformed? ==> Rekeyed(rows[n].row) == rows[n].row
  {
  }

  lemma MoveOne(before: seq<LogLine>, db: Db, rows: seq<Selected>, n: nat)
    requires n < |rows| && LogsFollow(before, db.logs, rows, n) && RekeyOne(db, rows[n]).Some?
    ensures LogsFollow(before, RekeyOne(db, rows[n]).value.logs, rows, n + 1)
  {
    hide NextKey, Rekeyed, Place, Content;
    ThisPlace(rows, n);
  }

  lemma {:induction false} RekeyFrom(db: Db, rows: seq<Selected>, n: nat, before: seq<LogLine>)
    requires n <= |rows| && Placed(db.sessions, rows, n) && LogsFollow(before, db.logs, rows, n)
    requires RekeyAll(db, rows[n..]).Some?
    ensures var after := RekeyAll(db, rows[n..]).value;
      && Placed(after.sessions, rows, |rows|) && LogsFollow(before, after.logs, rows, |rows|)
      && after == db.(sessions := after.sessions, logs := after.logs)
      && (forall i | n <= i < |rows| :: !rows[i].row.json.Primitive?)
    decreases |rows| - n
  {
    hide Placed, LogsFollow;
    if n < |rows| {
      assert rows[n..][0] == rows[n] && rows[n..][1..] == rows[n + 1..];
      PlaceOne(db, rows, n);
      MoveOne(before, db, rows, n);
      RekeyFrom(RekeyOne(db, rows[n]).value, rows, n + 1, before);
    } else {
      assert n == |rows|;
    }
  }

  /** A successful re-keying keeps every session: each is found, with its kind written out,
      under the key its columns and kind ask for, malformed ones untouched; no two meet, and
      every log line follows its session. A failed one changes nothing. */
  lemma RekeyingKeepsSessions(db: Db, rows: seq<Selected>)
    requires Lists(rows, db.sessions)
    ensures var r := Migrate9(db, rows);
      && (!r.ok ==> r.db == db)
      && (r.ok ==> Placed(r.db.sessions, rows, |rows|) && LogsFollow(db.logs, r.db.logs, rows, |rows|))
      && (r.ok ==> forall k <- r.db.sessions :: Settled(k, r.db.sessions[k]))
      && r.db == db.(sessions := r.db.sessions, logs := r.db.logs)
  {
    hide Lists, Settled, Placed, LogsFollow, RekeyOne;
    var r := Migrate9(db, rows);
    if r.ok {
      NothingPlacedYet(db.sessions, rows);
      NothingMovedYet(db.logs, rows);
      assert rows[0..] == rows;
      RekeyFrom(db, rows, 0, db.logs);
      PlacedAreSettled(r.db.sessions, rows);
    }
  }

  /** The key under which the session store looks for the state of a row: a state without a
      kind, or with one it does not know, counts as an implementation. */
  function StoreKey(row: Row): string {
    var refinement := row.json.Object? && row.json.kind == Refinement;
    SessionStore.Key(row.owner, row.repo, row.issue, if refinement then SessionStore.Refinement else SessionStore.Implementation)
  }

  lemma NextKeyIsTheStores(row: Row)
    ensures NextKey(row) == StoreKey(row)
  {
    hide IntText;
    var stem := "github-" + row.owner + "-" + row.repo + "-issue-" + IntText(row.issue);
    assert stem + "-refinement" == stem + "-" + "refinement";
    assert stem + "-implementation" == stem + "-" + "implementation";
  }

  /** After a successful re-keying the session store finds every state that parses under the
      key it uses, with all the state had and the kind written into it. */
  lemma RekeyedRowsAreFound(db: Db, rows: seq<Selected>, i: nat)
    requires Lists(rows, db.sessions) && Migrate9(db, rows).ok && i < |rows| && !rows[i].row.json.Malformed?
    ensures var after, row := Migrate9(db, rows).db.sessions, rows[i].row;
      && StoreKey(row) in after
      && after[StoreKey(row)] == row.(json := after[StoreKey(row)].json) && HasKindOf(after[StoreKey(row)].json, row.json)
  {
    hide Lists, Placed, LogsFollow, RekeyAll, NextKey, SessionStore.Key;
    RekeyingKeepsSessions(db, rows);
    NextKeyIsTheStores(rows[i].row);
    PlacedAt(Migrate9(db, rows).db.sessions, rows, i);
  }

  lemma PlacedAt(sessions: map<string, Row>, rows: seq<Selected>, i: nat)
    requires Placed(sessions, rows, |rows|) && i < |rows|
    ensures Place(rows, i, |rows|) in sessions && sessions[Place(rows, i, |rows|)] == Rekeyed(rows[i].row)
  {
    hide Rekeyed;
    assert Places(rows, |rows|)[i] == Place(rows, i, |rows|) && Contents(rows, |rows|)[i] == Rekeyed(rows[i].row);
  }

  lemma NothingMovedYet(logs: seq<LogLine>, rows: seq<Selected>)
    ensures LogsFollow(logs, logs, rows, 0)
  {
  }

  lemma PlacedAreSettled(sessions: map<string, Row>, rows: seq<Selected>)
    requires Placed(sessions, rows, |rows|) && forall i | 0 <= i < |rows| :: !rows[i].row.json.Primitive?
    ensures forall k <- sessions :: Settled(k, sessions[k])
  {
    hide Settled, Place, Content;
    var keys := Places(rows, |rows|);
    forall k <- sessions
      ensures Settled(k, sessions[k])
    {
      assert k in keys;
      var i :| 0 <= i < |keys| && keys[i] == k;
      PlacedIsSettled(rows, i);
    }
  }

  lemma PlacedIsSettled(rows: seq<Selected>, i: nat)
    requires i < |rows| && !rows[i].row.json.Primitive?
    ensures Settled(Place(rows, i, |rows|), Content(rows, i, |rows|))
  {
    if !rows[i].row.json.Malformed? {
      RekeyedIsSettled(rows[i].row);
    }
  }

  /** The lines of a session's old key end up under the session's new key: no later row
      takes them further. */
  lemma {:induction false} LogKeyOfSession(rows: seq<Selected>, i: nat, n: nat)
    requires i < n <= |rows|
    requires forall a, b | 0 <= a < b < |rows| :: rows[a].key != rows[b].key
    requires forall m | i < m < n :: Place(rows, i, n) != rows[m].key
    ensures LogKey(rows[i].key, rows, n) == Place(rows, i, n)
    decreases n
  {
    hide NextKey, Rekeyed;
    if n == i + 1 {
      LogKeyBefore(rows, i, i);
    } else {
      LogKeyOfSession(rows, i, n - 1);
    }
  }

  lemma {:induction false} LogKeyBefore(rows: seq<Selected>, i: nat, n: nat)
    requires n <= i < |rows|
    requires forall a, b | 0 <= a < b < |rows| :: rows[a].key != rows[b].key
    ensures LogKey(rows[i].key, rows, n) == rows[i].key
  {
    if n > 0 {
      LogKeyBefore(rows, i, n - 1);
    }
  }

  /** While a row is not dealt with nothing can move onto its key. */
  lemma {:induction false} NoOneMovesAhead(db: Db, rows: seq<Selected>, n: nat, i: nat, m: nat)
    requires n <= i < m < |rows| && Placed(db.sessions, rows, n) && RekeyAll(db, rows[n..]).Some?
    ensures Place(rows, i, |rows|) != rows[m].key
    decreases i - n
  {
    hide Placed;
    assert rows[n..][0] == rows[n] && rows[n..][1..] == rows[n + 1..];
    PlaceOne(db, rows, n);
    var next := RekeyOne(db, rows[n]).value;
    if n == i {
      PlacesDiffer(next.sessions, rows, n + 1, i, m);
    } else {
      NoOneMovesAhead(next, rows, n + 1, i, m);
    }
  }

  lemma PlacesDiffer(sessions: map<string, Row>, rows: seq<Selected>, n: nat, i: nat, m: nat)
    requires i < n <= m < |rows| && Placed(sessions, rows, n)
    ensures Place(rows, i, |rows|) != rows[m].key
  {
    assert Places(rows, n)[i] != Places(rows, n)[m];
  }

  /** After a successful re-keying the log of every session is under its new key. */
  lemma LogsMoveWithTheirSession(db: Db, rows: seq<Selected>, line: nat, i: nat)
    requires Lists(rows, db.sessions) && Migrate9(db, rows).ok
    requires line < |db.logs| && i < |rows| && db.logs[line].key == rows[i].key
    ensures var after := Migrate9(db, rows).db;
      |after.logs| == |db.logs| && after.logs[line] == db.logs[line].(key := Place(rows, i, |rows|))
  {
    hide Placed, NextKey, Rekeyed, Settled;
    RekeyingKeepsSessions(db, rows);
    NothingPlacedYet(db.sessions, rows);
    assert rows[0..] == rows;
    forall m | i < m < |rows|
      ensures Place(rows, i, |rows|) != rows[m].key
    {
      NoOneMovesAhead(db, rows, 0, i, m);
    }
    LogKeyOfSession(rows, i, |rows|);
  }

  // ----------------------------------------------------------- the second run

  ghost predicate AllSettled(db: Db) {
    forall k <- db.sessions :: Settled(k, db.sessions[k])
  }

  lemma SettledUnchanged(db: Db, s: Selected)
    requires s.key in db.sessions && db.sessions[s.key] == s.row && Settled(s.key, s.row)
    ensures RekeyOne(db, s) == Some(db) && NormalizeOne(db, s) == Some(db)
  {
    if !s.row.json.Malformed? {
      assert (db.sessions - {s.key})[s.key := s.row] == db.sessions;
    }
  }

  lemma {:induction false} SettledIsFixed(db: Db, rows: seq<Selected>)
    requires AllSettled(db)
    requires forall i | 0 <= i < |rows| :: rows[i].key in db.sessions && db.sessions[rows[i].key] == rows[i].row
    ensures RekeyAll(db, rows) == Some(db) && NormalizeAll(db, rows) == Some(db)
    decreases |rows|
  {
    hide NextKey, Rekeyed, Settled, RekeyOne, NormalizeOne;
    if rows != [] {
      SettledUnchanged(db, rows[0]);
      SettledIsFixed(db, rows[1..]);
    }
  }

  /** Once migration 9 went through, running it again, or running migration 14, changes
      nothing, in whatever order the rows are listed. */
  lemma NineIsAFixedPoint(db: Db, rows: seq<Selected>, again: seq<Selected>)
    requires Lists(rows, db.sessions) && Migrate9(db, rows).ok && Lists(again, Migrate9(db, rows).db.sessions)
    ensures var after := Migrate9(db, rows).db;
      Migrate9(after, again) == Ended(after, true) && Migrate14(after, again) == Ended(after, true)
  {
    hide Placed, Settled;
    RekeyingKeepsSessions(db, rows);
    SettledIsFixed(Migrate9(db, rows).db, again);
  }

  lemma NormalizeStep(db: Db, s: Selected)
    requires s.key in db.sessions && db.sessions[s.key] == s.row
    ensures var r := NormalizeOne(db, s);
      && (r.Some? <==> !s.row.json.Primitive?)
      && (r.Some? ==> r.value == db.(sessions := db.sessions[s.key := Rekeyed(s.row)]))
  {
    assert db.sessions[s.key := s.row] == db.sessions;
  }

  lemma {:induction false} NormalizeFrom(db: Db, rows: seq<Selected>)
    requires forall i | 0 <= i < |rows| :: rows[i].key in db.sessions && db.sessions[rows[i].key] == rows[i].row
    requires forall i, j | 0 <= i < j < |rows| :: rows[i].key != rows[j].key
    ensures NormalizeAll(db, rows).Some? <==> forall i | 0 <= i < |rows| :: !rows[i].row.json.Primitive?
    ensures NormalizeAll(db, rows).Some? ==>
      var after := NormalizeAll(db, rows).value;
      && after == db.(sessions := after.sessions) && after.sessions.Keys == db.sessions.Keys
      && (forall i | 0 <= i < |rows| :: after.sessions[rows[i].key] == Rekeyed(rows[i].row))
      && (forall k <- db.sessions :: (forall i | 0 <= i < |rows| :: rows[i].key != k) ==> after.sessions[k] == db.sessions[k])
    decreases |rows|
  {
    hide NormalizeOne, Rekeyed;
    if rows != [] {
      NormalizeStep(db, rows[0]);
      if NormalizeOne(db, rows[0]).Some? {
        var next := NormalizeOne(db, rows[0]).value;
        var rest := rows[1..];
        assert next.sessions.Keys == db.sessions.Keys;
        NormalizeFrom(next, rest);
        assert forall i | 1 <= i < |rows| :: rows[i] == rest[i - 1];
      }
    }
  }

  /** The kind is written out, a missing or unknown one as implementation; the rest stays. */
  predicate HasKindOf(after: Json, before: Json) {
    if before.Object? then after == Object(if before.kind == Refinement then Refinement else Implementation, before.rest)
    else after == before
  }

  /** Migration 14 succeeds exactly when no state is a primitive, writes the kind into every
      state that parses, and changes nothing when run again. */
  lemma FourteenIsAFixedPoint(db: Db, rows: seq<Selected>, again: seq<Selected>)
    requires Lists(rows, db.sessions) && Lists(again, Migrate14(db, rows).db.sessions)
    ensures var r := Migrate14(db, rows);
      && (r.ok <==> forall i | 0 <= i < |rows| :: !rows[i].row.json.Primitive?)
      && r.db.sessions.Keys == db.sessions.Keys
      && (r.ok ==> forall k <- db.sessions :: r.db.sessions[k] == Rekeyed(db.sessions[k]))
      && (r.ok ==> forall k <- db.sessions :: HasKindOf(r.db.sessions[k].json, db.sessions[k].json))
      && (r.ok ==> Migrate14(r.db, again) == r)
      && (!r.ok ==> r.db == db)
  {
    hide NormalizeAll, NormalizeOne, Rekeyed, Lists;
    NormalizeListed(db, rows);
    var r := Migrate14(db, rows);
    if r.ok {
      forall k <- db.sessions
        ensures HasKindOf(r.db.sessions[k].json, db.sessions[k].json)
      {
        KindIsWritten(db.sessions[k]);
      }
      forall i | 0 <= i < |again|
        ensures NormalizeOne(r.db, again[i]) == Some(r.db)
      {
        ListedRow(again, r.db.sessions, i);
        NormalizedRow(r.db, again[i], db.sessions[again[i].key]);
      }
      NormalizeNothing(r.db, again);
    }
  }

  lemma KindIsWritten(row: Row)
    ensures HasKindOf(Rekeyed(row).json, row.json)
  {
  }

  lemma ListedRow(rows: seq<Selected>, sessions: map<string, Row>, i: nat)
    requires Lists(rows, sessions) && i < |rows|
    ensures rows[i].key in sessions && sessions[rows[i].key] == rows[i].row
  {
  }

  lemma NormalizeListed(db: Db, rows: seq<Selected>)
    requires Lists(rows, db.sessions)
    ensures NormalizeAll(db, rows).Some? <==> forall i | 0 <= i < |rows| :: !rows[i].row.json.Primitive?
    ensures NormalizeAll(db, rows).Some? ==>
      var after := NormalizeAll(db, rows).value;
      && after.sessions.Keys == db.sessions.Keys
      && (forall k <- db.sessions :: after.sessions[k] == Rekeyed(db.sessions[k]) && !db.sessions[k].json.Primitive?)
  {
    hide NormalizeAll, Rekeyed;
    NormalizeFrom(db, rows);
    if NormalizeAll(db, rows).Some? {
      forall k <- db.sessions
        ensures NormalizeAll(db, rows).value.sessions[k] == Rekeyed(db.sessions[k]) && !db.sessions[k].json.Primitive?
      {
        var j :| 0 <= j < |rows| && rows[j].key == k;
        assert rows[j].row == db.sessions[k];
      }
    }
  }

  lemma NormalizedRow(db: Db, s: Selected, row: Row)
    requires s.row == Rekeyed(row) && !row.json.Primitive?
    ensures NormalizeOne(db, s) == Some(db)
  {
  }

  lemma {:induction false} NormalizeNothing(db: Db, rows: seq<Selected>)
    requires forall i | 0 <= i < |rows| :: NormalizeOne(db, rows[i]) == Some(db)
    ensures NormalizeAll(db, rows) == Some(db)
    decreases |rows|
  {
    hide NormalizeOne;
    if rows != [] {
      NormalizeNothing(db, rows[1..]);
    }
  }

  // -------------------------------------------------------------- the startup

  /** What a start finds outside the database: how SELECT orders the sessions, and the
      legacy file. */
  datatype Surroundings = Surroundings(
    select: map<string, Row> -> seq<Selected>, canonical: bool, legacy: Option<Legacy>, sql: bool)

  ghost predicate Selects(s: Surroundings) {
    forall sessions :: Lists(s.select(sessions), sessions)
  }

  function RowsOf(sessions: map<string, Row>, keys: seq<string>): (rows: seq<Selected>)
    requires forall k <- keys :: k in sessions
    ensures |rows| == |keys| && forall i | 0 <= i < |rows| :: rows[i] == Selected(keys[i], sessions[keys[i]])
  {
    if keys == [] then [] else [Selected(keys[0], sessions[keys[0]])] + RowsOf(sessions, keys[1..])
  }

  lemma RowsAreListed(sessions: map<string, Row>, keys: seq<string>)
    requires forall k :: k in keys <==> k in sessions
    requires forall i, j | 0 <= i < j < |keys| :: keys[i] != keys[j]
    ensures Lists(RowsOf(sessions, keys), sessions)
  {
    var rows := RowsOf(sessions, keys);
    forall k <- sessions
      ensures exists i :: 0 <= i < |rows| && rows[i].key == k
    {
      var i :| 0 <= i < |keys| && keys[i] == k;
      assert rows[i].key == k;
    }
  }

  ghost function Selection(sessions: map<string, Row>): (rows: seq<Selected>)
    ensures Lists(rows, sessions)
  {
    var keys := Enumerated(sessions.Keys);
    RowsAreListed(sessions, keys);
    RowsOf(sessions, keys)
  }

  /** Every table of sessions can be selected in some order. */
  lemma SomeSelectionLists(s: Surroundings)
    ensures exists select: map<string, Row> -> seq<Selected> :: Selects(s.(select := select))
  {
    var select := (sessions: map<string, Row>) => Selection(sessions);
    assert Selects(s.(select := select));
  }

  function Apply(id: nat, db: Db, s: Surroundings): Ended {
    if id == 9 then Migrate9(db, s.select(db.sessions))
    else if id == 14 then Migrate14(db, s.select(db.sessions))
    else if id == 16 then Consolidate(db, s.canonical, s.legacy, s.sql)
    else Ended(db, true)
  }

  function Noted(db: Db, id: nat): Db {
    db.(applied := db.applied + {id})
  }

  /** runMigrations: every migration runs at every start, applied or not. */
  function RunFrom(ids: seq<nat>, db: Db, s: Surroundings): Ended
    decreases |ids|
  {
    if ids == [] then Ended(db, true)
    else
      var r := Apply(ids[0], db, s);
      if !r.ok then r else RunFrom(ids[1..], Noted(r.db, ids[0]), s)
  }

  /** One more migration after a start that got this far. */
  function AndThen(e: Ended, id: nat, s: Surroundings): Ended {
    if !e.ok then e
    else
      var r := Apply(id, e.db, s);
      if !r.ok then r else Ended(Noted(r.db, id), true)
  }

  /** The migrations that change rows, in their order. */
  const DATA_MIGRATIONS: seq<nat> := [9, 14, 16]

  /** A start that went through leaves a database that the next start does not change. */
  lemma StartingAgainChangesNothing(db: Db, s: Surroundings)
    requires Selects(s)
    ensures var r := RunFrom(DATA_MIGRATIONS, db, s); r.ok ==> RunFrom(DATA_MIGRATIONS, r.db, s) == r
  {
    hide Migrate9, Migrate14, Consolidate, Selects, AllSettled;
    Unrolled(db, s);
    var e9 := AndThen(Ended(db, true), 9, s);
    var e14 := AndThen(e9, 14, s);
    var e16 := AndThen(e14, 16, s);
    if e16.ok {
      NineSettles(db, s);
      SettledAnyway(Migrate9(db, s.select(db.sessions)).db, e9.db);
      SettledStays(e9.db, s);
      assert e14.db == Noted(e9.db, 14);
      ConsolidationKeepsSessions(e14.db, s);
      ConsolidationIsIdempotent(e14.db, s.canonical, s.legacy, s.sql);
      var r16 := Consolidate(e14.db, s.canonical, s.legacy, s.sql);
      assert e16.db == Noted(r16.db, 16);
      SettledAnyway(e9.db, e16.db);
      SettledStays(e16.db, s);
      AppliedOnlyMarks(r16.db, e16.db.applied, s);
      assert {9, 14, 16} <= e16.db.applied;
      assert Noted(e16.db, 9) == e16.db && Noted(e16.db, 14) == e16.db && Noted(e16.db, 16) == e16.db;
      Unrolled(e16.db, s);
    }
  }

  /** What a start does: it goes through exactly when the re-keying and the merge do, since
      after the first the kinds are in order; then it has done both and nothing else. */
  lemma WhatAStartDoes(db: Db, s: Surroundings)
    requires Selects(s)
    ensures var r := RunFrom(DATA_MIGRATIONS, db, s);
      var nine := Migrate9(db, s.select(db.sessions));
      var merged := Consolidate(nine.db, s.canonical, s.legacy, s.sql);
      && (r.ok <==> nine.ok && merged.ok)
      && (r.ok ==> r.db == merged.db.(applied := db.applied + {9, 14, 16}))
      && (!nine.ok ==> r.db == db)
      && (nine.ok && !merged.ok ==> r.db == nine.db.(applied := db.applied + {9, 14}))
  {
    hide Migrate9, Migrate14, Consolidate, Selects, AllSettled;
    Unrolled(db, s);
    var nine := Migrate9(db, s.select(db.sessions));
    NineKeepsTheRest(db, s);
    if nine.ok {
      NineSettles(db, s);
      var e9 := AndThen(Ended(db, true), 9, s);
      SettledAnyway(nine.db, e9.db);
      SettledStays(e9.db, s);
      var e14 := AndThen(e9, 14, s);
      assert e14 == Ended(Noted(e9.db, 14), true);
      assert nine.db.applied == db.applied;
      assert db.applied + {9} + {14} == db.applied + {9, 14};
      assert db.applied + {9, 14} + {16} == db.applied + {9, 14, 16};
      AppliedOnlyMarks(nine.db, db.applied + {9, 14}, s);
      ConsolidationKeepsSessions(nine.db, s);
      MergeFailsWhole(nine.db, s);
    }
  }

  lemma NineKeepsTheRest(db: Db, s: Surroundings)
    requires Selects(s)
    ensures var nine := Migrate9(db, s.select(db.sessions)); nine.db.applied == db.applied && (!nine.ok ==> nine.db == db)
  {
    hide Settled, Placed, LogsFollow;
    RekeyingKeepsSessions(db, s.select(db.sessions));
  }

  lemma MergeFailsWhole(db: Db, s: Surroundings)
    ensures var r := Consolidate(db, s.canonical, s.legacy, s.sql); !r.ok ==> r.db == db
  {
  }

  /** The other migrations run at every start too; they succeed, change no rows, and are noted. */
  lemma {:induction false} SchemaMigrationsOnlyNote(ids: seq<nat>, db: Db, s: Surroundings)
    requires forall i | 0 <= i < |ids| :: ids[i] !in {9, 14, 16}
    ensures RunFrom(ids, db, s) == Ended(db.(applied := db.applied + set i | 0 <= i < |ids| :: ids[i]), true)
    decreases |ids|
  {
    var noted := set i | 0 <= i < |ids| :: ids[i];
    if ids == [] {
      assert db.applied + noted == db.applied;
    } else {
      var rest := ids[1..];
      assert ids[0] !in {9, 14, 16};
      SchemaMigrationsOnlyNote(rest, Noted(db, ids[0]), s);
      var others := set i | 0 <= i < |rest| :: rest[i];
      assert forall x :: x in noted <==> x == ids[0] || x in others by {
        assert forall i | 0 < i < |ids| :: ids[i] == rest[i - 1];
        assert ids[0] in noted;
        assert forall i | 0 <= i < |rest| :: ids[i + 1] == rest[i];
      }
      assert db.applied + {ids[0]} + others == db.applied + noted;
    }
  }

  lemma Unrolled(db: Db, s: Surroundings)
    ensures RunFrom(DATA_MIGRATIONS, db, s) == AndThen(AndThen(AndThen(Ended(db, true), 9, s), 14, s), 16, s)
  {
    hide Apply;
    assert DATA_MIGRATIONS[1..] == [14, 16] && [14, 16][1..] == [16];
    var none: seq<nat> := [16][1..];
    assert none == [];
  }

  lemma NineSettles(db: Db, s: Surroundings)
    requires Selects(s) && Migrate9(db, s.select(db.sessions)).ok
    ensures AllSettled(Migrate9(db, s.select(db.sessions)).db)
  {
    hide Settled, Placed, LogsFollow;
    RekeyingKeepsSessions(db, s.select(db.sessions));
  }

  lemma SettledStays(db: Db, s: Surroundings)
    requires Selects(s) && AllSettled(db)
    ensures Migrate9(db, s.select(db.sessions)) == Ended(db, true) && Migrate14(db, s.select(db.sessions)) == Ended(db, true)
  {
    hide AllSettled;
    assert Lists(s.select(db.sessions), db.sessions);
    SettledIsFixed(db, s.select(db.sessions));
  }

  lemma SettledAnyway(before: Db, after: Db)
    requires AllSettled(before) && before.sessions == after.sessions
    ensures AllSettled(after)
  {
  }

  lemma ConsolidationKeepsSessions(db: Db, s: Surroundings)
    ensures var r := Consolidate(db, s.canonical, s.legacy, s.sql);
      r.db.sessions == db.sessions && r.db.logs == db.logs && r.db.applied == db.applied
  {
  }

  lemma AppliedOnlyMarks(db: Db, applied: set<nat>, s: Surroundings)
    ensures var r := Consolidate(db, s.canonical, s.legacy, s.sql); var t := Consolidate(db.(applied := applied), s.canonical, s.legacy, s.sql);
      t == Ended(r.db.(applied := applied), r.ok)
  {
  }

  // ------------------------------------------------------------ the database

  class Database {
    var sessions: map<string, Row>
    var logs: seq<LogLine>
    var attempts: map<string, Attempt>
    var instructions: map<Scope, Instruction>
    var marker: Option<Marker>
    var applied: set<nat>
    var saved: Option<Db>

    constructor (db: Db)
      ensures Contents() == db && saved == None
    {
      sessions, logs, attempts := db.sessions, db.logs, db.attempts;
      instructions, marker, applied, saved := db.instructions, db.marker, db.applied, None;
    }

    function Contents(): Db
      reads this
    {
      Db(sessions, logs, attempts, instructions, marker, applied)
    }

    /** BEGIN IMMEDIATE */
    method Begin()
      requires saved == None
      modifies this`saved
      ensures saved == Some(Contents())
    {
      saved := Some(Contents());
    }

    method Commit()
      requires saved.Some?
      modifies this`saved
      ensures saved == None
    {
      saved := None;
    }

    method Rollback()
      requires saved.Some?
      modifies this
      ensures saved == None && Contents() == old(saved.value)
    {
      var db := saved.value;
      sessions, logs, attempts := db.sessions, db.logs, db.attempts;
      instructions, marker, applied := db.instructions, db.marker, db.applied;
      saved := None;
    }

    method MakeKeysKindAware(rows: seq<Selected>) returns (ok: bool)
      requires saved == None
      modifies this
      ensures saved == None && Migrate9(old(Contents()), rows) == Ended(Contents(), ok)
    {
      hide NextKey, WithKind;
      Begin();
      var i := 0;
      assert rows[0..] == rows;
      while i < |rows|
        invariant 0 <= i <= |rows| && saved == Some(old(Contents()))
        invariant RekeyAll(Contents(), rows[i..]) == RekeyAll(old(Contents()), rows)
      {
        assert rows[i..][0] == rows[i] && rows[i..][1..] == rows[i + 1..];
        var row := rows[i];
        ghost var before := Contents();
        if !row.row.json.Malformed? {
          var next := NextKey(row.row);
          if row.row.json.Primitive? || (next != row.key && next in sessions) {
            Rollback();
            return false;
          }
          if next != row.key {
            logs := MoveLogs(logs, row.key, next);
          }
          sessions := (sessions - {row.key})[next := Rekeyed(row.row)];
        }
        assert RekeyOne(before, row) == Some(Contents());
        i := i + 1;
      }
      Commit();
      return true;
    }

    method NormalizeKinds(rows: seq<Selected>) returns (ok: bool)
      requires saved == None
      modifies this
      ensures saved == None && Migrate14(old(Contents()), rows) == Ended(Contents(), ok)
    {
      hide WithKind;
      Begin();
      var i := 0;
      assert rows[0..] == rows;
      while i < |rows|
        invariant 0 <= i <= |rows| && saved == Some(old(Contents()))
        invariant NormalizeAll(Contents(), rows[i..]) == NormalizeAll(old(Contents()), rows)
      {
        assert rows[i..][0] == rows[i] && rows[i..][1..] == rows[i + 1..];
        var row := rows[i];
        ghost var before := Contents();
        if !row.row.json.Malformed? {
          if row.row.json.Primitive? {
            Rollback();
            return false;
          }
          if row.row.json != WithKind(row.row.json) && row.key in sessions {
            sessions := sessions[row.key := sessions[row.key].(json := WithKind(row.row.json))];
          }
        }
        assert NormalizeOne(before, row) == Some(Contents());
        i := i + 1;
      }
      Commit();
      return true;
    }

    method MigrateRefinementStore(canonical: bool, legacy: Option<Legacy>, sql: bool) returns (ok: bool)
      requires saved == None
      modifies this
      ensures saved == None && Consolidate(old(Contents()), canonical, legacy, sql) == Ended(Contents(), ok)
    {
      if !canonical || marker.Some? || !HasTables(legacy) {
        return true;
      }
      var file := legacy.value;
      Begin();
      var attemptsCopied := Copied(file.attempts, attempts);
      attempts := Inserted(file.attempts, attempts);
      if Clashes(file.attempts, attempts) {
        Rollback();
        return false;
      }
      var instructionsCopied := Copied(file.instructions, instructions);
      instructions := Inserted(file.instructions, instructions);
      if !sql || Clashes(file.instructions, instructions) {
        Rollback();
        return false;
      }
      marker := Some(Marker(attemptsCopied, instructionsCopied));
      Commit();
      return true;
    }

    /** Stops at the first migration that throws. */
    method RunMigrations(ids: seq<nat>, s: Surroundings) returns (ok: bool)
      requires saved == None
      modifies this
      ensures saved == None && RunFrom(ids, old(Contents()), s) == Ended(Contents(), ok)
    {
      hide Migrate9, Migrate14, Consolidate;
      var i := 0;
      assert ids[0..] == ids;
      while i < |ids|
        invariant 0 <= i <= |ids| && saved == None
        invariant RunFrom(ids[i..], Contents(), s) == RunFrom(ids, old(Contents()), s)
      {
        assert ids[i..][0] == ids[i] && ids[i..][1..] == ids[i + 1..];
        ok := true;
        if ids[i] == 9 {
          ok := MakeKeysKindAware(s.select(sessions));
        } else if ids[i] == 14 {
          ok := NormalizeKinds(s.select(sessions));
        } else if ids[i] == 16 {
          ok := MigrateRefinementStore(s.canonical, s.legacy, s.sql);
        }
        if !ok {
          return false;
        }
        applied := applied + {ids[i]};
        i := i + 1;
      }
      return true;
    }
  }
}
