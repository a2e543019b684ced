/** The capped in-memory session logs and their durable rows
    (src/logging/session-log-store.ts). */
module SessionLog {
  import opened Wrappers

  const MAX_LOGS: nat := 5000

  type Entry = nat

  /** A row of session_logs, in the order of its id. */
  datatype Row = Row(key: string, entry: Entry)

  type Logs = map<string, seq<Entry>>

  datatype State = State(memory: Logs, durable: seq<Row>)

  function Capped(entries: seq<Entry>): (r: seq<Entry>)
    ensures |r| <= MAX_LOGS
  {
    if |entries| > MAX_LOGS then entries[|entries| - MAX_LOGS..] else entries
  }

  function EntriesOf(rows: seq<Row>, key: string): seq<Entry> {
    if rows == [] then []
    else EntriesOf(rows[..|rows| - 1], key) + (if rows[|rows| - 1].key == key then [rows[|rows| - 1].entry] else [])
  }

  function KeysOf(rows: seq<Row>): set<string> {
    set i | 0 <= i < |rows| :: rows[i].key
  }

  /** What a restart makes of the rows. */
  function Rebuilt(rows: seq<Row>): Logs {
    map k | k in KeysOf(rows) :: Capped(EntriesOf(rows, k))
  }

  function Without(rows: seq<Row>, key: string): seq<Row> {
    if rows == [] then []
    else Without(rows[..|rows| - 1], key) + (if rows[|rows| - 1].key == key then [] else [rows[|rows| - 1]])
  }

  /** `ok` says whether the database statement of a call succeeds. */
  datatype Op = Record(key: string, entry: Entry, ok: bool) | Clear(cleared: string, ok: bool) | Restart

  function Pushed(memory: Logs, key: string, entry: Entry): Logs {
    memory[key := Capped((if key in memory then memory[key] else []) + [entry])]
  }

  function Step(s: State, op: Op): State {
    match op
    case Record(key, entry, ok) => State(Pushed(s.memory, key, entry), if ok then s.durable + [Row(key, entry)] else s.durable)
    case Clear(key, ok) => State(s.memory - {key}, if ok then Without(s.durable, key) else s.durable)
    case Restart => s.(memory := Rebuilt(s.durable))
  }

  function Run(s: State, ops: seq<Op>): State
    decreases |ops|
  {
    if ops == [] then s else Run(Step(s, ops[0]), ops[1..])
  }

  /** Every session's log in memory is the last 5000, or fewer, of its durable entries, and
      only sessions with entries are there. */
  predicate InSync(s: State) {
    s.memory == Rebuilt(s.durable)
  }

  lemma CapTwice(a: seq<Entry>, e: Entry)
    ensures Capped(Capped(a) + [e]) == Capped(a + [e])
  {
  }

  lemma EntriesAppend(rows: seq<Row>, row: Row, key: string)
    ensures EntriesOf(rows + [row], key) == EntriesOf(rows, key) + (if row.key == key then [row.entry] else [])
    ensures KeysOf(rows + [row]) == KeysOf(rows) + {row.key}
  {
    var more := rows + [row];
    assert more[..|more| - 1] == rows && more[|rows|] == row;
    forall k
      ensures k in KeysOf(more) <==> k in KeysOf(rows) + {row.key}
    {
      if k in KeysOf(rows) {
        var i :| 0 <= i < |rows| && rows[i].key == k;
        assert more[i].key == k;
      }
    }
  }

  lemma {:induction false} NoEntries(rows: seq<Row>, key: string)
    ensures EntriesOf(rows, key) == [] <==> key !in KeysOf(rows)
  {
    if rows != [] {
      var front := rows[..|rows| - 1];
      NoEntries(front, key);
      assert rows == front + [rows[|rows| - 1]];
      EntriesAppend(front, rows[|rows| - 1], key);
    }
  }

  lemma {:induction false} WithoutEntries(rows: seq<Row>, key: string, other: string)
    ensures EntriesOf(Without(rows, key), other) == if other == key then [] else EntriesOf(rows, other)
    ensures KeysOf(Without(rows, key)) == KeysOf(rows) - {key}
  {
    if rows != [] {
      var front, row := rows[..|rows| - 1], rows[|rows| - 1];
      assert rows == front + [row];
      WithoutEntries(front, key, other);
      EntriesAppend(front, row, other);
      if row.key == key {
        assert Without(rows, key) == Without(front, key) + [] == Without(front, key);
      } else {
        EntriesAppend(Without(front, key), row, other);
      }
    }
  }

  lemma RecordKeepsSync(s: State, key: string, entry: Entry)
    requires InSync(s)
    ensures InSync(Step(s, Record(key, entry, true)))
  {
    hide EntriesOf, KeysOf, Capped;
    var after := Step(s, Record(key, entry, true));
    var row := Row(key, entry);
    EntriesAppend(s.durable, row, key);
    NoEntries(s.durable, key);
    forall k <- after.memory
      ensures after.memory[k] == Rebuilt(after.durable)[k]
    {
      EntriesAppend(s.durable, row, k);
      if k == key {
        CapTwice(EntriesOf(s.durable, key), entry);
        assert [] + [entry] == EntriesOf(s.durable, key) + [entry] || key in s.memory;
      } else {
        assert EntriesOf(s.durable, k) + [] == EntriesOf(s.durable, k);
      }
    }
  }

  lemma ClearKeepsSync(s: State, key: string)
    requires InSync(s)
    ensures InSync(Step(s, Clear(key, true)))
  {
    hide EntriesOf, KeysOf, Capped, Without;
    var after := Step(s, Clear(key, true));
    WithoutEntries(s.durable, key, key);
    forall k <- after.memory
      ensures after.memory[k] == Rebuilt(after.durable)[k]
    {
      WithoutEntries(s.durable, key, k);
    }
  }

  predicate AllSucceed(ops: seq<Op>) {
    forall i | 0 <= i < |ops| :: !ops[i].Restart? ==> ops[i].ok
  }

  /** With persistence from the start, memory and rows stay in step over every sequence of
      recording, clearing and restarting. */
  lemma {:induction false} MemoryIsTheTail(s: State, ops: seq<Op>)
    requires InSync(s) && AllSucceed(ops)
    ensures InSync(Run(s, ops))
    decreases |ops|
  {
    hide InSync, Step;
    if ops != [] {
      StepKeepsSync(s, ops[0]);
      MemoryIsTheTail(Step(s, ops[0]), ops[1..]);
    }
  }

  lemma StepKeepsSync(s: State, op: Op)
    requires InSync(s) && (!op.Restart? ==> op.ok)
    ensures InSync(Step(s, op))
  {
    hide Rebuilt, Pushed, Without;
    match op {
      case Record(key, entry, _) => RecordKeepsSync(s, key, entry);
      case Clear(key, _) => ClearKeepsSync(s, key);
      case Restart =>
    }
  }

  /** What a session has recorded since it was last cleared, whatever restarts came between. */
  function Recorded(before: seq<Entry>, ops: seq<Op>, key: string): seq<Entry>
    decreases |ops|
  {
    if ops == [] then before
    else
      var next :=
        match ops[0]
        case Record(k, entry, _) => if k == key then before + [entry] else before
        case Clear(k, _) => if k == key then [] else before
        case Restart => before;
      Recorded(next, ops[1..], key)
  }

  lemma {:induction false} RowsAreTheHistory(s: State, ops: seq<Op>, key: string)
    requires AllSucceed(ops)
    ensures EntriesOf(Run(s, ops).durable, key) == Recorded(EntriesOf(s.durable, key), ops, key)
    decreases |ops|
  {
    hide EntriesOf, Without, Rebuilt, Pushed;
    if ops != [] {
      match ops[0] {
        case Record(k, entry, _) => EntriesAppend(s.durable, Row(k, entry), key);
          assert EntriesOf(s.durable, key) + [] == EntriesOf(s.durable, key);
        case Clear(k, _) => WithoutEntries(s.durable, k, key);
        case Restart =>
      }
      RowsAreTheHistory(Step(s, ops[0]), ops[1..], key);
    }
  }

  /** Starting empty, a session's log in memory is what it recorded since it was last cleared,
      cut to the latest 5000 entries, and is there exactly when it recorded anything. */
  lemma MemoryIsTheHistory(ops: seq<Op>, key: string)
    requires AllSucceed(ops)
    ensures var memory := Run(State(map[], []), ops).memory; var history := Recorded([], ops, key);
      && (key in memory <==> history != [])
      && (key in memory ==> memory[key] == if |history| > 5000 then history[|history| - 5000..] else history)
  {
    hide Run, EntriesOf;
    var start := State(map[], []);
    NothingRecorded(key);
    MemoryIsTheTail(start, ops);
    RowsAreTheHistory(start, ops, key);
    NoEntries(Run(start, ops).durable, key);
  }

  lemma NothingRecorded(key: string)
    ensures InSync(State(map[], [])) && EntriesOf([], key) == []
  {
  }

  /** A restart rebuilds exactly the map that was there. */
  lemma RestartRebuildsTheSame(s: State, ops: seq<Op>)
    requires InSync(s) && AllSucceed(ops)
    ensures Step(Run(s, ops), Restart) == Run(s, ops)
  {
    hide Rebuilt, Run;
    MemoryIsTheTail(s, ops);
  }

  /** Other sessions' logs are untouched by whatever one session does. */
  lemma OthersAreUntouched(s: State, op: Op, other: string)
    requires !op.Restart? && other != (if op.Record? then op.key else op.cleared)
    ensures var after := Step(s, op);
      && (other in after.memory <==> other in s.memory) && (other in s.memory ==> after.memory[other] == s.memory[other])
      && EntriesOf(after.durable, other) == EntriesOf(s.durable, other)
  {
    hide Capped;
    match op {
      case Record(key, entry, ok) => EntriesAppend(s.durable, Row(key, entry), other);
      case Clear(key, ok) => WithoutEntries(s.durable, key, other);
    }
  }

  /** The log is full of copies of this entry. */
  predicate FullOf(entries: seq<Entry>, e: Entry) {
    |entries| >= MAX_LOGS && forall i | 0 <= i < MAX_LOGS :: Capped(entries)[i] == e
  }

  /** Dropping the first and adding `e` gives the same list only when all of it is `e`. */
  lemma {:induction false} ShiftedIsSame(entries: seq<Entry>, e: Entry, i: nat)
    requires i < |entries| && entries[1..] + [e] == entries
    ensures entries[i] == e
    decreases |entries| - i
  {
    var shifted := entries[1..] + [e];
    if i < |entries| - 1 {
      ShiftedIsSame(entries, e, i + 1);
      assert shifted[i] == entries[i + 1];
    } else {
      assert shifted[i] == e;
    }
  }

  lemma PushedIsSame(entries: seq<Entry>, e: Entry)
    ensures Capped(Capped(entries) + [e]) == Capped(entries) <==> FullOf(entries, e)
  {
    var kept := Capped(entries);
    if |entries| >= MAX_LOGS {
      assert (kept + [e])[1..] == kept[1..] + [e];
      if kept[1..] + [e] == kept {
        forall i | 0 <= i < MAX_LOGS
          ensures kept[i] == e
        {
          ShiftedIsSame(kept, e, i);
        }
      }
    }
  }

  /** A failing append leaves memory and rows in step exactly when the log was full of copies
      of the very entry; otherwise no restart brings the entry back. */
  lemma FailedAppendDiverges(s: State, key: string, entry: Entry)
    requires InSync(s)
    ensures var after := Step(s, Record(key, entry, false));
      && (InSync(after) <==> FullOf(EntriesOf(s.durable, key), entry))
      && after.memory[key] == Capped(EntriesOf(s.durable, key) + [entry])
      && Step(after, Restart) == s
  {
    hide EntriesOf, KeysOf, Capped, FullOf;
    NoEntries(s.durable, key);
    var entries := EntriesOf(s.durable, key);
    PushedIsSame(entries, entry);
    CapTwice(entries, entry);
    NothingKept(entry);
    var after := Step(s, Record(key, entry, false));
    if key in s.memory {
      assert s.memory[key] == Capped(entries);
      if Capped(Capped(entries) + [entry]) == Capped(entries) {
        assert after.memory == s.memory;
      }
    }
  }

  lemma NothingKept(e: Entry)
    ensures Capped([]) == [] && !FullOf([], e)
  {
  }

  /** A clear whose statement fails is undone by the next restart. */
  lemma FailedClearComesBack(s: State, key: string)
    requires InSync(s)
    ensures var after := Step(s, Clear(key, false));
      && key !in after.memory && Step(after, Restart) == s
      && (InSync(after) <==> EntriesOf(s.durable, key) == [])
  {
    NoEntries(s.durable, key);
  }

  class SessionLogs {
    var memory: Logs
    var durable: seq<Row>

    constructor (durable: seq<Row>)
      ensures memory == map[] && this.durable == durable
    {
      memory, this.durable := map[], durable;
    }

    function View(): State
      reads this
    {
      State(memory, durable)
    }

    method RecordSessionLog(key: string, entry: Entry, ok: bool) returns (stored: bool)
      modifies this
      ensures View() == Step(old(View()), Record(key, entry, ok)) && stored == ok
    {
      var logs := if key in memory then memory[key] else [];
      logs := logs + [entry];
      if |logs| > MAX_LOGS {
        logs := logs[|logs| - MAX_LOGS..];
      }
      memory := memory[key := logs];
      if ok {
        durable := durable + [Row(key, entry)];
      }
      return ok;
    }

    method ClearSessionLogs(key: string, ok: bool) returns (cleared: bool)
      modifies this
      ensures View() == Step(old(View()), Clear(key, ok)) && cleared == ok
    {
      memory := memory - {key};
      if ok {
        durable := Without(durable, key);
      }
      return ok;
    }

    /** SessionLogStore.loadAll */
    method LoadAll() returns (all: Logs)
      ensures all.Keys == KeysOf(durable) && forall k <- all :: all[k] == EntriesOf(durable, k)
    {
      all := map[];
      var i := 0;
      while i < |durable|
        invariant 0 <= i <= |durable|
        invariant all.Keys == KeysOf(durable[..i]) && forall k <- all :: all[k] == EntriesOf(durable[..i], k)
      {
        var row := durable[i];
        assert durable[..i + 1] == durable[..i] + [row];
        forall k
          ensures EntriesOf(durable[..i + 1], k) == EntriesOf(durable[..i], k) + (if row.key == k then [row.entry] else [])
          ensures KeysOf(durable[..i + 1]) == KeysOf(durable[..i]) + {row.key}
        {
          EntriesAppend(durable[..i], row, k);
        }
        NoEntries(durable[..i], row.key);
        var entries := if row.key in all then all[row.key] else [];
        all := all[row.key := entries + [row.entry]];
        i := i + 1;
      }
      assert durable[..i] == durable;
    }

    /** loadPersistedSessionLogs in a new process. */
    method LoadPersistedSessionLogs()
      requires memory == map[]
      modifies this`memory
      ensures View() == Step(old(View()), Restart)
    {
      hide EntriesOf, KeysOf, Capped;
      var all := LoadAll();
      var keys := all.Keys;
      while keys != {}
        invariant keys <= all.Keys
        invariant memory.Keys == all.Keys - keys && forall k <- memory :: memory[k] == Capped(all[k])
        decreases |keys|
      {
        var key :| key in keys;
        keys := keys - {key};
        memory := memory[key := Capped(all[key])];
      }
    }
  }
}
