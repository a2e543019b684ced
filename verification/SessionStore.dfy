/** The session store: a map in front of database rows (src/session/store.ts). */
module SessionStore {
  import opened Numbers
  import opened Wrappers

  datatype Kind = Implementation | Refinement

  /** A session state; `rest` stands for its remaining fields. */
  datatype Session = Session(owner: string, repo: string, issue: int, kind: Option<Kind>, archivedAt: Option<string>, rest: nat)

  /** A row of the sessions table; `json` is None when it does not parse. */
  datatype Row = Row(json: Option<Session>, archivedAt: Option<string>)

  datatype Entry = Entry(state: Session, archived: bool)

  type Rows = map<string, Row>
  type Cache = map<string, Entry>

  datatype Store = Store(rows: Rows, cache: Cache)

  function KindName(k: Kind): string {
    match k case Implementation => "implementation" case Refinement => "refinement"
  }

  /** sessionStorageKey; different sessions may share a key. */
  function Key(owner: string, repo: string, issue: int, kind: Kind): string {
    "github-" + owner + "-" + repo + "-issue-" + IntText(issue) + "-" + KindName(kind)
  }

  function Normalized(s: Session): (r: Session)
    ensures r.kind.Some?
  {
    s.(kind := Some(if s.kind.Some? then s.kind.value else Implementation))
  }

  function KeyOf(s: Session): string {
    Key(s.owner, s.repo, s.issue, Normalized(s).kind.value)
  }

  /** JavaScript's truth of a nullable string: the empty string is false. */
  predicate Truthy(s: Option<string>) {
    s.Some? && s.value != ""
  }

  /** `ok` says whether the file or database operations of a call succeed. */
  datatype Op =
    | Get(key: string)
    | Set(state: Session, ok: bool)
    | Exists(key: string)
    | Delete(key: string, ok: bool)
    | Archive(state: Session, ok: bool)
    | GetAll
    | Import(imported: Session, ok: bool)

  datatype Answer = Absent | Found(state: Session) | Flag(found: bool) | Done | Rejected | Listed(states: map<string, Session>)

  /** A row as a lookup without the cache sees it. */
  function Lookup(rows: Rows, key: string): Option<Session> {
    if key !in rows || Truthy(rows[key].archivedAt) || rows[key].json.None? then None
    else Some(Normalized(rows[key].json.value))
  }

  function RowOf(s: Session): Row {
    Row(Some(Normalized(s)), s.archivedAt)
  }

  /** The rows `getAll` lists. */
  function Active(rows: Rows): map<string, Session> {
    map k | k in rows && rows[k].archivedAt.None? && rows[k].json.Some? :: Normalized(rows[k].json.value)
  }

  // ------------------------------------------------- the store without a cache

  function PlainStep(rows: Rows, op: Op): (Rows, Answer) {
    match op
    case Get(key) => (rows, if Lookup(rows, key).Some? then Found(Lookup(rows, key).value) else Absent)
    case Set(state, ok) => if ok then (rows[KeyOf(state) := RowOf(state)], Found(Normalized(state))) else (rows, Rejected)
    case Exists(key) => (rows, Flag(key in rows && !Truthy(rows[key].archivedAt)))
    case Delete(key, ok) => if ok then (rows - {key}, Done) else (rows, Rejected)
    case Archive(state, ok) => if ok then (rows - {KeyOf(state)}, Done) else (rows, Rejected)
    case GetAll => (rows, Listed(Active(rows)))
    case Import(state, ok) =>
      if !ok || KeyOf(state) in rows then (rows, Done) else (rows[KeyOf(state) := RowOf(state)], Done)
  }

  function PlainRun(rows: Rows, ops: seq<Op>): (Rows, seq<Answer>)
    decreases |ops|
  {
    if ops == [] then (rows, [])
    else
      var (next, answer) := PlainStep(rows, ops[0]);
      var (last, answers) := PlainRun(next, ops[1..]);
      (last, [answer] + answers)
  }

  // ---------------------------------------------------- the store with its cache

  function Step(s: Store, op: Op): (Store, Answer) {
    match op
    case Get(key) =>
      if key in s.cache && !s.cache[key].archived then (s, Found(s.cache[key].state))
      else
        (match Lookup(s.rows, key)
         case None => (s, Absent)
         case Some(state) => (s.(cache := s.cache[key := Entry(state, false)]), Found(state)))
    case Set(state, ok) =>
      if !ok then (s, Rejected)
      else
        (Store(s.rows[KeyOf(state) := RowOf(state)], s.cache[KeyOf(state) := Entry(Normalized(state), Truthy(state.archivedAt))]),
         Found(Normalized(state)))
    case Exists(key) =>
      if key in s.cache && !s.cache[key].archived then (s, Flag(true))
      else (s, Flag(key in s.rows && !Truthy(s.rows[key].archivedAt)))
    case Delete(key, ok) =>
      (Store(if ok then s.rows - {key} else s.rows, s.cache - {key}), if ok then Done else Rejected)
    case Archive(state, ok) =>
      if ok then (Store(s.rows - {KeyOf(state)}, s.cache - {KeyOf(state)}), Done) else (s, Rejected)
    case GetAll => (s, Listed(Active(s.rows)))
    case Import(state, ok) =>
      if !ok || KeyOf(state) in s.rows then (s, Done) else (s.(rows := s.rows[KeyOf(state) := RowOf(state)]), Done)
  }

  function Run(s: Store, ops: seq<Op>): (Store, seq<Answer>)
    decreases |ops|
  {
    if ops == [] then (s, [])
    else
      var (next, answer) := Step(s, ops[0]);
      var (last, answers) := Run(next, ops[1..]);
      (last, [answer] + answers)
  }

  /** Every cache entry has a row and agrees with it in state and archived flag. */
  predicate Coherent(s: Store) {
    forall k <- s.cache ::
      && k in s.rows && s.rows[k].json.Some?
      && s.cache[k].state == Normalized(s.rows[k].json.value)
      && s.cache[k].archived == Truthy(s.rows[k].archivedAt)
  }

  lemma StepRefines(s: Store, op: Op)
    requires Coherent(s)
    ensures var (next, answer) := Step(s, op); Coherent(next) && PlainStep(s.rows, op) == (next.rows, answer)
  {
    hide Key;
  }

  /** Over every sequence of calls, failing ones included, the cached store answers as the
      uncached one and ends with the same rows. */
  lemma {:induction false} CacheIsInvisible(s: Store, ops: seq<Op>)
    requires Coherent(s)
    ensures var (last, answers) := Run(s, ops);
      Coherent(last) && PlainRun(s.rows, ops) == (last.rows, answers)
    decreases |ops|
  {
    hide Step, PlainStep, Coherent;
    if ops != [] {
      StepRefines(s, ops[0]);
      CacheIsInvisible(Step(s, ops[0]).0, ops[1..]);
    }
  }

  /** What was read or stored once is answered from the cache, whatever the rows say by then;
      only an archived session is looked up again. */
  lemma ReadsAreCached(s: Store, key: string, others: Rows)
    ensures var (next, answer) := Step(s, Get(key));
      answer.Found? ==> Step(Store(others, next.cache), Get(key)).1 == answer
  {
  }

  /** The operation succeeds in writing or deleting the row of this key; an import only
      fills a key that is free. */
  predicate Writes(op: Op, key: string) {
    match op
    case Set(state, ok) => ok && KeyOf(state) == key
    case Delete(k, ok) => ok && k == key
    case Archive(state, ok) => ok && KeyOf(state) == key
    case Import(state, ok) => ok && KeyOf(state) == key
    case _ => false
  }

  lemma {:induction false} RowStaysUntilWritten(rows: Rows, ops: seq<Op>, key: string)
    requires forall i | 0 <= i < |ops| && Writes(ops[i], key) :: ops[i].Import? && key in rows
    ensures var last := PlainRun(rows, ops).0;
      (key in last <==> key in rows) && (key in rows ==> last[key] == rows[key])
    decreases |ops|
  {
    hide Key;
    if ops != [] {
      var next := PlainStep(rows, ops[0]).0;
      assert (key in next <==> key in rows) && (key in rows ==> next[key] == rows[key]);
      forall i | 0 <= i < |ops[1..]| && Writes(ops[1..][i], key)
        ensures ops[1..][i].Import? && key in next
      {
        assert Writes(ops[i + 1], key);
      }
      RowStaysUntilWritten(next, ops[1..], key);
    }
  }

  /** What was stored is found, under its key, after any calls that do not write that key,
      imports of it included; an archived session is absent, and so is a deleted one, even
      when the cache had it. */
  lemma SetThenGet(s: Store, state: Session, ops: seq<Op>)
    requires Coherent(s)
    requires forall i | 0 <= i < |ops| && Writes(ops[i], KeyOf(state)) :: ops[i].Import?
    ensures var later := Run(Step(s, Set(state, true)).0, ops).0;
      var kind := if state.kind == Some(Refinement) then Refinement else Implementation;
      Step(later, Get(Key(state.owner, state.repo, state.issue, kind))).1 ==
        if state.archivedAt.Some? && state.archivedAt.value != "" then Absent
        else Found(state.(kind := Some(kind)))
  {
    hide Key, KeyOf, Step, Run, PlainRun, Coherent, Writes;
    var key, after := KeyOf(state), Step(s, Set(state, true)).0;
    StepRefines(s, Set(state, true));
    assert key in after.rows && after.rows[key] == RowOf(state);
    NormalizedKind(state);
    CacheIsInvisible(after, ops);
    RowStaysUntilWritten(after.rows, ops, key);
    StepRefines(Run(after, ops).0, Get(key));
  }

  lemma NormalizedKind(state: Session)
    ensures Normalized(Normalized(state)) == Normalized(state)
    ensures var kind := if state.kind == Some(Refinement) then Refinement else Implementation;
      Normalized(state) == state.(kind := Some(kind)) && KeyOf(state) == Key(state.owner, state.repo, state.issue, kind)
  {
    if state.kind.Some? {
      assert state.kind.value.Refinement? || state.kind.value.Implementation?;
    }
  }

  lemma DeleteThenGet(s: Store, key: string, ops: seq<Op>)
    requires Coherent(s)
    requires forall i | 0 <= i < |ops| :: !Writes(ops[i], key)
    ensures var later := Run(Step(s, Delete(key, true)).0, ops).0;
      Step(later, Get(key)).1 == Absent && Step(later, Exists(key)).1 == Flag(false)
  {
    hide Key, KeyOf, Step, Run, PlainRun, Coherent, Writes;
    var after := Step(s, Delete(key, true)).0;
    StepRefines(s, Delete(key, true));
    CacheIsInvisible(after, ops);
    RowStaysUntilWritten(after.rows, ops, key);
    StepRefines(Run(after, ops).0, Get(key));
    StepRefines(Run(after, ops).0, Exists(key));
  }

  // --------------------------------------------------------------------- keys

  predicate EndsInADash(stem: string) {
    stem != "" && stem[|stem| - 1] == '-'
  }

  function DigitTail(s: string): nat {
    if s == "" || !IsDigit(s[|s| - 1]) then 0 else 1 + DigitTail(s[..|s| - 1])
  }

  lemma {:induction false} DigitTailIs(stem: string, digits: string)
    requires EndsInADash(stem) && forall i | 0 <= i < |digits| :: IsDigit(digits[i])
    ensures DigitTail(stem + digits) == |digits|
  {
    var s := stem + digits;
    if digits == "" {
      assert s == stem;
    } else {
      DigitTailIs(stem, digits[..|digits| - 1]);
      assert s[..|s| - 1] == stem + digits[..|digits| - 1];
    }
  }

  lemma SameSplit(a: string, b: string, c: string, d: string)
    requires a + b == c + d && |b| == |d|
    ensures a == c && b == d
  {
    assert (a + b)[..|a|] == a && (c + d)[..|c|] == c;
    assert (a + b)[|a|..] == b && (c + d)[|c|..] == d;
  }

  /** A number at the end of a text can be read off it. */
  lemma TrailingNumber(stem: string, n: nat, stem': string, n': nat)
    requires EndsInADash(stem) && EndsInADash(stem') && stem + Decimal(n) == stem' + Decimal(n')
    ensures stem == stem' && n == n'
  {
    DigitTailIs(stem, Decimal(n));
    DigitTailIs(stem', Decimal(n'));
    SameSplit(stem, Decimal(n), stem', Decimal(n'));
    ValueOfDecimal(n);
    ValueOfDecimal(n');
  }

  predicate IsStem(stem: string) {
    |stem| > 1 && stem[|stem| - 1] == '-' && stem[|stem| - 2] != '-'
  }

  function Signed(stem: string, i: int): string {
    if i < 0 then stem + "-" else stem
  }

  lemma SignedIs(stem: string, i: int)
    requires IsStem(stem)
    ensures EndsInADash(Signed(stem, i)) && stem + IntText(i) == Signed(stem, i) + Decimal(if i < 0 then -i else i)
    ensures |Signed(stem, i)| > 1 && (Signed(stem, i)[|Signed(stem, i)| - 2] == '-' <==> i < 0)
    ensures Signed(stem, i)[..|stem|] == stem
  {
    hide Decimal;
  }

  lemma NumberedStem(stem: string, i: int, stem': string, i': int)
    requires IsStem(stem) && IsStem(stem') && stem + IntText(i) == stem' + IntText(i')
    ensures stem == stem' && i == i'
  {
    hide Decimal, IntText, Signed;
    SignedIs(stem, i);
    SignedIs(stem', i');
    TrailingNumber(Signed(stem, i), if i < 0 then -i else i, Signed(stem', i'), if i' < 0 then -i' else i');
    assert i < 0 <==> i' < 0;
    SignedLength(stem, i);
    SignedLength(stem', i');
  }

  lemma SignedLength(stem: string, i: int)
    ensures |Signed(stem, i)| == |stem| + if i < 0 then 1 else 0
  {
  }

  lemma KindMark(kind: Kind)
    ensures var name := KindName(kind);
      |name| == (if kind.Implementation? then 14 else 10) && name[|name| - 10] == if kind.Implementation? then 'e' else 'r'
  {
  }

  lemma KindEndsTheKey(stem: string, kind: Kind, stem': string, kind': Kind)
    requires stem + KindName(kind) == stem' + KindName(kind')
    ensures kind == kind' && stem == stem'
  {
    hide KindName;
    KindMark(kind);
    KindMark(kind');
    var s := stem + KindName(kind);
    assert s[|s| - 10] == KindName(kind)[|KindName(kind)| - 10];
    assert s[|s| - 10] == KindName(kind')[|KindName(kind')| - 10];
    SameSplit(stem, KindName(kind), stem', KindName(kind'));
  }

  /** Two sessions share a key exactly when they have the same issue number and kind, and the
      same owner and repository once joined by a dash. */
  lemma KeysMeetExactly(owner: string, repo: string, issue: int, kind: Kind, owner': string, repo': string, issue': int, kind': Kind)
    ensures Key(owner, repo, issue, kind) == Key(owner', repo', issue', kind')
      <==> owner + "-" + repo == owner' + "-" + repo' && issue == issue' && kind == kind'
  {
    hide IntText, KindName;
    var start, mid := "github-", "-issue-";
    var name, name' := owner + "-" + repo, owner' + "-" + repo';
    var stem, stem' := start + name + mid, start + name' + mid;
    assert Key(owner, repo, issue, kind) == (stem + IntText(issue) + "-") + KindName(kind);
    assert Key(owner', repo', issue', kind') == (stem' + IntText(issue') + "-") + KindName(kind');
    if Key(owner, repo, issue, kind) == Key(owner', repo', issue', kind') {
      KindEndsTheKey(stem + IntText(issue) + "-", kind, stem' + IntText(issue') + "-", kind');
      var t := stem + IntText(issue) + "-";
      assert t[..|t| - 1] == stem + IntText(issue) == stem' + IntText(issue');
      assert stem[|stem| - 2] == 'e' && stem'[|stem'| - 2] == 'e';
      NumberedStem(stem, issue, stem', issue');
      assert stem[7..|stem| - 7] == name && stem'[7..|stem'| - 7] == name';
    }
  }

  /** Two repositories whose sessions share their keys. */
  lemma RepositoriesMayShareKeys(issue: int, kind: Kind)
    ensures Key("a-b", "c", issue, kind) == Key("a", "b-c", issue, kind)
  {
    KeysMeetExactly("a-b", "c", issue, kind, "a", "b-c", issue, kind);
    assert "a-b" + "-" + "c" == "a" + "-" + "b-c";
  }

  /** `get` and `getAll` agree on a key exactly when its row's archive time is not the
      empty string, which `get` takes for "not archived" and the listing does not. */
  lemma ListedWhenFound(s: Store, key: string)
    requires Coherent(s)
    ensures var got := Step(s, Get(key)).1; var listed := Step(s, GetAll).1.states;
      && (key in listed ==> got == Found(listed[key]))
      && ((got.Found? <==> key in listed) <==> !(key in s.rows && s.rows[key].archivedAt == Some("") && s.rows[key].json.Some?))
  {
  }

  /** A session that `get` finds and `getAll` leaves out. */
  lemma EmptyArchiveTimeIsUnlisted(state: Session)
    requires state.archivedAt == Some("")
    ensures var after := Step(Store(map[], map[]), Set(state, true)).0;
      && Step(after, Get(KeyOf(state))).1 == Found(Normalized(state))
      && Step(after, GetAll).1 == Listed(map[])
  {
    var after := Step(Store(map[], map[]), Set(state, true)).0;
    assert Active(after.rows) == map[];
  }

  class Sessions {
    var rows: Rows
    var cache: Cache

    constructor (rows: Rows)
      ensures Coherent(Contents()) && Contents() == Store(rows, map[])
    {
      this.rows, cache := rows, map[];
    }

    function Contents(): Store
      reads this
    {
      Store(rows, cache)
    }

    method GetSession(owner: string, repo: string, issue: int, kind: Kind) returns (state: Option<Session>)
      modifies this`cache
      ensures Step(old(Contents()), Get(Key(owner, repo, issue, kind))) ==
        (Contents(), if state.Some? then Found(state.value) else Absent)
    {
      hide Key;
      var key := Key(owner, repo, issue, kind);
      if key in cache && !cache[key].archived {
        return Some(cache[key].state);
      }
      if key !in rows || Truthy(rows[key].archivedAt) {
        return None;
      }
      if rows[key].json.None? {
        return None;
      }
      state := Some(Normalized(rows[key].json.value));
      cache := cache[key := Entry(state.value, false)];
    }

    method SetSession(state: Session, ok: bool) returns (stored: Outcome<Session>)
      modifies this
      ensures Step(old(Contents()), Set(state, ok)) == (Contents(), if stored.Returned? then Found(stored.value) else Rejected)
    {
      hide Key;
      var normalized := Normalized(state);
      var key := Key(normalized.owner, normalized.repo, normalized.issue, normalized.kind.value);
      if !ok {
        return Threw;
      }
      rows := rows[key := Row(Some(normalized), normalized.archivedAt)];
      cache := cache[key := Entry(normalized, Truthy(normalized.archivedAt))];
      return Returned(normalized);
    }

    method SessionExists(owner: string, repo: string, issue: int, kind: Kind) returns (found: bool)
      ensures Step(Contents(), Exists(Key(owner, repo, issue, kind))) == (Contents(), Flag(found))
    {
      hide Key;
      var key := Key(owner, repo, issue, kind);
      if key in cache && !cache[key].archived {
        return true;
      }
      return key in rows && !Truthy(rows[key].archivedAt);
    }

    method DeleteSession(owner: string, repo: string, issue: int, kind: Kind, ok: bool) returns (deleted: Outcome<()>)
      modifies this
      ensures Step(old(Contents()), Delete(Key(owner, repo, issue, kind), ok)) ==
        (Contents(), if deleted.Returned? then Done else Rejected)
    {
      hide Key;
      var key := Key(owner, repo, issue, kind);
      cache := cache - {key};
      if !ok {
        return Threw;
      }
      rows := rows - {key};
      return Returned(());
    }

    method ArchiveSession(state: Session, ok: bool) returns (archived: Outcome<()>)
      modifies this
      ensures Step(old(Contents()), Archive(state, ok)) == (Contents(), if archived.Returned? then Done else Rejected)
    {
      hide Key;
      if !ok {
        return Threw;
      }
      var key := KeyOf(state);
      rows := rows - {key};
      cache := cache - {key};
      return Returned(());
    }
  }
}
