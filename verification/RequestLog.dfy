// Durable request logging: a Redis stream with a consumer group, workers that
// may crash anywhere, and an idempotent insert.
module RequestLog {
  import opened StreamTypes

  // ----- entries and rows -----

  /** A JSON value of a log payload. */
  datatype Value = Number(n: int) | Text(s: string) | Flag(b: bool) | Null

  /** A stream entry's payload: None if it is missing or not a JSON object. */
  type Payload = Option<map<string, Value>>

  /** A row of request_logs. Text columns keep the value they print. */
  datatype Row = Row(eventId: Option<nat>, model: Value, status: int, keyPrefix: Value, rotated: bool, latency: int,
                     input: int, output: int, cached: int, provider: Value)

  function AsInt(v: Value): Option<int> {
    match v
    case Number(n) => Some(n)
    case Flag(b) => Some(if b then 1 else 0)
    case _ => None
  }

  predicate Truthy(v: Value) {
    match v
    case Number(n) => n != 0
    case Text(s) => s != ""
    case Flag(b) => b
    case Null => false
  }

  /** `int(payload.get(key, 0))` */
  function CountOf(m: map<string, Value>, key: string): Option<int> {
    if key in m then AsInt(m[key]) else Some(0)
  }

  /** The row of one entry; None for a malformed payload. */
  function RowOf(id: nat, p: Payload): Option<Row> {
    if p.None? then None else
      var m := p.value;
      if !({"model", "status_code", "key_prefix", "rotated", "latency_ms"} <= m.Keys) then None else
        var status, latency := AsInt(m["status_code"]), AsInt(m["latency_ms"]);
        var input, output, cached := CountOf(m, "input_tokens"), CountOf(m, "output_tokens"), CountOf(m, "cached_tokens");
        if status.None? || latency.None? || input.None? || output.None? || cached.None? then None else
          Some(Row(Some(id), m["model"], status.value, m["key_prefix"], Truthy(m["rotated"]), latency.value,
                   input.value, output.value, cached.value,
                   if "provider" in m && Truthy(m["provider"]) then m["provider"] else Value.Text("")))
  }

  /** `v` as `int()` reads it: a number, or a truth value as 1 or 0. */
  predicate Reads(v: Value, n: int) {
    v == Number(n) || (v == Flag(true) && n == 1) || (v == Flag(false) && n == 0)
  }

  predicate IntColumn(m: map<string, Value>, key: string, n: int) {
    if key in m then Reads(m[key], n) else n == 0
  }

  predicate Falsy(v: Value) {
    v in {Number(0), Value.Text(""), Flag(false), Null}
  }

  /** Column by column, what the row of an entry holds. */
  predicate IsRowOf(id: nat, m: map<string, Value>, r: Row) {
    && r.eventId == Some(id)
    && "model" in m && r.model == m["model"]
    && "status_code" in m && Reads(m["status_code"], r.status)
    && "key_prefix" in m && r.keyPrefix == m["key_prefix"]
    && "rotated" in m && r.rotated == !Falsy(m["rotated"])
    && "latency_ms" in m && Reads(m["latency_ms"], r.latency)
    && IntColumn(m, "input_tokens", r.input)
    && IntColumn(m, "output_tokens", r.output)
    && IntColumn(m, "cached_tokens", r.cached)
    && r.provider == if "provider" in m && !Falsy(m["provider"]) then m["provider"] else Value.Text("")
  }

  /** Every column comes from the payload key of its name; malformed payloads have no row. */
  lemma RowExactly(id: nat, p: Payload, r: Row)
    ensures RowOf(id, p) == Some(r) <==> p.Some? && IsRowOf(id, p.value, r)
  {
  }

  /** The payload the proxy enqueues for a request. */
  function PayloadOf(r: Row): Payload {
    Some(map["model" := r.model, "status_code" := Number(r.status), "key_prefix" := r.keyPrefix,
             "rotated" := Flag(r.rotated), "latency_ms" := Number(r.latency), "input_tokens" := Number(r.input),
             "output_tokens" := Number(r.output), "cached_tokens" := Number(r.cached), "provider" := r.provider])
  }

  /** What was enqueued for a request is the row it becomes. */
  lemma RowComesBack(id: nat, r: Row)
    requires r.eventId == Some(id) && r.provider.Text?
    ensures RowOf(id, PayloadOf(r)) == Some(r)
  {
  }

  /** Rows of a batch, malformed entries left out. */
  function RowsOf(stream: seq<Payload>, ids: seq<nat>): seq<Row>
    requires forall k | 0 <= k < |ids| :: ids[k] < |stream|
  {
    if ids == [] then []
    else
      var r := RowOf(ids[0], stream[ids[0]]);
      (if r.Some? then [r.value] else []) + RowsOf(stream, ids[1..])
  }

  predicate HasRow(table: seq<Row>, id: nat) {
    exists k | 0 <= k < |table| :: table[k].eventId == Some(id)
  }

  /** INSERT … ON CONFLICT (event_id) DO NOTHING; a null event id never conflicts. */
  function Insert(table: seq<Row>, row: Row): seq<Row> {
    if row.eventId.Some? && HasRow(table, row.eventId.value) then table else table + [row]
  }

  function InsertAll(table: seq<Row>, rows: seq<Row>): seq<Row>
    decreases |rows|
  {
    if rows == [] then table else InsertAll(Insert(table, rows[0]), rows[1..])
  }

  // ----- shared state -----

  /**
   * `stream` is everything ever enqueued (an entry's id is its position);
   * ids below `floor` were trimmed away by MAXLEN; ids below `cursor` were
   * delivered to the group; `pending` maps delivered, unacknowledged ids to
   * their consumer. `direct` is the history of rows written without the
   * stream when Redis was down.
   */
  datatype Store = Store(stream: seq<Payload>, floor: nat, cursor: nat, pending: map<nat, string>, acked: set<nat>,
                         table: seq<Row>, direct: seq<Row>)

  const EMPTY: Store := Store([], 0, 0, map[], {}, [], [])

  function Enqueued(s: Store, p: Payload): Store {
    s.(stream := s.stream + [p])
  }

  /** Ids `from` to `to`, those still in the stream. */
  function Alive(from: nat, to: nat, floor: nat): seq<nat>
    decreases if from <= to then to - from else 0
  {
    if from >= to then [] else (if from >= floor then [from] else []) + Alive(from + 1, to, floor)
  }

  function Own(pending: map<nat, string>, ids: seq<nat>, consumer: string): map<nat, string> {
    map id | id in pending.Keys + (set k | 0 <= k < |ids| :: ids[k]) ::
      if id in ids then consumer else pending[id]
  }

  /** XREADGROUP: everything new up to `to`. */
  function Delivered(s: Store, consumer: string, to: nat): Store {
    s.(cursor := to, pending := Own(s.pending, Alive(s.cursor, to, s.floor), consumer))
  }

  function Below(floor: nat, ids: seq<nat>): set<nat> {
    set k | 0 <= k < |ids| && ids[k] < floor :: ids[k]
  }

  function Surviving(floor: nat, ids: seq<nat>): seq<nat> {
    if ids == [] then [] else (if ids[0] >= floor then [ids[0]] else []) + Surviving(floor, ids[1..])
  }

  /** XAUTOCLAIM of pending ids; trimmed ones leave the pending list for good. */
  function Claimed(s: Store, consumer: string, ids: seq<nat>): Store {
    s.(pending := Own(s.pending - Below(s.floor, ids), Surviving(s.floor, ids), consumer))
  }

  /** The batch insert; without a connection pool it returns silently. */
  function Persisted(s: Store, pool: bool, rows: seq<Row>): Store {
    if pool then s.(table := InsertAll(s.table, rows)) else s
  }

  function IdSet(ids: seq<nat>): set<nat> {
    set k | 0 <= k < |ids| :: ids[k]
  }

  /** XACK: ids that are pending become acknowledged. */
  function Acknowledged(s: Store, ids: seq<nat>): Store {
    s.(pending := s.pending - IdSet(ids), acked := s.acked + IdSet(ids) * s.pending.Keys)
  }

  // ----- the operations, as they change Redis and Postgres -----

  /** `_decode`: rows to write and ids to acknowledge. */
  method Decode(stream: seq<Payload>, entries: seq<nat>) returns (rows: seq<Row>, entryIds: seq<nat>)
    requires forall k | 0 <= k < |entries| :: entries[k] < |stream|
    ensures rows == RowsOf(stream, entries) && entryIds == entries
  {
    hide RowOf;
    rows, entryIds := [], [];
    for k := 0 to |entries|
      invariant entryIds == entries[..k]
      invariant RowsOf(stream, entries) == rows + RowsOf(stream, entries[k..])
    {
      var id := entries[k];
      var row := RowOf(id, stream[id]);
      assert entries[k..][0] == id && entries[k..][1..] == entries[k + 1..];
      Assoc(rows, if row.Some? then [row.value] else [], RowsOf(stream, entries[k + 1..]));
      if row.None? {
        assert rows + [] == rows;
        entryIds := entryIds + [id];
        continue;
      }
      rows := rows + [row.value];
      entryIds := entryIds + [id];
    }
    assert entries[|entries|..] == [];
  }

  class LogStore {
    const pool: bool
    var stream: seq<Payload>
    var floor: nat
    var cursor: nat
    var pending: map<nat, string>
    var acked: set<nat>
    var table: seq<Row>
    ghost var direct: seq<Row>

    ghost function State(): Store
      reads this
    {
      Store(stream, floor, cursor, pending, acked, table, direct)
    }

    constructor (hasPool: bool)
      ensures pool == hasPool && State() == EMPTY
    {
      pool := hasPool;
      stream, floor, cursor, pending, acked, table, direct := [], 0, 0, map[], {}, [], [];
    }

    method Enqueue(p: Payload)
      modifies this`stream
      ensures State() == Enqueued(old(State()), p)
    {
      stream := stream + [p];
    }

    /** At most `count` new entries. */
    method ReadBatch(consumer: string, count: nat) returns (ids: seq<nat>)
      requires cursor <= |stream|
      modifies this`cursor, this`pending
      ensures old(cursor) <= cursor <= |stream| && State() == Delivered(old(State()), consumer, cursor)
      ensures ids == Alive(old(cursor), cursor, floor) && |ids| <= count
    {
      ids := [];
      var from := cursor;
      while cursor < |stream| && |ids| < count
        invariant from <= cursor <= |stream| && |ids| <= count
        invariant ids == Alive(from, cursor, floor)
        invariant pending == old(pending)
      {
        AliveSnoc(from, cursor, floor);
        if cursor >= floor { ids := ids + [cursor]; }
        cursor := cursor + 1;
      }
      pending := Own(pending, ids, consumer);
    }

    method ClaimStale(consumer: string, stale: seq<nat>) returns (ids: seq<nat>)
      modifies this`pending
      ensures State() == Claimed(old(State()), consumer, stale) && ids == Surviving(floor, stale)
    {
      ids := Surviving(floor, stale);
      pending := Own(pending - Below(floor, stale), ids, consumer);
    }

    method PersistBatch(rows: seq<Row>)
      modifies this`table
      ensures State() == Persisted(old(State()), pool, rows)
    {
      if !pool { return; }
      assert rows[0..] == rows;
      for k := 0 to |rows|
        invariant InsertAll(table, rows[k..]) == InsertAll(old(table), rows)
      {
        assert rows[k..][0] == rows[k] && rows[k..][1..] == rows[k + 1..];
        var row := rows[k];
        if !(row.eventId.Some? && HasRow(table, row.eventId.value)) {
          table := table + [row];
        }
      }
      assert rows[|rows|..] == [];
    }

    method Acknowledge(ids: seq<nat>)
      modifies this`pending, this`acked
      ensures State() == Acknowledged(old(State()), ids)
    {
      acked := acked + IdSet(ids) * pending.Keys;
      pending := pending - IdSet(ids);
    }

    /** One undisturbed pass of the worker loop over a batch already read. */
    method Handle(entries: seq<nat>)
      requires forall k | 0 <= k < |entries| :: entries[k] < |stream|
      modifies this
      ensures State() == Acknowledged(Persisted(old(State()), pool, RowsOf(old(stream), entries)), entries)
    {
      hide RowsOf, InsertAll;
      var rows, entryIds := Decode(stream, entries);
      NothingInserted(table);
      if rows != [] {
        PersistBatch(rows);
      }
      Acknowledge(entryIds);
    }
  }

  lemma NothingInserted(table: seq<Row>)
    ensures InsertAll(table, []) == table
  {
  }

  lemma {:induction false} AliveSnoc(from: nat, to: nat, floor: nat)
    requires from <= to
    ensures Alive(from, to + 1, floor) == Alive(from, to, floor) + (if to >= floor then [to] else [])
    decreases if from <= to then to - from else 0
  {
    if from < to {
      AliveSnoc(from + 1, to, floor);
      Assoc(if from >= floor then [from] else [], Alive(from + 1, to, floor), if to >= floor then [to] else []);
    }
  }

  // ----- any number of workers, in any order -----

  /** What a worker is holding: nothing, a batch to persist, or one to acknowledge. */
  datatype Hold = Holding(ids: seq<nat>) | Stored(ids: seq<nat>)

  datatype System = System(store: Store, workers: map<string, Hold>)

  datatype Action =
    | Enqueue(p: Payload)
    | WriteDirect(row: Row)                     // Redis down: straight to Postgres, no event id
    | Read(worker: string, to: nat)
    | Claim(worker: string, ids: seq<nat>)
    | Persist(worker: string)
    | PersistPart(worker: string, k: nat)       // the insert fails after k rows
    | Acknowledge(worker: string)
    | Crash(worker: string)
    | Trim(k: nat)

  predicate Idle(s: System, w: string) {
    w !in s.workers
  }

  predicate Enabled(s: System, e: Action) {
    match e
    case Enqueue(_) => true
    case WriteDirect(row) => row.eventId == None
    case Read(w, to) => Idle(s, w) && s.store.cursor <= to <= |s.store.stream|
    case Claim(w, ids) => Idle(s, w) && forall k | 0 <= k < |ids| :: ids[k] in s.store.pending
    case Persist(w) => w in s.workers && s.workers[w].Holding?
    case PersistPart(w, k) => w in s.workers && s.workers[w].Holding?
    case Acknowledge(w) => w in s.workers && s.workers[w].Stored?
    case Crash(w) => w in s.workers
    case Trim(k) => s.store.floor <= k <= |s.store.stream|
  }

  /** Ids a worker holds are ids of the stream; total only to make rows well-defined. */
  function SafeRows(stream: seq<Payload>, ids: seq<nat>): seq<Row> {
    if forall k | 0 <= k < |ids| :: ids[k] < |stream| then RowsOf(stream, ids) else []
  }

  function Next(pool: bool, s: System, e: Action): System
    requires Enabled(s, e)
  {
    var st := s.store;
    match e
    case Enqueue(p) => s.(store := Enqueued(st, p))
    case WriteDirect(row) => s.(store := if pool then st.(table := Insert(st.table, row), direct := st.direct + [row]) else st)
    case Read(w, to) => System(Delivered(st, w, to), s.workers[w := Holding(Alive(st.cursor, to, st.floor))])
    case Claim(w, ids) => System(Claimed(st, w, ids), s.workers[w := Holding(Surviving(st.floor, ids))])
    case Persist(w) =>
      var ids := s.workers[w].ids;
      System(Persisted(st, pool, SafeRows(st.stream, ids)), s.workers[w := Stored(ids)])
    case PersistPart(w, k) =>
      var rows := SafeRows(st.stream, s.workers[w].ids);
      System(Persisted(st, pool, if k <= |rows| then rows[..k] else rows), s.workers - {w})
    case Acknowledge(w) => System(Acknowledged(st, s.workers[w].ids), s.workers - {w})
    case Crash(w) => s.(workers := s.workers - {w})
    case Trim(k) => s.(store := st.(floor := k))
  }

  /** The state after a run; None if some event was not enabled. */
  function After(pool: bool, run: seq<Action>): Option<System>
    decreases |run|
  {
    if run == [] then Some(System(EMPTY, map[]))
    else
      var before := After(pool, run[..|run| - 1]);
      var e := run[|run| - 1];
      if before.Some? && Enabled(before.value, e) then Some(Next(pool, before.value, e)) else None
  }

  // ----- invariants -----

  predicate WellFormed(s: Store, id: nat) {
    id < |s.stream| && RowOf(id, s.stream[id]).Some?
  }

  /** Every streamed row is the decoding of its entry, and no entry has two. */
  ghost predicate RowsSound(stream: seq<Payload>, table: seq<Row>) {
    && (forall k | 0 <= k < |table| && table[k].eventId.Some? ::
          table[k].eventId.value < |stream| && RowOf(table[k].eventId.value, stream[table[k].eventId.value]) == Some(table[k]))
    && (forall j, k | 0 <= j < k < |table| && table[j].eventId.Some? :: table[j].eventId != table[k].eventId)
  }

  /** All well-formed ids among `ids` have their row. */
  ghost predicate Written(s: Store, ids: set<nat>) {
    forall id | id in ids && WellFormed(s, id) :: HasRow(s.table, id)
  }

  ghost predicate Accounted(s: Store) {
    && s.floor <= |s.stream| && s.cursor <= |s.stream|
    && (forall id: nat | id < s.cursor :: id in s.pending || id in s.acked || id < s.floor)
    && (forall id | id in s.pending :: id < s.cursor && id !in s.acked)
    && (forall id | id in s.acked :: id < s.cursor)
  }

  ghost predicate WorkersSound(pool: bool, s: System) {
    forall w | w in s.workers ::
      && (forall k | 0 <= k < |s.workers[w].ids| :: s.workers[w].ids[k] < s.store.cursor)
      && (pool && s.workers[w].Stored? ==> Written(s.store, IdSet(s.workers[w].ids)))
  }

  ghost predicate Inv(pool: bool, s: System) {
    && Accounted(s.store)
    && RowsSound(s.store.stream, s.store.table)
    && (pool ==> Written(s.store, s.store.acked))
    && WorkersSound(pool, s)
    && Totals(Direct(s.store.table)) == Totals(s.store.direct)
  }

  // ----- totals -----

  /** get_lifetime_stats: requests, tokens, rotations. */
  datatype Stats = Stats(requests: nat, tokens: int, rotations: nat)

  function Plus(a: Stats, b: Stats): Stats {
    Stats(a.requests + b.requests, a.tokens + b.tokens, a.rotations + b.rotations)
  }

  function StatsOf(r: Row): Stats {
    Stats(1, r.input + r.output, if r.rotated then 1 else 0)
  }

  function Totals(rows: seq<Row>): Stats
    decreases |rows|
  {
    if rows == [] then Stats(0, 0, 0) else Plus(Totals(rows[..|rows| - 1]), StatsOf(rows[|rows| - 1]))
  }

  /** Rows that did not come through the stream. */
  function Direct(rows: seq<Row>): seq<Row>
    decreases |rows|
  {
    if rows == [] then []
    else
      var r := rows[|rows| - 1];
      Direct(rows[..|rows| - 1]) + (if r.eventId.None? then [r] else [])
  }

  /** What all well-formed entries together should add up to. */
  function Expected(stream: seq<Payload>): Stats
    decreases |stream|
  {
    if stream == [] then Stats(0, 0, 0)
    else
      var n := |stream| - 1;
      var r := RowOf(n, stream[n]);
      if r.Some? then Plus(Expected(stream[..n]), StatsOf(r.value)) else Expected(stream[..n])
  }

  /** Totals are the number of rows, the sum of both token columns and the number of rotated rows. */
  lemma TotalsCountEach(rows: seq<Row>, row: Row)
    ensures Totals([]) == Stats(0, 0, 0)
    ensures var before, after := Totals(rows), Totals(rows + [row]);
            && after.requests == before.requests + 1
            && after.tokens == before.tokens + row.input + row.output
            && after.rotations == if row.rotated then before.rotations + 1 else before.rotations
  {
    assert (rows + [row])[..|rows|] == rows;
  }

  // ----- who holds what -----

  /** Reading gives every new entry that is still there to the reader and leaves the others with their owners. */
  lemma DeliveredTo(s: Store, consumer: string, end: nat, id: nat)
    requires s.cursor <= end
    ensures var after := Delivered(s, consumer, end);
            var isNew := s.cursor <= id < end && id >= s.floor;
            && after.cursor == end
            && (id in after.pending <==> isNew || id in s.pending)
            && (isNew ==> after.pending[id] == consumer)
            && (!isNew && id in s.pending ==> after.pending[id] == s.pending[id])
  {
    AliveExactly(s.cursor, end, s.floor, id);
  }

  lemma {:induction false} AliveExactly(from: nat, end: nat, floor: nat, id: nat)
    requires from <= end
    ensures id in Alive(from, end, floor) <==> from <= id < end && id >= floor
    decreases end - from
  {
    if from < end { AliveExactly(from + 1, end, floor, id); }
  }

  /** A claim moves the claimed entries that are still there to the claimant, drops the trimmed ones and leaves the others. */
  lemma ClaimedBy(s: Store, consumer: string, ids: seq<nat>, id: nat)
    requires forall k | 0 <= k < |ids| :: ids[k] in s.pending
    ensures var after := Claimed(s, consumer, ids);
            && (id in after.pending <==> id in s.pending && (id in ids ==> id >= s.floor))
            && (id in ids && id >= s.floor ==> after.pending[id] == consumer)
            && (id !in ids && id in s.pending ==> after.pending[id] == s.pending[id])
  {
    SurvivingExactly(s.floor, ids, id);
  }

  lemma {:induction false} SurvivingExactly(floor: nat, ids: seq<nat>, id: nat)
    ensures id in Surviving(floor, ids) <==> id in ids && id >= floor
  {
    if ids != [] { SurvivingExactly(floor, ids[1..], id); }
  }

  /** Without Redis a request's row is written directly, without an entry id, if there is a pool. */
  lemma DirectWritten(pool: bool, s: System, row: Row)
    requires row.eventId == None
    ensures Enabled(s, WriteDirect(row))
    ensures var after := Next(pool, s, WriteDirect(row));
            after == if pool then s.(store := s.store.(table := s.store.table + [row], direct := s.store.direct + [row])) else s
  {
  }

  /** A worker may stop in the middle of its insert, whatever the number of rows written by then. */
  lemma InsertInterrupted(pool: bool, s: System, w: string, k: nat)
    requires w in s.workers && s.workers[w].Holding? && k <= |SafeRows(s.store.stream, s.workers[w].ids)|
    ensures Enabled(s, PersistPart(w, k))
    ensures var after := Next(pool, s, PersistPart(w, k));
            && w !in after.workers
            && after.store == s.store.(table := if pool then InsertAll(s.store.table, SafeRows(s.store.stream, s.workers[w].ids)[..k]) else s.store.table)
  {
  }

  // ----- the insert -----

  lemma HasRowAppend(table: seq<Row>, row: Row, id: nat)
    ensures HasRow(table + [row], id) == (HasRow(table, id) || row.eventId == Some(id))
  {
    var t := table + [row];
    if HasRow(table, id) {
      var k :| 0 <= k < |table| && table[k].eventId == Some(id);
      assert t[k].eventId == Some(id);
    }
    if row.eventId == Some(id) { assert t[|table|].eventId == Some(id); }
  }

  lemma InsertKeeps(stream: seq<Payload>, table: seq<Row>, row: Row)
    requires RowsSound(stream, table)
    requires row.eventId.Some? ==>
               row.eventId.value < |stream| && RowOf(row.eventId.value, stream[row.eventId.value]) == Some(row)
    ensures RowsSound(stream, Insert(table, row))
    ensures row.eventId.Some? ==> HasRow(Insert(table, row), row.eventId.value)
    ensures forall id | HasRow(table, id) :: HasRow(Insert(table, row), id)
    ensures row.eventId.Some? ==> Direct(Insert(table, row)) == Direct(table)
  {
    hide RowOf;
    forall id | HasRow(table, id) ensures HasRow(table + [row], id) {
      HasRowAppend(table, row, id);
    }
    if row.eventId.Some? { HasRowAppend(table, row, row.eventId.value); }
    DirectAppend(table, row);
    assert Direct(table) + [] == Direct(table);
  }

  lemma DirectAppend(table: seq<Row>, row: Row)
    ensures Direct(table + [row]) == Direct(table) + (if row.eventId.None? then [row] else [])
    ensures Totals(table + [row]) == Plus(Totals(table), StatsOf(row))
  {
    assert (table + [row])[..|table|] == table;
  }

  /** Rows that are decodings of entries of the stream. */
  ghost predicate FromStream(stream: seq<Payload>, rows: seq<Row>) {
    forall k | 0 <= k < |rows| :: rows[k].eventId.Some? && rows[k].eventId.value < |stream|
      && RowOf(rows[k].eventId.value, stream[rows[k].eventId.value]) == Some(rows[k])
  }

  lemma {:induction false} InsertAllKeeps(stream: seq<Payload>, table: seq<Row>, rows: seq<Row>)
    requires RowsSound(stream, table) && FromStream(stream, rows)
    ensures var t := InsertAll(table, rows);
            && RowsSound(stream, t)
            && (forall k | 0 <= k < |rows| :: HasRow(t, rows[k].eventId.value))
            && (forall id | HasRow(table, id) :: HasRow(t, id))
            && Direct(t) == Direct(table)
    decreases |rows|
  {
    hide RowOf, Insert, RowsSound, HasRow;
    if rows != [] {
      InsertKeeps(stream, table, rows[0]);
      assert forall k | 0 <= k < |rows[1..]| :: rows[1..][k] == rows[k + 1];
      InsertAllKeeps(stream, Insert(table, rows[0]), rows[1..]);
      forall k | 0 <= k < |rows| ensures HasRow(InsertAll(table, rows), rows[k].eventId.value) {
        if k > 0 { assert rows[1..][k - 1] == rows[k]; }
      }
    }
  }

  lemma {:induction false} RowsDecode(stream: seq<Payload>, ids: seq<nat>)
    requires forall k | 0 <= k < |ids| :: ids[k] < |stream|
    ensures FromStream(stream, RowsOf(stream, ids))
  {
    if ids != [] {
      hide RowOf;
      RowsDecode(stream, ids[1..]);
      RowOfId(ids[0], stream[ids[0]]);
    }
  }

  lemma {:induction false} RowsPresent(stream: seq<Payload>, ids: seq<nat>)
    requires forall k | 0 <= k < |ids| :: ids[k] < |stream|
    ensures forall k | 0 <= k < |ids| && RowOf(ids[k], stream[ids[k]]).Some? :: HasRow(RowsOf(stream, ids), ids[k])
  {
    if ids != [] {
      hide RowOf, HasRow;
      var rest, r := RowsOf(stream, ids[1..]), RowOf(ids[0], stream[ids[0]]);
      assert RowsOf(stream, ids) == if r.Some? then [r.value] + rest else rest;
      hide RowsOf;
      RowsPresent(stream, ids[1..]);
      RowOfId(ids[0], stream[ids[0]]);
      forall k | 0 <= k < |ids| && RowOf(ids[k], stream[ids[k]]).Some? ensures HasRow(RowsOf(stream, ids), ids[k]) {
        if r.Some? { HasRowPrepend(r.value, rest, ids[k]); }
        assert k > 0 ==> ids[1..][k - 1] == ids[k];
      }
    }
  }

  lemma HasRowPrepend(row: Row, rest: seq<Row>, id: nat)
    ensures row.eventId == Some(id) || HasRow(rest, id) ==> HasRow([row] + rest, id)
  {
    var all := [row] + rest;
    assert all[0] == row && forall j | 0 <= j < |rest| :: all[j + 1] == rest[j];
  }

  lemma RowOfId(id: nat, p: Payload)
    ensures RowOf(id, p).Some? ==> RowOf(id, p).value.eventId == Some(id)
  {
  }

  // ----- every step keeps the invariant -----

  /** `b` comes after `a`: the stream, the cursor and the set of rows only grow. */
  ghost predicate Later(a: Store, b: Store) {
    a.stream <= b.stream && a.cursor <= b.cursor && forall id | HasRow(a.table, id) :: HasRow(b.table, id)
  }

  lemma WrittenLater(a: Store, b: Store, ids: set<nat>)
    requires Later(a, b) && Written(a, ids) && forall id | id in ids :: id < |a.stream|
    ensures Written(b, ids)
  {
    hide RowOf, HasRow;
  }

  lemma WorkersLater(pool: bool, s: System, b: Store, gone: set<string>)
    requires WorkersSound(pool, s) && Later(s.store, b) && s.store.cursor <= |s.store.stream|
    ensures WorkersSound(pool, System(b, s.workers - gone))
  {
    hide HasRow, Written, Later;
    assert s.store.cursor <= b.cursor by { LaterCursor(s.store, b); }
    forall w | w in s.workers && w !in gone
      ensures pool && s.workers[w].Stored? ==> Written(b, IdSet(s.workers[w].ids))
    {
      if pool && s.workers[w].Stored? {
        WrittenLater(s.store, b, IdSet(s.workers[w].ids));
      }
    }
  }

  lemma LaterCursor(a: Store, b: Store)
    requires Later(a, b)
    ensures a.cursor <= b.cursor
  {
  }

  lemma WorkerAdded(pool: bool, s: System, w: string, h: Hold)
    requires WorkersSound(pool, s)
    requires forall k | 0 <= k < |h.ids| :: h.ids[k] < s.store.cursor
    requires pool && h.Stored? ==> Written(s.store, IdSet(h.ids))
    ensures WorkersSound(pool, System(s.store, s.workers[w := h]))
  {
    hide Written;
  }

  lemma RowsSoundGrow(stream: seq<Payload>, more: seq<Payload>, table: seq<Row>)
    requires RowsSound(stream, table)
    ensures RowsSound(stream + more, table)
  {
    hide RowOf;
  }

  lemma EnqueueKeeps(pool: bool, s: System, p: Payload)
    requires Inv(pool, s)
    ensures Inv(pool, s.(store := Enqueued(s.store, p)))
  {
    hide RowOf, HasRow, RowsSound, WorkersSound, Written, Direct, Totals;
    var b := Enqueued(s.store, p);
    RowsSoundGrow(s.store.stream, [p], s.store.table);
    WorkersLater(pool, s, b, {});
    assert s.workers - {} == s.workers;
    if pool { WrittenLater(s.store, b, s.store.acked); }
  }

  /** Inserting rows that decode stream entries. */
  lemma PersistKeeps(pool: bool, s: System, rows: seq<Row>)
    requires Inv(pool, s) && FromStream(s.store.stream, rows)
    ensures var b := Persisted(s.store, pool, rows);
            && Inv(pool, System(b, s.workers)) && Later(s.store, b)
            && (pool ==> forall k | 0 <= k < |rows| :: HasRow(b.table, rows[k].eventId.value))
  {
    hide RowOf, HasRow, RowsSound, WorkersSound, Written, Direct, Totals, InsertAll;
    var b := Persisted(s.store, pool, rows);
    InsertAllKeeps(s.store.stream, s.store.table, rows);
    WorkersLater(pool, s, b, {});
    assert s.workers - {} == s.workers;
    if pool { WrittenLater(s.store, b, s.store.acked); }
  }

  lemma PersistWrites(s: Store, b: Store, ids: seq<nat>, rows: seq<Row>)
    requires b.stream == s.stream && forall k | 0 <= k < |ids| :: ids[k] < |s.stream|
    requires rows == RowsOf(s.stream, ids)
    requires forall k | 0 <= k < |rows| :: rows[k].eventId.Some? && HasRow(b.table, rows[k].eventId.value)
    ensures Written(b, IdSet(ids))
  {
    hide RowOf;
    RowsPresent(s.stream, ids);
    forall id | id in IdSet(ids) && WellFormed(b, id) ensures HasRow(b.table, id) {
      var k :| 0 <= k < |ids| && ids[k] == id;
      assert HasRow(rows, ids[k]);
      var j :| 0 <= j < |rows| && rows[j].eventId == Some(ids[k]);
      assert HasRow(b.table, rows[j].eventId.value);
    }
  }

  lemma HeldRows(pool: bool, s: System, w: string)
    requires Inv(pool, s) && w in s.workers
    ensures var ids := s.workers[w].ids;
            && (forall k | 0 <= k < |ids| :: ids[k] < s.store.cursor && ids[k] < |s.store.stream|)
            && SafeRows(s.store.stream, ids) == RowsOf(s.store.stream, ids)
            && FromStream(s.store.stream, RowsOf(s.store.stream, ids))
  {
    hide RowOf, HasRow, RowsSound, Written, Direct, Totals, RowsOf;
    RowsDecode(s.store.stream, s.workers[w].ids);
  }

  lemma PersistStep(pool: bool, s: System, w: string)
    requires Inv(pool, s) && Enabled(s, Persist(w))
    ensures Inv(pool, Next(pool, s, Persist(w)))
  {
    hide RowOf, HasRow, RowsSound, WorkersSound, Written, Direct, Totals, RowsOf, Persisted, SafeRows;
    var ids := s.workers[w].ids;
    HeldRows(pool, s, w);
    var rows := RowsOf(s.store.stream, ids);
    PersistKeeps(pool, s, rows);
    var b := Persisted(s.store, pool, rows);
    assert b.stream == s.store.stream && b.cursor == s.store.cursor by { PersistFrame(s.store, pool, rows); }
    if pool { PersistWrites(s.store, b, ids, rows); }
    WorkerAdded(pool, System(b, s.workers), w, Stored(ids));
  }

  lemma PersistFrame(s: Store, pool: bool, rows: seq<Row>)
    ensures Persisted(s, pool, rows) == s.(table := Persisted(s, pool, rows).table)
  {
  }

  lemma PersistPartStep(pool: bool, s: System, w: string, k: nat)
    requires Inv(pool, s) && Enabled(s, PersistPart(w, k))
    ensures Inv(pool, Next(pool, s, PersistPart(w, k)))
  {
    hide RowOf, HasRow, RowsSound, WorkersSound, Written, Direct, Totals, RowsOf, Persisted, SafeRows;
    HeldRows(pool, s, w);
    var all := RowsOf(s.store.stream, s.workers[w].ids);
    var rows := if k <= |all| then all[..k] else all;
    PersistKeeps(pool, s, rows);
    var b := Persisted(s.store, pool, rows);
    WorkersLater(pool, System(b, s.workers), b, {w});
  }

  lemma DirectStep(pool: bool, s: System, row: Row)
    requires Inv(pool, s) && row.eventId == None
    ensures Inv(pool, Next(pool, s, WriteDirect(row)))
  {
    hide RowOf, HasRow, RowsSound, WorkersSound, Written, Direct, Totals;
    if pool {
      var st := s.store;
      var b := st.(table := Insert(st.table, row), direct := st.direct + [row]);
      InsertKeeps(st.stream, st.table, row);
      DirectAppend(st.table, row);
      DirectAppend(st.direct, row);
      DirectAppend(Direct(st.table), row);
      WorkersLater(pool, s, b, {});
      assert s.workers - {} == s.workers;
      WrittenLater(st, b, st.acked);
    }
  }

  lemma {:induction false} AliveFacts(from: nat, to: nat, floor: nat)
    ensures forall id: nat :: id in Alive(from, to, floor) <==> from <= id < to && floor <= id
    decreases if from <= to then to - from else 0
  {
    if from < to { AliveFacts(from + 1, to, floor); }
  }

  lemma {:induction false} SurvivingFacts(floor: nat, ids: seq<nat>)
    ensures forall id :: id in Surviving(floor, ids) <==> id in ids && floor <= id
  {
    if ids != [] { SurvivingFacts(floor, ids[1..]); }
  }

  lemma OwnKeys(pending: map<nat, string>, ids: seq<nat>, consumer: string)
    ensures forall id :: id in Own(pending, ids, consumer) <==> id in pending || id in ids
  {
  }

  lemma DeliveredAccounted(s: Store, consumer: string, to: nat)
    requires Accounted(s) && s.cursor <= to <= |s.stream|
    ensures Accounted(Delivered(s, consumer, to))
    ensures forall k | 0 <= k < |Alive(s.cursor, to, s.floor)| :: Alive(s.cursor, to, s.floor)[k] < to
  {
    hide Own, Alive;
    AliveFacts(s.cursor, to, s.floor);
    OwnKeys(s.pending, Alive(s.cursor, to, s.floor), consumer);
    var ids := Alive(s.cursor, to, s.floor);
    forall k | 0 <= k < |ids| ensures ids[k] < to { assert ids[k] in ids; }
  }

  lemma ClaimedAccounted(s: Store, consumer: string, ids: seq<nat>)
    requires Accounted(s) && forall k | 0 <= k < |ids| :: ids[k] in s.pending
    ensures Accounted(Claimed(s, consumer, ids))
    ensures forall k | 0 <= k < |Surviving(s.floor, ids)| :: Surviving(s.floor, ids)[k] < s.cursor
  {
    hide Own, Surviving;
    SurvivingFacts(s.floor, ids);
    OwnKeys(s.pending - Below(s.floor, ids), Surviving(s.floor, ids), consumer);
    var kept := Surviving(s.floor, ids);
    forall k | 0 <= k < |kept| ensures kept[k] < s.cursor { assert kept[k] in kept; }
  }

  lemma SameTable(pool: bool, s: System, b: Store)
    requires Inv(pool, s) && Accounted(b)
    requires b.stream == s.store.stream && b.table == s.store.table && b.direct == s.store.direct
    requires b.acked == s.store.acked && s.store.cursor <= b.cursor
    ensures Inv(pool, System(b, s.workers))
  {
    hide RowOf, HasRow, RowsSound, WorkersSound, Direct, Totals, Accounted;
    AccountedCursor(s.store);
    WorkersLater(pool, s, b, {});
    assert s.workers - {} == s.workers;
  }

  lemma ReadStep(pool: bool, s: System, w: string, to: nat)
    requires Inv(pool, s) && Enabled(s, Read(w, to))
    ensures Inv(pool, Next(pool, s, Read(w, to)))
  {
    hide RowOf, HasRow, RowsSound, WorkersSound, Written, Direct, Totals, Accounted, Alive, Own;
    DeliveredAccounted(s.store, w, to);
    var b := Delivered(s.store, w, to);
    SameTable(pool, s, b);
    WorkerAdded(pool, System(b, s.workers), w, Holding(Alive(s.store.cursor, to, s.store.floor)));
  }

  lemma ClaimStep(pool: bool, s: System, w: string, ids: seq<nat>)
    requires Inv(pool, s) && Enabled(s, Claim(w, ids))
    ensures Inv(pool, Next(pool, s, Claim(w, ids)))
  {
    hide RowOf, HasRow, RowsSound, WorkersSound, Written, Direct, Totals, Accounted, Surviving, Own;
    ClaimedAccounted(s.store, w, ids);
    var b := Claimed(s.store, w, ids);
    SameTable(pool, s, b);
    WorkerAdded(pool, System(b, s.workers), w, Holding(Surviving(s.store.floor, ids)));
  }

  lemma AckAccounted(s: Store, ids: seq<nat>)
    requires Accounted(s)
    ensures Accounted(Acknowledged(s, ids))
  {
  }

  lemma AckStep(pool: bool, s: System, w: string)
    requires Inv(pool, s) && Enabled(s, Action.Acknowledge(w))
    ensures Inv(pool, Next(pool, s, Action.Acknowledge(w)))
  {
    hide RowOf, HasRow, RowsSound, Direct, Totals, Accounted;
    var ids := s.workers[w].ids;
    AckAccounted(s.store, ids);
    var b := Acknowledged(s.store, ids);
    assert pool ==> Written(b, b.acked);
    hide Written, WorkersSound;
    AccountedCursor(s.store);
    WorkersLater(pool, s, b, {w});
  }

  lemma AccountedCursor(s: Store)
    requires Accounted(s)
    ensures s.cursor <= |s.stream|
  {
  }

  lemma TrimStep(pool: bool, s: System, k: nat)
    requires Inv(pool, s) && Enabled(s, Trim(k))
    ensures Inv(pool, Next(pool, s, Trim(k)))
  {
    hide RowOf, HasRow, RowsSound, WorkersSound, Written, Direct, Totals;
    SameTable(pool, s, s.store.(floor := k));
  }

  lemma StepKeeps(pool: bool, s: System, e: Action)
    requires Inv(pool, s) && Enabled(s, e)
    ensures Inv(pool, Next(pool, s, e))
  {
    match e
    case Enqueue(p) => EnqueueKeeps(pool, s, p);
    case WriteDirect(row) => DirectStep(pool, s, row);
    case Read(w, to) => ReadStep(pool, s, w, to);
    case Claim(w, ids) => ClaimStep(pool, s, w, ids);
    case Persist(w) => PersistStep(pool, s, w);
    case PersistPart(w, k) => PersistPartStep(pool, s, w, k);
    case Acknowledge(w) => AckStep(pool, s, w);
    case Crash(w) => CrashStep(pool, s, w);
    case Trim(k) => TrimStep(pool, s, k);
  }

  lemma CrashStep(pool: bool, s: System, w: string)
    requires Inv(pool, s)
    ensures Inv(pool, s.(workers := s.workers - {w}))
  {
    hide RowOf, HasRow, RowsSound, WorkersSound, Written, Direct, Totals;
    WorkersLater(pool, s, s.store, {w});
  }

  /** The invariant holds after every run, whatever the workers do. */
  lemma {:induction false} RunsKeep(pool: bool, run: seq<Action>)
    requires After(pool, run).Some?
    ensures Inv(pool, After(pool, run).value)
    decreases |run|
  {
    hide Next, Enabled, Inv;
    if run == [] {
      StartSound(pool);
    } else {
      var before := After(pool, run[..|run| - 1]);
      RunsKeep(pool, run[..|run| - 1]);
      StepKeeps(pool, before.value, run[|run| - 1]);
    }
  }

  lemma StartSound(pool: bool)
    ensures Inv(pool, System(EMPTY, map[]))
  {
  }

  // ----- exactly-once -----

  /**
   * After any run of any workers, crashes, redeliveries and trims included:
   * no entry has two rows, and a streamed row is the decoding of its entry.
   */
  lemma AtMostOnce(pool: bool, run: seq<Action>, j: nat, k: nat)
    requires After(pool, run).Some?
    requires var t := After(pool, run).value.store.table; j < |t| && k < |t| && t[j].eventId.Some?
    ensures var s := After(pool, run).value.store;
            && (s.table[j].eventId == s.table[k].eventId ==> j == k)
            && WellFormed(s, s.table[j].eventId.value)
            && RowOf(s.table[j].eventId.value, s.stream[s.table[j].eventId.value]) == Some(s.table[j])
  {
    hide After;
    RunsKeep(pool, run);
  }

  /**
   * With a pool, in every run: a well-formed entry that was acknowledged --
   * which is every entry that was delivered, is no longer pending and was not
   * trimmed -- has exactly one row, its decoding; a malformed entry never has
   * one.
   */
  lemma ExactlyOnce(run: seq<Action>, id: nat)
    requires After(true, run).Some? && id < |After(true, run).value.store.stream|
    ensures var s := After(true, run).value.store;
            && (HasRow(s.table, id) ==> WellFormed(s, id))
            && (s.floor <= id < s.cursor && id !in s.pending ==> id in s.acked)
            && (id in s.acked && WellFormed(s, id) ==>
                  exists k | 0 <= k < |s.table| :: Some(s.table[k]) == RowOf(id, s.stream[id])
                    && forall j | 0 <= j < |s.table| :: s.table[j].eventId == Some(id) ==> j == k)
  {
    hide After, RowOf;
    RunsKeep(true, run);
    var s := After(true, run).value.store;
    if id in s.acked && WellFormed(s, id) {
      assert HasRow(s.table, id);
      var k :| 0 <= k < |s.table| && s.table[k].eventId == Some(id);
      assert forall j | 0 <= j < |s.table| :: s.table[j].eventId == Some(id) ==> j == k;
    }
  }

  /** Every entry is undelivered, pending, acknowledged or trimmed; the first three exclude one another. */
  lemma NothingForgotten(pool: bool, run: seq<Action>, id: nat)
    requires After(pool, run).Some? && id < |After(pool, run).value.store.stream|
    ensures var s := After(pool, run).value.store;
            && (s.cursor <= id || id in s.pending || id in s.acked || id < s.floor)
            && !(s.cursor <= id && id in s.pending) && !(s.cursor <= id && id in s.acked) && !(id in s.pending && id in s.acked)
  {
    hide After;
    RunsKeep(pool, run);
  }

  /** An acknowledged well-formed entry without a row. */
  ghost predicate Lost(s: Store, id: nat) {
    id in s.acked && WellFormed(s, id) && !HasRow(s.table, id)
  }

  const ENTRY: Payload := Some(map["model" := Value.Text("m"), "status_code" := Number(200), "key_prefix" := Value.Text("k"),
                                   "rotated" := Flag(false), "latency_ms" := Number(5)])

  const SILENT_RUN: seq<Action> := [Enqueue(ENTRY), Read("w", 1), Persist("w"), Action.Acknowledge("w")]

  lemma AfterStep(pool: bool, run: seq<Action>, e: Action, s: System)
    requires After(pool, run) == Some(s) && Enabled(s, e)
    ensures After(pool, run + [e]) == Some(Next(pool, s, e))
  {
    assert (run + [e])[..|run|] == run;
  }

  /** Without a pool the insert does nothing, yet the entry is acknowledged. */
  lemma SilentLoss()
    ensures After(false, SILENT_RUN).Some? && Lost(After(false, SILENT_RUN).value.store, 0)
  {
    hide After, Own, Alive, RowOf, RowsOf, InsertAll, SafeRows, ENTRY;
    var r := SILENT_RUN;
    AfterNothing(false);
    OneDelivered();
    var s0 := System(EMPTY, map[]);
    AfterStep(false, [], r[0], s0);
    var s1 := Next(false, s0, r[0]);
    assert [] + [r[0]] == [r[0]];
    AfterStep(false, [r[0]], r[1], s1);
    var s2 := Next(false, s1, r[1]);
    assert [r[0]] + [r[1]] == [r[0], r[1]];
    AfterStep(false, [r[0], r[1]], r[2], s2);
    var s3 := Next(false, s2, r[2]);
    assert [r[0], r[1]] + [r[2]] == [r[0], r[1], r[2]];
    AfterStep(false, [r[0], r[1], r[2]], r[3], s3);
    assert [r[0], r[1], r[2]] + [r[3]] == r;
    assert 0 in IdSet([0]) by { assert [0 as nat][0] == 0; }
    EntryFine();
  }

  lemma AfterNothing(pool: bool)
    ensures After(pool, []) == Some(System(EMPTY, map[]))
  {
  }

  // ----- what trimming loses -----

  /** Out of reach: trimmed, without a row, and in no worker's hands. */
  ghost predicate Gone(s: System, id: nat) {
    id < s.store.floor && !HasRow(s.store.table, id) && forall w | w in s.workers :: id !in s.workers[w].ids
  }

  lemma {:induction false} InsertAllRows(table: seq<Row>, rows: seq<Row>, id: nat)
    ensures HasRow(InsertAll(table, rows), id) <==> HasRow(table, id) || HasRow(rows, id)
    decreases |rows|
  {
    if rows != [] {
      var row, rest := rows[0], rows[1..];
      assert rows == [row] + rest;
      InsertAllRows(Insert(table, row), rest, id);
      HasRowAppend(table, row, id);
      HasRowPrepend(row, rest, id);
      HasRowHead(row, rest, id);
      hide HasRow;
    }
  }

  lemma HasRowHead(row: Row, rest: seq<Row>, id: nat)
    ensures HasRow([row] + rest, id) ==> row.eventId == Some(id) || HasRow(rest, id)
  {
    var all := [row] + rest;
    if HasRow(all, id) {
      var k :| 0 <= k < |all| && all[k].eventId == Some(id);
      assert k > 0 ==> rest[k - 1] == all[k];
    }
  }

  lemma {:induction false} RowsAmong(stream: seq<Payload>, ids: seq<nat>, id: nat)
    requires forall k | 0 <= k < |ids| :: ids[k] < |stream|
    requires id !in ids
    ensures !HasRow(RowsOf(stream, ids), id)
  {
    if ids != [] {
      var rest, r := RowsOf(stream, ids[1..]), RowOf(ids[0], stream[ids[0]]);
      RowOfId(ids[0], stream[ids[0]]);
      RowsAmong(stream, ids[1..], id);
      assert RowsOf(stream, ids) == if r.Some? then [r.value] + rest else rest;
      if r.Some? { HasRowHead(r.value, rest, id); }
    }
  }

  lemma HasRowPart(rows: seq<Row>, k: nat, id: nat)
    requires k <= |rows| && !HasRow(rows, id)
    ensures !HasRow(rows[..k], id)
  {
    var part := rows[..k];
    assert forall j | 0 <= j < k :: part[j] == rows[j];
  }

  /** Nothing brings such an entry back. */
  lemma GoneStep(s: System, e: Action, id: nat)
    requires Inv(true, s) && Enabled(s, e) && Gone(s, id)
    ensures Gone(Next(true, s, e), id)
  {
    hide HasRow, RowsOf, RowsSound, Accounted, WorkersSound, Written, Direct, Totals, InsertAll, Own, Alive, Surviving, SafeRows;
    match e
    case WriteDirect(row) => HasRowAppend(s.store.table, row, id);
    case Read(w, to) => AliveFacts(s.store.cursor, to, s.store.floor);
    case Claim(w, ids) => SurvivingFacts(s.store.floor, ids);
    case Persist(w) => GonePersist(s, w, id);
    case PersistPart(w, k) => GonePersist(s, w, id);
    case _ =>
  }

  lemma GonePersist(s: System, w: string, id: nat)
    requires Inv(true, s) && Gone(s, id) && w in s.workers
    ensures var rows := SafeRows(s.store.stream, s.workers[w].ids);
            && !HasRow(InsertAll(s.store.table, rows), id)
            && forall k: nat | k <= |rows| :: !HasRow(InsertAll(s.store.table, rows[..k]), id)
  {
    hide HasRow, RowsSound, Accounted, Written, Direct, Totals, InsertAll, Inv;
    HeldRows(true, s, w);
    var ids := s.workers[w].ids;
    RowsAmong(s.store.stream, ids, id);
    hide RowsOf;
    var rows := SafeRows(s.store.stream, ids);
    InsertAllRows(s.store.table, rows, id);
    forall k: nat | k <= |rows| ensures !HasRow(InsertAll(s.store.table, rows[..k]), id) {
      HasRowPart(rows, k, id);
      InsertAllRows(s.store.table, rows[..k], id);
    }
  }

  lemma AfterPrefix(pool: bool, run: seq<Action>, e: Action)
    requires After(pool, run + [e]).Some?
    ensures After(pool, run).Some? && Enabled(After(pool, run).value, e)
    ensures After(pool, run + [e]) == Some(Next(pool, After(pool, run).value, e))
  {
    assert (run + [e])[..|run|] == run;
  }

  lemma {:induction false} GoneStays(run: seq<Action>, more: seq<Action>, id: nat)
    requires After(true, run).Some? && Gone(After(true, run).value, id)
    requires After(true, run + more).Some?
    ensures Gone(After(true, run + more).value, id)
    decreases |more|
  {
    hide After, Gone, Inv, Next, Enabled;
    if more == [] {
      assert run + more == run;
    } else {
      var less, e := more[..|more| - 1], more[|more| - 1];
      assert run + more == (run + less) + [e];
      AfterPrefix(true, run + less, e);
      GoneStays(run, less, id);
      RunsKeep(true, run + less);
      GoneStep(After(true, run + less).value, e, id);
    }
  }

  /** A batch in hand can be persisted. */
  lemma PersistAdds(s: System, w: string, id: nat)
    requires Inv(true, s) && w in s.workers && s.workers[w].Holding? && id in s.workers[w].ids && WellFormed(s.store, id)
    ensures Enabled(s, Persist(w)) && HasRow(Next(true, s, Persist(w)).store.table, id)
  {
    hide RowOf, HasRow, RowsSound, Accounted, WorkersSound, Written, Direct, Totals, InsertAll, Inv;
    HeldRows(true, s, w);
    var ids := s.workers[w].ids;
    RowsPresent(s.store.stream, ids);
    InsertAllRows(s.store.table, RowsOf(s.store.stream, ids), id);
    var k :| 0 <= k < |ids| && ids[k] == id;
  }

  /** A stored or acknowledged batch has its rows. */
  lemma StoredHasRow(s: System, w: string, id: nat)
    requires Inv(true, s) && w in s.workers && s.workers[w].Stored? && id in s.workers[w].ids && WellFormed(s.store, id)
    ensures HasRow(s.store.table, id)
  {
    hide RowOf, HasRow, RowsSound, Accounted, Direct, Totals;
    var k :| 0 <= k < |s.workers[w].ids| && s.workers[w].ids[k] == id;
    assert id in IdSet(s.workers[w].ids);
  }

  /** The worker "w" can be made idle, by a crash if need be. */
  lemma FreeWorker(run: seq<Action>) returns (more: seq<Action>)
    requires After(true, run).Some?
    ensures After(true, run + more).Some? && Idle(After(true, run + more).value, "w")
    ensures After(true, run + more).value.store == After(true, run).value.store
  {
    hide After;
    var s := After(true, run).value;
    if Idle(s, "w") {
      more := [];
      assert run + [] == run;
    } else {
      more := [Crash("w")];
      AfterStep(true, run, Crash("w"), s);
    }
  }

  /** From a state where the entry is undelivered or pending, and not trimmed, a worker can write its row. */
  lemma FetchRow(run: seq<Action>, id: nat) returns (more: seq<Action>)
    requires After(true, run).Some? && Idle(After(true, run).value, "w")
    requires var s := After(true, run).value.store;
             WellFormed(s, id) && s.floor <= id && (s.cursor <= id || id in s.pending)
    ensures After(true, run + more).Some? && HasRow(After(true, run + more).value.store.table, id)
  {
    hide After, HasRow, RowOf, Inv, Alive, Surviving, Own, Persisted;
    var s := After(true, run).value;
    var e := if s.store.cursor <= id then Read("w", id + 1) else Claim("w", [id]);
    AliveFacts(s.store.cursor, id + 1, s.store.floor);
    SurvivingFacts(s.store.floor, [id]);
    AfterStep(true, run, e, s);
    var t := Next(true, s, e);
    RunsKeep(true, run + [e]);
    PersistAdds(t, "w", id);
    AfterStep(true, run + [e], Persist("w"), t);
    more := [e, Persist("w")];
    assert run + more == (run + [e]) + [Persist("w")];
  }

  /** Unless it is gone, a well-formed entry can still get its row. */
  lemma RowReachable(run: seq<Action>, id: nat) returns (more: seq<Action>)
    requires After(true, run).Some? && WellFormed(After(true, run).value.store, id) && !Gone(After(true, run).value, id)
    ensures After(true, run + more).Some? && HasRow(After(true, run + more).value.store.table, id)
  {
    hide After, HasRow, RowOf, Next, WorkersSound, RowsSound, Direct, Totals;
    RunsKeep(true, run);
    var s := After(true, run).value;
    if HasRow(s.store.table, id) || id in s.store.acked {
      more := [];
      assert run + [] == run;
    } else if w :| w in s.workers && id in s.workers[w].ids {
      if s.workers[w].Stored? { StoredHasRow(s, w, id); }
      PersistAdds(s, w, id);
      AfterStep(true, run, Persist(w), s);
      more := [Persist(w)];
    } else {
      var free := FreeWorker(run);
      var fetch := FetchRow(run + free, id);
      more := free + fetch;
      assert run + more == (run + free) + fetch;
    }
  }

  /** No continuation writes a row for the entry. */
  ghost predicate NeverWritten(run: seq<Action>, id: nat) {
    forall more: seq<Action> | After(true, run + more).Some? :: !HasRow(After(true, run + more).value.store.table, id)
  }

  /**
   * With a pool, from any reachable state: a well-formed entry is lost for good
   * -- no continuation writes its row -- exactly when it was trimmed, has no
   * row, and no worker holds it.
   */
  lemma LostExactly(run: seq<Action>, id: nat)
    requires After(true, run).Some? && WellFormed(After(true, run).value.store, id)
    ensures NeverWritten(run, id) <==> Gone(After(true, run).value, id)
  {
    hide After, HasRow, RowOf;
    if Gone(After(true, run).value, id) {
      forall more: seq<Action> | After(true, run + more).Some?
        ensures !HasRow(After(true, run + more).value.store.table, id)
      {
        GoneStays(run, more, id);
      }
    } else {
      hide Gone;
      var more := RowReachable(run, id);
    }
  }

  /** Every trim drops only entries acknowledged by then. */
  ghost predicate CarefulTrims(pool: bool, run: seq<Action>)
    decreases |run|
  {
    run == [] ||
    var before, e := run[..|run| - 1], run[|run| - 1];
    CarefulTrims(pool, before) &&
    (e.Trim? && After(pool, before).Some? ==> forall id: nat | id < e.k :: id in After(pool, before).value.store.acked)
  }

  lemma AckedGrows(pool: bool, s: System, e: Action)
    requires Enabled(s, e)
    ensures s.store.acked <= Next(pool, s, e).store.acked
    ensures !e.Trim? ==> Next(pool, s, e).store.floor == s.store.floor
  {
    hide RowOf, HasRow, RowsOf, InsertAll, Own, Alive, Surviving, SafeRows;
  }

  /** Then every trimmed entry stays acknowledged. */
  lemma {:induction false} TrimmedAcked(pool: bool, run: seq<Action>, id: nat)
    requires CarefulTrims(pool, run) && After(pool, run).Some? && id < After(pool, run).value.store.floor
    ensures id in After(pool, run).value.store.acked
    decreases |run|
  {
    hide After, Next, Enabled;
    if run == [] {
      AfterNothing(pool);
    } else {
      var before, e := run[..|run| - 1], run[|run| - 1];
      assert run == before + [e];
      AfterPrefix(pool, before, e);
      var s := After(pool, before).value;
      AckedGrows(pool, s, e);
      if e.Trim? { TrimAt(pool, s, e); }
      if id < s.store.floor { TrimmedAcked(pool, before, id); }
    }
  }

  lemma TrimAt(pool: bool, s: System, e: Action)
    requires Enabled(s, e) && e.Trim?
    ensures Next(pool, s, e).store.floor == e.k
  {
  }

  /**
   * A deployment whose trims drop only acknowledged entries loses nothing:
   * no well-formed entry is ever lost, and each one that was delivered and is
   * no longer pending has its row.
   */
  lemma CarefulTrimsLoseNothing(run: seq<Action>, id: nat)
    requires CarefulTrims(true, run) && After(true, run).Some? && WellFormed(After(true, run).value.store, id)
    ensures !NeverWritten(run, id)
    ensures var s := After(true, run).value.store; id < s.cursor && id !in s.pending ==> HasRow(s.table, id)
  {
    hide After, RowOf, RowsSound, WorkersSound, Direct, Totals, NeverWritten, HasRow;
    RunsKeep(true, run);
    LostExactly(run, id);
    if id < After(true, run).value.store.floor { TrimmedAcked(true, run, id); }
  }

  const TRIM_RUN: seq<Action> := [Enqueue(ENTRY), Trim(1), Read("w", 1)]

  /** Trimming an undelivered entry loses it for good. */
  lemma TrimLoses()
    ensures After(true, TRIM_RUN).Some? && WellFormed(After(true, TRIM_RUN).value.store, 0) && NeverWritten(TRIM_RUN, 0)
  {
    hide After, RowOf, ENTRY, NeverWritten;
    AfterNothing(true);
    EntryFine();
    var s0 := System(EMPTY, map[]);
    var r := TRIM_RUN;
    AfterStep(true, [], r[0], s0);
    assert [] + [r[0]] == [r[0]];
    var s1 := Next(true, s0, r[0]);
    AfterStep(true, [r[0]], r[1], s1);
    assert [r[0]] + [r[1]] == [r[0], r[1]];
    var s2 := Next(true, s1, r[1]);
    AfterStep(true, [r[0], r[1]], r[2], s2);
    assert [r[0], r[1]] + [r[2]] == r;
    LostExactly(TRIM_RUN, 0);
  }

  lemma OneDelivered()
    ensures Alive(0, 1, 0) == [0]
    ensures Own(map[], [0], "w") == map[0 := "w"]
  {
    assert Alive(1, 1, 0) == [];
    assert 0 in [0 as nat];
  }

  lemma EntryFine()
    ensures RowOf(0, ENTRY).Some?
  {
  }

  /** Acknowledging implies a row, in every run, exactly when there is a connection pool. */
  lemma AckMeansRowExactly(pool: bool)
    ensures pool <==> forall run: seq<Action>, id: nat | After(pool, run).Some? :: !Lost(After(pool, run).value.store, id)
  {
    hide After, Lost;
    if pool {
      forall run: seq<Action>, id: nat | After(pool, run).Some? ensures !Lost(After(pool, run).value.store, id) {
        RunsKeep(pool, run);
        NotLost(After(pool, run).value, id);
      }
    } else {
      SilentLoss();
    }
  }

  lemma NotLost(s: System, id: nat)
    requires Inv(true, s)
    ensures !Lost(s.store, id)
  {
    hide RowOf, HasRow, RowsSound, Accounted, WorkersSound, Direct, Totals;
  }

  // ----- totals -----

  /** Rows of the stream, without the direct ones. */
  function Streamed(rows: seq<Row>): seq<Row>
    decreases |rows|
  {
    if rows == [] then []
    else
      var r := rows[|rows| - 1];
      Streamed(rows[..|rows| - 1]) + (if r.eventId.Some? then [r] else [])
  }

  lemma TotalsAppend(rows: seq<Row>, row: Row)
    ensures Totals(rows + [row]) == Plus(Totals(rows), StatsOf(row))
  {
    assert (rows + [row])[..|rows|] == rows;
  }

  lemma StreamedAppend(rows: seq<Row>, row: Row)
    ensures Streamed(rows + [row]) == if row.eventId.Some? then Streamed(rows) + [row] else Streamed(rows)
    ensures Direct(rows + [row]) == if row.eventId.Some? then Direct(rows) else Direct(rows) + [row]
  {
    assert (rows + [row])[..|rows|] == rows;
  }

  lemma {:induction false} TotalsSplit(rows: seq<Row>)
    ensures Totals(rows) == Plus(Totals(Streamed(rows)), Totals(Direct(rows)))
    decreases |rows|
  {
    hide Totals, Streamed, Direct, StatsOf;
    if rows == [] {
      NothingCounted();
    } else {
      var less, r := rows[..|rows| - 1], rows[|rows| - 1];
      assert rows == less + [r];
      TotalsSplit(less);
      TotalsAppend(less, r);
      StreamedAppend(less, r);
      TotalsAppend(Streamed(less), r);
      TotalsAppend(Direct(less), r);
    }
  }

  lemma NothingCounted()
    ensures Streamed([]) == [] && Direct([]) == [] && Totals([]) == Stats(0, 0, 0)
  {
  }

  /** The table without the row at `k`. */
  function Cut1(rows: seq<Row>, k: nat): seq<Row>
    requires k < |rows|
  {
    rows[..k] + rows[k + 1..]
  }

  lemma {:induction false} TotalsCut(rows: seq<Row>, k: nat)
    requires k < |rows| && rows[k].eventId.Some?
    ensures Totals(Streamed(rows)) == Plus(Totals(Streamed(Cut1(rows, k))), StatsOf(rows[k]))
    decreases |rows|
  {
    hide Totals, Streamed, Direct, StatsOf;
    var less, r := rows[..|rows| - 1], rows[|rows| - 1];
    assert rows == less + [r];
    StreamedAppend(less, r);
    TotalsAppend(Streamed(less), r);
    if k == |less| {
      assert Cut1(rows, k) == less;
    } else {
      TotalsCut(less, k);
      assert Cut1(rows, k) == Cut1(less, k) + [r];
      StreamedAppend(Cut1(less, k), r);
      TotalsAppend(Streamed(Cut1(less, k)), r);
    }
  }

  /** What the entries with a row add up to. */
  function Found(stream: seq<Payload>, table: seq<Row>): Stats
    decreases |stream|
  {
    if stream == [] then Stats(0, 0, 0)
    else
      var n := |stream| - 1;
      var r := RowOf(n, stream[n]);
      if r.Some? && HasRow(table, n) then Plus(Found(stream[..n], table), StatsOf(r.value)) else Found(stream[..n], table)
  }

  lemma {:induction false} FoundSame(stream: seq<Payload>, a: seq<Row>, b: seq<Row>)
    requires forall id: nat | id < |stream| :: HasRow(a, id) == HasRow(b, id)
    ensures Found(stream, a) == Found(stream, b)
    decreases |stream|
  {
    hide RowOf, HasRow, StatsOf, Plus;
    if stream != [] { FoundSame(stream[..|stream| - 1], a, b); }
  }

  /** A sound table adds up to the entries it has rows for. */
  lemma {:induction false} SoundTotals(stream: seq<Payload>, table: seq<Row>)
    requires RowsSound(stream, table)
    ensures Totals(Streamed(table)) == Found(stream, table)
    decreases |stream|
  {
    hide RowOf, Totals, Streamed, StatsOf;
    if stream == [] {
      NoneStreamed(table);
    } else {
      var n := |stream| - 1;
      var less := stream[..n];
      if HasRow(table, n) {
        var k :| 0 <= k < |table| && table[k].eventId == Some(n);
        TotalsCut(table, k);
        CutSound(stream, table, k);
        SoundTotals(less, Cut1(table, k));
        FoundSame(less, Cut1(table, k), table);
      } else {
        SoundLess(stream, table);
        SoundTotals(less, table);
      }
    }
  }

  /** Every well-formed entry has a row. */
  ghost predicate AllFound(stream: seq<Payload>, table: seq<Row>) {
    forall id: nat | id < |stream| && RowOf(id, stream[id]).Some? :: HasRow(table, id)
  }

  /** The found totals are the expected ones exactly when no row is missing. */
  lemma {:induction false} FoundExpected(stream: seq<Payload>, table: seq<Row>)
    ensures Found(stream, table).requests <= Expected(stream).requests
    ensures Found(stream, table) == Expected(stream) <==> AllFound(stream, table)
    decreases |stream|
  {
    if stream != [] {
      FoundExpected(stream[..|stream| - 1], table);
      AllFoundSnoc(stream, table);
      hide RowOf, HasRow, AllFound;
    }
  }

  lemma AllFoundSnoc(stream: seq<Payload>, table: seq<Row>)
    requires stream != []
    ensures var n := |stream| - 1;
            AllFound(stream, table) <==> AllFound(stream[..n], table) && (RowOf(n, stream[n]).Some? ==> HasRow(table, n))
  {
    hide RowOf, HasRow;
    var n := |stream| - 1;
    assert forall id: nat | id < n :: stream[..n][id] == stream[id];
  }

  lemma {:induction false} NoneStreamed(table: seq<Row>)
    requires forall k | 0 <= k < |table| :: table[k].eventId.None?
    ensures Totals(Streamed(table)) == Stats(0, 0, 0)
    decreases |table|
  {
    if table != [] {
      NoneStreamed(table[..|table| - 1]);
      assert Streamed(table[..|table| - 1]) + [] == Streamed(table[..|table| - 1]);
    }
  }

  lemma SoundLess(stream: seq<Payload>, table: seq<Row>)
    requires stream != [] && RowsSound(stream, table) && !HasRow(table, |stream| - 1)
    ensures RowsSound(stream[..|stream| - 1], table)
  {
    hide RowOf;
  }

  lemma CutSound(stream: seq<Payload>, table: seq<Row>, k: nat)
    requires stream != [] && RowsSound(stream, table) && k < |table| && table[k].eventId == Some(|stream| - 1)
    ensures RowsSound(stream[..|stream| - 1], Cut1(table, k))
    ensures forall id: nat | id < |stream| - 1 :: HasRow(Cut1(table, k), id) == HasRow(table, id)
  {
    hide RowOf;
    var n := |stream| - 1;
    var rest := Cut1(table, k);
    assert forall j | 0 <= j < |rest| :: rest[j] == if j < k then table[j] else table[j + 1];
    forall j | 0 <= j < |rest| && rest[j].eventId.Some? ensures rest[j].eventId.value < n {
      assert rest[j].eventId != Some(n);
    }
    forall id: nat | id < n && HasRow(table, id) ensures HasRow(rest, id) {
      var i :| 0 <= i < |table| && table[i].eventId == Some(id);
      assert rest[if i < k then i else i - 1].eventId == Some(id);
    }
  }

  /** The cut trimmed no well-formed entry that has no row. */
  ghost predicate TrimmedHaveRows(s: Store) {
    forall id: nat | id < s.floor && WellFormed(s, id) :: HasRow(s.table, id)
  }

  /**
   * At every moment of every run with a pool, the totals recomputed from the
   * table are those of the entries that have a row plus the direct writes; so
   * they are those of all well-formed entries ever enqueued exactly when every
   * one of these has its row.
   */
  lemma TotalsAlways(run: seq<Action>)
    requires After(true, run).Some?
    ensures var s := After(true, run).value.store;
            && Totals(s.table) == Plus(Found(s.stream, s.table), Totals(s.direct))
            && (Totals(s.table) == Plus(Expected(s.stream), Totals(s.direct)) <==> AllFound(s.stream, s.table))
  {
    hide After, Totals, Expected, Streamed, Direct, Found, AllFound, RowOf, HasRow;
    RunsKeep(true, run);
    var s := After(true, run).value.store;
    SoundTotals(s.stream, s.table);
    FoundExpected(s.stream, s.table);
    TotalsSplit(s.table);
  }

  /**
   * Whenever nothing is undelivered or pending, for any history of
   * redeliveries, failed inserts, crashes and trims: the totals recomputed
   * from the table are those of all well-formed entries ever enqueued plus the
   * direct writes -- exactly when every trimmed well-formed entry has its row.
   */
  lemma TotalsExactly(run: seq<Action>)
    requires After(true, run).Some?
    requires var s := After(true, run).value.store; s.cursor == |s.stream| && s.pending == map[]
    ensures var s := After(true, run).value.store;
            Totals(s.table) == Plus(Expected(s.stream), Totals(s.direct)) <==> TrimmedHaveRows(s)
  {
    hide After, Totals, Expected, Found, AllFound, TrimmedHaveRows;
    RunsKeep(true, run);
    QuietFound(After(true, run).value);
    TotalsAlways(run);
  }

  lemma QuietFound(s: System)
    requires Inv(true, s) && s.store.cursor == |s.store.stream| && s.store.pending == map[]
    ensures AllFound(s.store.stream, s.store.table) <==> TrimmedHaveRows(s.store)
  {
    hide RowOf, HasRow, RowsSound, WorkersSound, Direct, Totals;
    if TrimmedHaveRows(s.store) {
      forall id: nat | id < |s.store.stream| && RowOf(id, s.store.stream[id]).Some? ensures HasRow(s.store.table, id) {
        assert id < s.store.floor || id in s.store.acked;
        assert WellFormed(s.store, id);
      }
    }
  }

  /** So with trims that drop only acknowledged entries, the totals are always conserved. */
  lemma TotalsConserved(run: seq<Action>)
    requires CarefulTrims(true, run) && After(true, run).Some?
    requires var s := After(true, run).value.store; s.cursor == |s.stream| && s.pending == map[]
    ensures var s := After(true, run).value.store; Totals(s.table) == Plus(Expected(s.stream), Totals(s.direct))
  {
    hide After, Totals, Expected, CarefulTrims, RowOf, HasRow;
    var s := After(true, run).value.store;
    TotalsExactly(run);
    forall id: nat | id < s.floor && WellFormed(s, id) ensures HasRow(s.table, id) {
      CarefulTrimsLoseNothing(run, id);
    }
  }
}
