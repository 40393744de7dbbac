/**
  The log and event publisher: deliveries are stored in batches, one by one where a batch fails, and
  acknowledged after a batch has been committed.
 */
module Publisher {
  import opened Options
  import opened LimitedSizeDicts
  import opened Ranges

  datatype Kind = Event | Log

  /** Formatting succeeds, misses a key, or raises another error. */
  datatype Shape = Complete | Incomplete | Broken

  /** A message without an execution in its context raises before any lookup. */
  datatype Message = Message(kind: Kind, execution: Option<string>, shape: Shape, content: string)

  datatype Row = Row(storageId: nat)

  /** A committed row; `position` says which delivery it stores. */
  datatype Entry = Entry(position: nat, message: Message, row: Row)

  datatype Tables = Tables(events: seq<Entry>, logs: seq<Entry>) {
    function Of(kind: Kind): seq<Entry> {
      if kind.Event? then events else logs
    }
    function Put(e: Entry): Tables {
      if e.message.kind.Event? then Tables(events + [e], logs) else Tables(events, logs + [e])
    }
    function Join(t: Tables): Tables {
      Tables(events + t.events, logs + t.logs)
    }
  }

  /** What the database answers to its n-th request; a lost connection may lose a commit or only its answer. */
  datatype Reply = Fine | Lost(stored: bool) | Refused

  datatype Database = Database(executions: nat -> map<string, Row>, reply: nat -> Reply)

  ghost predicate AppendOnly(db: Database) {
    forall t: nat, u: nat, id :: t <= u && id in db.executions(t) ==>
      id in db.executions(u) && db.executions(u)[id] == db.executions(t)[id]
  }

  type Executions = Cache<Option<Row>>

  const CACHE_LIMIT: nat := 100

  const NOTHING: Executions := Cache([], map[])

  // ----- lookups -----

  datatype Answer = Formatted(row: Row) | Unknown | Malformed | ConnectionLost | Raised

  datatype Fetched = Fetched(cache: Executions, clock: nat, answer: Answer)

  function Format(m: Message, execution: Option<Row>): Answer {
    if execution.None? then Unknown
    else match m.shape
      case Complete => Formatted(execution.value)
      case Incomplete => Malformed
      case Broken => Raised
  }

  function Selected(db: Database, clock: nat, id: string): Option<Row> {
    if id in db.executions(clock) then Some(db.executions(clock)[id]) else None
  }

  function GetItem(cache: Executions, db: Database, clock: nat, m: Message): Fetched {
    if m.execution.None? then Fetched(cache, clock, Raised)
    else
      var id := m.execution.value;
      if id in cache.entries then Fetched(cache, clock, Format(m, cache.entries[id]))
      else match db.reply(clock)
        case Lost(_) => Fetched(cache, clock + 1, ConnectionLost)
        case Refused => Fetched(cache, clock + 1, Raised)
        case Fine =>
          var execution := Selected(db, clock, id);
          Fetched(Insert(cache, CACHE_LIMIT, id, execution), clock + 1, Format(m, execution))
  }

  // ----- one batch -----

  /** A consumed delivery, and when the batch it came in was started. */
  datatype Delivery = Delivery(message: Message, arrived: nat)

  datatype Health = Running | Failed | Dead

  /** The request that was to store the row of a delivery, and was refused. */
  datatype Refusal = Refusal(position: nat, request: nat)

  /** `unknown` are the deliveries reported as having no execution, `refused` those whose own row was refused. */
  datatype State = State(
    cache: Executions,
    clock: nat,
    tables: Tables,
    acked: seq<nat>,
    unknown: seq<nat>,
    refused: seq<Refusal>,
    history: seq<Delivery>,
    health: Health)

  /** Rows gathered for a batch, not yet committed. */
  datatype Gathered = Gathered(cache: Executions, clock: nat, rows: Tables, unknown: seq<nat>, health: Health)

  function GatherOne(g: Gathered, db: Database, position: nat, m: Message): Gathered {
    if !g.health.Running? then g
    else
      var f := GetItem(g.cache, db, g.clock, m);
      var h := g.(cache := f.cache, clock := f.clock);
      match f.answer
      case Formatted(row) => h.(rows := g.rows.Put(Entry(position, m, row)))
      case Unknown => h.(unknown := g.unknown + [position])
      case Malformed => h
      case ConnectionLost => h.(health := Dead)
      case Raised => h.(health := Failed)
  }

  /** The first `n` items of a batch. */
  function Gather(s: State, db: Database, base: nat, items: seq<Message>, n: nat): Gathered
    requires n <= |items|
  {
    if n == 0 then Gathered(s.cache, s.clock, Tables([], []), s.unknown, Running)
    else GatherOne(Gather(s, db, base, items, n - 1), db, base + (n - 1), items[n - 1])
  }

  function Store(s: State, db: Database, base: nat, items: seq<Message>): State {
    var g := Gather(s, db, base, items, |items|);
    var after := s.(cache := g.cache, clock := g.clock, unknown := g.unknown, health := g.health);
    if !g.health.Running? then after
    else
      var sent := after.(clock := g.clock + 1);
      match db.reply(g.clock)
      case Fine => sent.(tables := s.tables.Join(g.rows), acked := s.acked + Interval(base, base + |items|))
      case Lost(stored) => sent.(tables := if stored then s.tables.Join(g.rows) else s.tables, health := Dead)
      case Refused => sent.(health := Failed)
  }

  function StoreRow(s: State, db: Database, e: Entry): State {
    var sent := s.(clock := s.clock + 1);
    match db.reply(s.clock)
    case Fine => sent.(tables := s.tables.Put(e))
    case Lost(stored) => sent.(tables := if stored then s.tables.Put(e) else s.tables, health := Dead)
    case Refused => sent.(refused := s.refused + [Refusal(e.position, s.clock)])
  }

  /** A failed lookup is not caught here, and ends the publisher; a refused row is rolled back and dropped. */
  function StoreOne(s: State, db: Database, position: nat, m: Message): State {
    if !s.health.Running? then s
    else
      var f := GetItem(s.cache, db, s.clock, m);
      var t := s.(cache := f.cache, clock := f.clock);
      match f.answer
      case ConnectionLost => t.(health := Dead)
      case Raised => t.(health := Dead)
      case Unknown => t.(unknown := s.unknown + [position])
      case Malformed => t
      case Formatted(row) => StoreRow(t, db, Entry(position, m, row))
  }

  function StoreEach(s: State, db: Database, base: nat, items: seq<Message>, n: nat): State
    requires n <= |items|
  {
    if n == 0 then s else StoreOne(StoreEach(s, db, base, items, n - 1), db, base + (n - 1), items[n - 1])
  }

  function Sweep(cache: Executions, keys: seq<string>): Executions {
    if keys == [] then cache
    else
      var c, id := Sweep(cache, keys[..|keys| - 1]), keys[|keys| - 1];
      if id in c.entries && c.entries[id].None? then Remove(c, id) else c
  }

  function Arrive(s: State, items: seq<Message>): State {
    s.(history := s.history + seq(|items|, k requires 0 <= k < |items| => Delivery(items[k], s.clock)))
  }

  /** The batch, then the items one by one with an empty cache if the batch failed. */
  function StoreAll(s: State, db: Database, items: seq<Message>): State {
    var base := |s.history|;
    var r := Store(Arrive(s, items), db, base, items);
    if r.health.Failed? then StoreEach(r.(cache := NOTHING, health := Running), db, base, items, |items|) else r
  }

  function Batch(s: State, db: Database, items: seq<Message>): State {
    if !s.health.Running? then s
    else
      var r := StoreAll(s, db, items);
      if r.health.Running? then r.(cache := Sweep(r.cache, r.cache.order)) else r
  }

  // ----- runs -----

  datatype Occasion = Items(items: seq<Message>) | Restart

  function Step(s: State, db: Database, e: Occasion): State {
    match e
    case Items(items) => Batch(s, db, items)
    case Restart => s.(cache := NOTHING, health := Running)
  }

  const START: State := State(NOTHING, 0, Tables([], []), [], [], [], [], Running)

  function Run(db: Database, run: seq<Occasion>): State {
    if run == [] then START else Step(Run(db, run[..|run| - 1]), db, run[|run| - 1])
  }

  // ----- the cache -----

  /** Cached rows are the table's rows; a cached absence is as recent as `since`. */
  ghost predicate Faithful(cache: Executions, db: Database, clock: nat, since: nat) {
    && WellFormed(cache) && |cache.order| <= CACHE_LIMIT && since <= clock
    && forall id :: id in cache.entries ==>
      match cache.entries[id]
      case Some(row) => id in db.executions(clock) && db.executions(clock)[id] == row
      case None => id !in db.executions(since)
  }

  /** An answer that is right about the executions table. */
  ghost predicate Honest(a: Answer, m: Message, db: Database, clock: nat, since: nat) {
    match a
    case Formatted(row) =>
      m.execution.Some? && m.execution.value in db.executions(clock) && db.executions(clock)[m.execution.value] == row
    case Unknown => m.execution.Some? && m.execution.value !in db.executions(since)
    case Malformed => m.shape.Incomplete?
    case _ => true
  }

  lemma InsertIsFaithful(cache: Executions, db: Database, clock: nat, since: nat, id: string)
    requires AppendOnly(db) && Faithful(cache, db, clock, since) && id !in cache.entries
    ensures Faithful(Insert(cache, CACHE_LIMIT, id, Selected(db, clock, id)), db, clock + 1, since)
  {
    InsertForgetsTheOldest(cache, CACHE_LIMIT, id, Selected(db, clock, id));
  }

  lemma FetchIsHonest(cache: Executions, db: Database, clock: nat, since: nat, m: Message)
    requires AppendOnly(db) && Faithful(cache, db, clock, since)
    ensures var f := GetItem(cache, db, clock, m);
            clock <= f.clock && Faithful(f.cache, db, f.clock, since) && Honest(f.answer, m, db, f.clock, since)
  {
    if m.execution.Some? && m.execution.value !in cache.entries && db.reply(clock).Fine? {
      InsertIsFaithful(cache, db, clock, since, m.execution.value);
    }
  }

  lemma {:induction false} SweepForgetsAbsence(cache: Executions, keys: seq<string>, db: Database, clock: nat, since: nat)
    requires Faithful(cache, db, clock, since)
    ensures var c := Sweep(cache, keys);
            && Faithful(c, db, clock, since)
            && (forall id :: id in c.entries <==> id in cache.entries && (id in keys ==> cache.entries[id].Some?))
            && forall id :: id in c.entries ==> c.entries[id] == cache.entries[id]
  {
    if keys != [] {
      var front, id := keys[..|keys| - 1], keys[|keys| - 1];
      assert keys == front + [id];
      SweepForgetsAbsence(cache, front, db, clock, since);
      RemoveKeepsTheRest(Sweep(cache, front), id);
    }
  }

  /** Between batches no absence is cached, so the cache is faithful whenever the next batch starts. */
  lemma SweptIsFaithful(cache: Executions, db: Database, clock: nat, since: nat)
    requires Faithful(cache, db, clock, since)
    ensures Faithful(Sweep(cache, cache.order), db, clock, clock)
  {
    SweepForgetsAbsence(cache, cache.order, db, clock, since);
  }

  // ----- the tables -----

  /** Rows in the order of their deliveries, each of its kind, for the right execution. */
  ghost predicate InOrder(table: seq<Entry>, kind: Kind, history: seq<Delivery>, db: Database, clock: nat) {
    && (forall j: nat, k: nat :: j < k < |table| ==> table[j].position < table[k].position)
    && forall k: nat :: k < |table| ==> IsRowOf(table[k], kind, history, db, clock)
  }

  ghost predicate IsRowOf(e: Entry, kind: Kind, history: seq<Delivery>, db: Database, clock: nat) {
    && e.position < |history| && history[e.position].message == e.message && e.message.kind == kind
    && Honest(Formatted(e.row), e.message, db, clock, clock)
  }

  ghost predicate AllInOrder(t: Tables, history: seq<Delivery>, db: Database, clock: nat) {
    InOrder(t.events, Event, history, db, clock) && InOrder(t.logs, Log, history, db, clock)
  }

  /** Every row is of a delivery from `low` on and before `high`. */
  predicate Within(t: Tables, low: nat, high: nat) {
    && (forall k: nat :: k < |t.events| ==> low <= t.events[k].position < high)
    && (forall k: nat :: k < |t.logs| ==> low <= t.logs[k].position < high)
  }

  predicate Committed(t: Tables, position: nat, kind: Kind) {
    exists k: nat :: k < |t.Of(kind)| && t.Of(kind)[k].position == position
  }

  /** What is committed stays committed. */
  ghost predicate KeepsRows(t: Tables, u: Tables) {
    forall p, kind :: Committed(t, p, kind) ==> Committed(u, p, kind)
  }

  /** No execution when its batch started, or a key is missing. */
  predicate Unstorable(d: Delivery, db: Database) {
    d.message.shape.Incomplete? || (d.message.execution.Some? && d.message.execution.value !in db.executions(d.arrived))
  }

  predicate Settled(position: nat, t: Tables, history: seq<Delivery>, db: Database)
    requires position < |history|
  {
    Committed(t, position, history[position].message.kind) || Unstorable(history[position], db)
  }

  ghost predicate AllSettled(t: Tables, history: seq<Delivery>, db: Database, low: nat, high: nat) {
    high <= |history| && forall p: nat :: low <= p < high ==> Settled(p, t, history, db)
  }

  ghost predicate RightlyUnknown(unknown: seq<nat>, history: seq<Delivery>, db: Database) {
    forall k: nat :: k < |unknown| ==>
      unknown[k] < |history| && Honest(Unknown, history[unknown[k]].message, db, 0, history[unknown[k]].arrived)
  }

  ghost predicate RightlyAcked(acked: seq<nat>, t: Tables, history: seq<Delivery>, db: Database) {
    && (forall j: nat, k: nat :: j < k < |acked| ==> acked[j] < acked[k])
    && forall k: nat :: k < |acked| ==> acked[k] < |history| && Settled(acked[k], t, history, db)
  }

  /** Each was answered so by the database, to a request of its own after the delivery arrived. */
  ghost predicate RightlyRefused(refused: seq<Refusal>, history: seq<Delivery>, db: Database, clock: nat) {
    && (forall j: nat, k: nat :: j < k < |refused| ==>
          refused[j].position < refused[k].position && refused[j].request < refused[k].request)
    && forall k: nat :: k < |refused| ==> refused[k].position < |history| && IsRefusal(refused[k], history, db, clock)
  }

  predicate IsRefusal(r: Refusal, history: seq<Delivery>, db: Database, clock: nat)
    requires r.position < |history|
  {
    history[r.position].arrived <= r.request < clock && db.reply(r.request).Refused?
  }

  ghost predicate Sound(s: State, db: Database) {
    && AllInOrder(s.tables, s.history, db, s.clock)
    && RightlyUnknown(s.unknown, s.history, db)
    && RightlyAcked(s.acked, s.tables, s.history, db)
    && RightlyRefused(s.refused, s.history, db, s.clock)
    && (s.health.Running? ==> Faithful(s.cache, db, s.clock, s.clock))
  }

  // ----- one row -----

  lemma PutKeepsRows(t: Tables, e: Entry)
    ensures KeepsRows(t, t.Put(e)) && Committed(t.Put(e), e.position, e.message.kind)
  {
    assert t.Put(e).Of(e.message.kind)[|t.Of(e.message.kind)|] == e;
    forall p, kind | Committed(t, p, kind) ensures Committed(t.Put(e), p, kind) {
      var k: nat :| k < |t.Of(kind)| && t.Of(kind)[k].position == p;
      assert t.Put(e).Of(kind)[k].position == p;
    }
  }

  lemma PutKeepsOrder(t: Tables, e: Entry, history: seq<Delivery>, db: Database, clock: nat, low: nat)
    requires AllInOrder(t, history, db, clock) && Within(t, low, e.position) && low <= e.position
    requires IsRowOf(e, e.message.kind, history, db, clock)
    ensures AllInOrder(t.Put(e), history, db, clock) && Within(t.Put(e), low, e.position + 1)
  {
  }

  lemma JoinKeepsOrder(t: Tables, u: Tables, history: seq<Delivery>, db: Database, clock: nat, base: nat, high: nat)
    requires AllInOrder(t, history, db, clock) && AllInOrder(u, history, db, clock)
    requires Within(t, 0, base) && Within(u, base, high)
    ensures AllInOrder(t.Join(u), history, db, clock)
    ensures KeepsRows(t, t.Join(u)) && KeepsRows(u, t.Join(u))
  {
    forall p, kind | Committed(t, p, kind) || Committed(u, p, kind) ensures Committed(t.Join(u), p, kind) {
      if Committed(t, p, kind) {
        var k: nat :| k < |t.Of(kind)| && t.Of(kind)[k].position == p;
        assert t.Join(u).Of(kind)[k].position == p;
      } else {
        var k: nat :| k < |u.Of(kind)| && u.Of(kind)[k].position == p;
        assert t.Join(u).Of(kind)[|t.Of(kind)| + k].position == p;
      }
    }
  }

  lemma LaterIsStillInOrder(t: Tables, history: seq<Delivery>, more: seq<Delivery>, db: Database, clock: nat, later: nat)
    requires AppendOnly(db) && AllInOrder(t, history, db, clock) && clock <= later
    ensures AllInOrder(t, history + more, db, later)
  {
  }

  // ----- one batch -----

  /** The deliveries from `base` on are those of the batch. */
  ghost predicate InBatch(history: seq<Delivery>, base: nat, items: seq<Message>, since: nat) {
    && |history| == base + |items|
    && forall k: nat :: k < |items| ==> history[base + k] == Delivery(items[k], since)
  }

  ghost predicate GatheredWell(g: Gathered, db: Database, history: seq<Delivery>, base: nat, count: nat, since: nat) {
    && Faithful(g.cache, db, g.clock, since)
    && AllInOrder(g.rows, history, db, g.clock) && Within(g.rows, base, base + count)
    && RightlyUnknown(g.unknown, history, db)
    && (g.health.Running? ==> AllSettled(g.rows, history, db, base, base + count))
  }

  lemma MoreRowsStillSettled(t: Tables, u: Tables, history: seq<Delivery>, db: Database, low: nat, high: nat)
    requires AllSettled(t, history, db, low, high)
    requires KeepsRows(t, u)
    ensures AllSettled(u, history, db, low, high)
  {
    forall p: nat | low <= p < high ensures Settled(p, u, history, db) {
      assert Settled(p, t, history, db);
    }
  }

  lemma OneMoreSettled(t: Tables, history: seq<Delivery>, db: Database, low: nat, high: nat)
    requires AllSettled(t, history, db, low, high) && high < |history| && Settled(high, t, history, db)
    ensures AllSettled(t, history, db, low, high + 1)
  {
  }

  lemma WaitingKeeps(g: Gathered, h: Gathered, db: Database, history: seq<Delivery>, base: nat, count: nat, since: nat)
    requires AppendOnly(db) && GatheredWell(g, db, history, base, count, since)
    requires h == g.(cache := h.cache, clock := h.clock) && g.clock <= h.clock && Faithful(h.cache, db, h.clock, since)
    ensures GatheredWell(h, db, history, base, count, since)
  {
    LaterIsStillInOrder(g.rows, history, [], db, g.clock, h.clock);
    assert history + [] == history;
  }

  lemma RowKeepsGathered(g: Gathered, db: Database, history: seq<Delivery>, base: nat, count: nat, since: nat, e: Entry)
    requires GatheredWell(g, db, history, base, count, since) && g.health.Running?
    requires e.position == base + count && IsRowOf(e, e.message.kind, history, db, g.clock)
    ensures GatheredWell(g.(rows := g.rows.Put(e)), db, history, base, count + 1, since)
  {
    PutKeepsRows(g.rows, e);
    PutKeepsOrder(g.rows, e, history, db, g.clock, base);
    MoreRowsStillSettled(g.rows, g.rows.Put(e), history, db, base, base + count);
    OneMoreSettled(g.rows.Put(e), history, db, base, base + count);
  }

  /** A delivery that is unstorable is settled without a row. */
  lemma NoRowKeepsGathered(g: Gathered, db: Database, history: seq<Delivery>, base: nat, count: nat, since: nat,
      unknown: seq<nat>)
    requires GatheredWell(g, db, history, base, count, since) && RightlyUnknown(unknown, history, db)
    requires g.health.Running? && base + count < |history| && Unstorable(history[base + count], db)
    ensures GatheredWell(g.(unknown := unknown), db, history, base, count + 1, since)
  {
  }

  lemma GatherOneKeeps(g: Gathered, db: Database, history: seq<Delivery>, base: nat, count: nat, next: nat, since: nat,
      m: Message)
    requires AppendOnly(db) && GatheredWell(g, db, history, base, count, since) && next == count + 1
    requires base + count < |history| && history[base + count] == Delivery(m, since)
    ensures GatheredWell(GatherOne(g, db, base + count, m), db, history, base, next, since)
    ensures g.clock <= GatherOne(g, db, base + count, m).clock
  {
    if g.health.Running? {
      var p, f := base + count, GetItem(g.cache, db, g.clock, m);
      var h := g.(cache := f.cache, clock := f.clock);
      FetchIsHonest(g.cache, db, g.clock, since, m);
      WaitingKeeps(g, h, db, history, base, count, since);
      match f.answer {
        case Formatted(row) => RowKeepsGathered(h, db, history, base, count, since, Entry(p, m, row));
        case Unknown => NoRowKeepsGathered(h, db, history, base, count, since, g.unknown + [p]);
        case Malformed => NoRowKeepsGathered(h, db, history, base, count, since, g.unknown);
        case ConnectionLost =>
        case Raised =>
      }
    }
  }

  lemma {:induction false} GatherKeeps(s: State, db: Database, base: nat, items: seq<Message>, since: nat, n: nat)
    requires AppendOnly(db) && Faithful(s.cache, db, s.clock, since) && RightlyUnknown(s.unknown, s.history, db)
    requires InBatch(s.history, base, items, since) && n <= |items|
    ensures GatheredWell(Gather(s, db, base, items, n), db, s.history, base, n, since)
    ensures s.clock <= Gather(s, db, base, items, n).clock
  {
    if n > 0 {
      GatherKeeps(s, db, base, items, since, n - 1);
      GatherOneKeeps(Gather(s, db, base, items, n - 1), db, s.history, base, n - 1, n, since, items[n - 1]);
    }
  }

  /** What holds while a batch is handled. */
  ghost predicate Handling(s: State, db: Database, since: nat) {
    && AllInOrder(s.tables, s.history, db, s.clock)
    && RightlyUnknown(s.unknown, s.history, db)
    && RightlyAcked(s.acked, s.tables, s.history, db)
    && (s.health.Running? ==> Faithful(s.cache, db, s.clock, since))
    && since <= s.clock
  }

  lemma MoreRowsStillAcked(acked: seq<nat>, t: Tables, u: Tables, history: seq<Delivery>, db: Database)
    requires RightlyAcked(acked, t, history, db)
    requires KeepsRows(t, u)
    ensures RightlyAcked(acked, u, history, db)
  {
  }

  /** All deliveries of a committed batch are settled, and may be acknowledged. */
  lemma AckingIsRight(acked: seq<nat>, t: Tables, history: seq<Delivery>, db: Database, base: nat, count: nat)
    requires RightlyAcked(acked, t, history, db) && forall k: nat :: k < |acked| ==> acked[k] < base
    requires AllSettled(t, history, db, base, base + count)
    ensures RightlyAcked(acked + Interval(base, base + count), t, history, db)
  {
  }

  lemma StoreKeeps(s: State, db: Database, base: nat, items: seq<Message>, since: nat)
    requires AppendOnly(db) && Handling(s, db, since) && s.health.Running? && InBatch(s.history, base, items, since)
    requires Within(s.tables, 0, base) && forall k: nat :: k < |s.acked| ==> s.acked[k] < base
    ensures var r := Store(s, db, base, items);
            && Handling(r, db, since) && r.history == s.history
            && (r.health.Failed? ==> r.tables == s.tables)
  {
    var g, r := Gather(s, db, base, items, |items|), Store(s, db, base, items);
    GatherKeeps(s, db, base, items, since, |items|);
    LaterIsStillInOrder(s.tables, s.history, [], db, s.clock, r.clock);
    LaterIsStillInOrder(g.rows, s.history, [], db, g.clock, r.clock);
    assert s.history + [] == s.history;
    if g.health.Running? && !db.reply(g.clock).Refused? {
      JoinKeepsOrder(s.tables, g.rows, s.history, db, r.clock, base, base + |items|);
      MoreRowsStillAcked(s.acked, s.tables, s.tables.Join(g.rows), s.history, db);
      if db.reply(g.clock).Fine? {
        MoreRowsStillSettled(g.rows, s.tables.Join(g.rows), s.history, db, base, base + |items|);
        AckingIsRight(s.acked, s.tables.Join(g.rows), s.history, db, base, |items|);
      }
    }
  }

  lemma TimePasses(s: State, db: Database, since: nat, later: nat)
    requires AppendOnly(db) && Handling(s, db, since) && s.clock <= later
    ensures Handling(s.(clock := later), db, since)
  {
    LaterIsStillInOrder(s.tables, s.history, [], db, s.clock, later);
    assert s.history + [] == s.history;
  }

  lemma RowKeeps(s: State, db: Database, e: Entry, since: nat)
    requires AppendOnly(db) && Handling(s, db, since) && Within(s.tables, 0, e.position)
    requires IsRowOf(e, e.message.kind, s.history, db, s.clock)
    ensures Handling(s.(tables := s.tables.Put(e)), db, since) && Within(s.tables.Put(e), 0, e.position + 1)
  {
    PutKeepsRows(s.tables, e);
    PutKeepsOrder(s.tables, e, s.history, db, s.clock, 0);
    MoreRowsStillAcked(s.acked, s.tables, s.tables.Put(e), s.history, db);
  }

  lemma StoreRowKeeps(s: State, db: Database, e: Entry, since: nat)
    requires AppendOnly(db) && Handling(s, db, since) && s.health.Running? && Within(s.tables, 0, e.position)
    requires IsRowOf(e, e.message.kind, s.history, db, s.clock)
    ensures var r := StoreRow(s, db, e);
            Handling(r, db, since) && r.history == s.history && Within(r.tables, 0, e.position + 1)
  {
    var r := StoreRow(s, db, e);
    RowKeeps(s, db, e, since);
    TimePasses(s, db, since, r.clock);
    TimePasses(s.(tables := s.tables.Put(e)), db, since, r.clock);
    assert r.tables == s.tables || r.tables == s.tables.Put(e);
  }

  /** What holds before the item at `position` is stored. */
  ghost predicate Storing(t: State, db: Database, since: nat, history: seq<Delivery>, position: nat) {
    Handling(t, db, since) && t.history == history && Within(t.tables, 0, position)
  }

  lemma StoreOneKeeps(s: State, db: Database, position: nat, m: Message, since: nat)
    requires AppendOnly(db) && Storing(s, db, since, s.history, position)
    requires position < |s.history| && s.history[position] == Delivery(m, since)
    ensures Storing(StoreOne(s, db, position, m), db, since, s.history, position + 1)
  {
    if s.health.Running? {
      var f := GetItem(s.cache, db, s.clock, m);
      FetchIsHonest(s.cache, db, s.clock, since, m);
      TimePasses(s, db, since, f.clock);
      var t := s.(cache := f.cache, clock := f.clock);
      if f.answer.Formatted? {
        StoreRowKeeps(t, db, Entry(position, m, f.answer.row), since);
      }
    }
  }

  /** What every turn keeps holds after any number of turns. */
  lemma {:induction false} StoreEachInvariant(s: State, db: Database, base: nat, items: seq<Message>, n: nat,
      inv: (State, nat) -> bool)
    requires n <= |items| && inv(s, base)
    requires forall t, p: nat, k: nat :: k < n && p == base + k && inv(t, p) ==> inv(StoreOne(t, db, p, items[k]), p + 1)
    ensures inv(StoreEach(s, db, base, items, n), base + n)
  {
    if n > 0 {
      StoreEachInvariant(s, db, base, items, n - 1, inv);
    }
  }

  lemma StoreEachKeeps(s: State, db: Database, base: nat, items: seq<Message>, since: nat, n: nat)
    requires AppendOnly(db) && Handling(s, db, since) && Within(s.tables, 0, base)
    requires InBatch(s.history, base, items, since) && n <= |items|
    ensures Storing(StoreEach(s, db, base, items, n), db, since, s.history, base + n)
  {
    var inv := (t: State, p: nat) => Storing(t, db, since, s.history, p);
    forall t, p: nat, k: nat | k < n && p == base + k && inv(t, p) ensures inv(StoreOne(t, db, p, items[k]), p + 1) {
      StoreOneKeeps(t, db, p, items[k], since);
    }
    StoreEachInvariant(s, db, base, items, n, inv);
  }

  /** What was refused before the item at `position` is stored. */
  ghost predicate Refusing(t: State, db: Database, since: nat, history: seq<Delivery>, position: nat) {
    && t.history == history && since <= t.clock && RightlyRefused(t.refused, history, db, t.clock)
    && forall k: nat :: k < |t.refused| ==> t.refused[k].position < position
  }

  /** A turn reports at most its own item, and only when its last request was refused. */
  lemma StoreOneReports(s: State, db: Database, position: nat, m: Message)
    ensures var r := StoreOne(s, db, position, m);
            && r.history == s.history && r.acked == s.acked && s.clock <= r.clock
            && ReportsOneMore(db, s.clock, s.refused, r.clock, r.refused, position)
  {
  }

  predicate ReportsOneMore(db: Database, clock: nat, refused: seq<Refusal>, later: nat, more: seq<Refusal>, position: nat) {
    || more == refused
    || (clock < later && db.reply(later - 1).Refused? && more == refused + [Refusal(position, later - 1)])
  }

  lemma RefusedOneMore(refused: seq<Refusal>, more: seq<Refusal>, history: seq<Delivery>, db: Database, clock: nat,
      later: nat, position: nat)
    requires RightlyRefused(refused, history, db, clock) && clock <= later
    requires forall k: nat :: k < |refused| ==> refused[k].position < position
    requires position < |history| && history[position].arrived <= clock
    requires ReportsOneMore(db, clock, refused, later, more, position)
    ensures RightlyRefused(more, history, db, later)
    ensures forall k: nat :: k < |more| ==> more[k].position < position + 1
  {
  }

  lemma StoreOneRefuses(s: State, db: Database, position: nat, m: Message, since: nat)
    requires Refusing(s, db, since, s.history, position)
    requires position < |s.history| && s.history[position] == Delivery(m, since)
    ensures Refusing(StoreOne(s, db, position, m), db, since, s.history, position + 1)
  {
    var r := StoreOne(s, db, position, m);
    StoreOneReports(s, db, position, m);
    RefusedOneMore(s.refused, r.refused, s.history, db, s.clock, r.clock, position);
  }

  lemma StoreEachRefuses(s: State, db: Database, base: nat, items: seq<Message>, since: nat)
    requires Refusing(s, db, since, s.history, base) && InBatch(s.history, base, items, since)
    ensures Refusing(StoreEach(s, db, base, items, |items|), db, since, s.history, base + |items|)
  {
    var inv := (t: State, p: nat) => Refusing(t, db, since, s.history, p);
    forall t, p: nat, k: nat | k < |items| && p == base + k && inv(t, p) ensures inv(StoreOne(t, db, p, items[k]), p + 1) {
      StoreOneRefuses(t, db, p, items[k], since);
    }
    StoreEachInvariant(s, db, base, items, |items|, inv);
  }

  lemma StoreRefusesNone(s: State, db: Database, items: seq<Message>, a: State, r: State)
    requires AppendOnly(db) && Sound(s, db) && s.health.Running?
    requires a == Arrive(s, items) && r == Store(a, db, |s.history|, items) && InBatch(a.history, |s.history|, items, s.clock)
    ensures Refusing(r, db, s.clock, a.history, |s.history|)
  {
    GatherKeeps(a, db, |s.history|, items, s.clock, |items|);
    assert r.refused == s.refused && r.history == a.history && s.clock <= r.clock;
    forall k: nat | k < |s.refused| ensures a.history[s.refused[k].position] == s.history[s.refused[k].position] {}
  }

  lemma BatchRefuses(s: State, db: Database, items: seq<Message>)
    requires AppendOnly(db) && Sound(s, db) && s.health.Running?
    ensures var r := Batch(s, db, items); RightlyRefused(r.refused, r.history, db, r.clock)
  {
    var base, a := |s.history|, Arrive(s, items);
    ArrivalsKeep(s, db, items);
    var r := Store(a, db, base, items);
    StoreRefusesNone(s, db, items, a, r);
    if r.health.Failed? {
      StoreEachRefuses(r.(cache := NOTHING, health := Running), db, base, items, s.clock);
    }
  }

  lemma ArrivalsKeep(s: State, db: Database, items: seq<Message>)
    requires AppendOnly(db) && Sound(s, db) && s.health.Running?
    ensures var a := Arrive(s, items);
            && Handling(a, db, s.clock) && InBatch(a.history, |s.history|, items, s.clock)
            && Within(a.tables, 0, |s.history|) && forall k: nat :: k < |a.acked| ==> a.acked[k] < |s.history|
  {
    var a := Arrive(s, items);
    forall k: nat | k < |s.acked| ensures a.history[s.acked[k]] == s.history[s.acked[k]] {}
    forall k: nat | k < |s.unknown| ensures a.history[s.unknown[k]] == s.history[s.unknown[k]] {}
    var more := a.history[|s.history|..];
    assert a.history == s.history + more;
    LaterIsStillInOrder(s.tables, s.history, more, db, s.clock, s.clock);
  }

  lemma BatchKeeps(s: State, db: Database, items: seq<Message>)
    requires AppendOnly(db) && Sound(s, db)
    ensures Sound(Batch(s, db, items), db)
  {
    if s.health.Running? {
      var base, a := |s.history|, Arrive(s, items);
      ArrivalsKeep(s, db, items);
      BatchRefuses(s, db, items);
      StoreKeeps(a, db, base, items, s.clock);
      var r := Store(a, db, base, items);
      if r.health.Failed? {
        StoreEachKeeps(r.(cache := NOTHING, health := Running), db, base, items, s.clock, |items|);
      }
      var t := StoreAll(s, db, items);
      if t.health.Running? {
        SweptIsFaithful(t.cache, db, t.clock, s.clock);
      }
    }
  }

  /**
    Over every run of batches and restarts, whatever the database answers: rows are committed in the order of
    their deliveries, at most one for each, for the right execution; acknowledged deliveries were committed or
    are unstorable; only deliveries without an execution when their batch started are dropped as such; and only
    those whose own row the database refused are dropped as refused.
   */
  lemma {:induction false} EveryRunIsSound(db: Database, run: seq<Occasion>)
    requires AppendOnly(db)
    ensures Sound(Run(db, run), db)
  {
    if run != [] {
      EveryRunIsSound(db, run[..|run| - 1]);
      if run[|run| - 1].Items? {
        BatchKeeps(Run(db, run[..|run| - 1]), db, run[|run| - 1].items);
      }
    }
  }

  /** A storable delivery that was acknowledged has exactly one row. */
  lemma AckedIsCommittedOnce(db: Database, run: seq<Occasion>, k: nat)
    requires AppendOnly(db) && k < |Run(db, run).acked|
    ensures var s := Run(db, run);
            && s.acked[k] < |s.history|
            && var d := s.history[s.acked[k]];
               var table := s.tables.Of(d.message.kind);
               !Unstorable(d, db) ==>
                 exists j: nat :: j < |table| && table[j].position == s.acked[k] && table[j].message == d.message
                   && forall i: nat :: i < |table| && i != j ==> table[i].position != s.acked[k]
  {
    EveryRunIsSound(db, run);
    var s := Run(db, run);
    assert Settled(s.acked[k], s.tables, s.history, db);
    var d := s.history[s.acked[k]];
    if !Unstorable(d, db) {
      var table := s.tables.Of(d.message.kind);
      var j: nat :| j < |table| && table[j].position == s.acked[k];
      forall i: nat | i < |table| && i != j ensures table[i].position != s.acked[k] {
        assert if i < j then table[i].position < table[j].position else table[j].position < table[i].position;
      }
    }
  }

  // ----- nothing is lost silently -----

  /** A request to store the row of the delivery, numbered from `first` on, was refused by the database. */
  ghost predicate WasRefused(s: State, db: Database, p: nat, first: nat) {
    exists k: nat :: k < |s.refused| && s.refused[k].position == p
      && first <= s.refused[k].request < s.clock && db.reply(s.refused[k].request).Refused?
  }

  ghost predicate AccountedFor(s: State, db: Database, p: nat, first: nat) {
    p < |s.history| && (Settled(p, s.tables, s.history, db) || WasRefused(s, db, p, first))
  }

  ghost predicate Accounted(s: State, db: Database, low: nat, high: nat, first: nat) {
    forall p: nat :: low <= p < high ==> AccountedFor(s, db, p, first)
  }

  /** Rows and reports of refused rows are only appended. */
  predicate Grows(s: State, r: State) {
    && r.history == s.history && s.refused <= r.refused && s.clock <= r.clock
    && s.tables.events <= r.tables.events && s.tables.logs <= r.tables.logs
  }

  lemma StillAccountedFor(s: State, r: State, db: Database, p: nat, first: nat)
    requires Grows(s, r) && AccountedFor(s, db, p, first)
    ensures AccountedFor(r, db, p, first)
  {
    var kind := s.history[p].message.kind;
    if Committed(s.tables, p, kind) {
      var k: nat :| k < |s.tables.Of(kind)| && s.tables.Of(kind)[k].position == p;
      assert r.tables.Of(kind)[k].position == p;
    } else if WasRefused(s, db, p, first) {
      var k: nat :| k < |s.refused| && s.refused[k].position == p
        && first <= s.refused[k].request < s.clock && db.reply(s.refused[k].request).Refused?;
      assert r.refused[k] == s.refused[k];
    }
  }

  /** An item that the publisher survives is committed, unstorable, or its row was refused. */
  lemma StoreOneAccounts(s: State, db: Database, position: nat, m: Message, since: nat, first: nat)
    requires first <= s.clock && AppendOnly(db) && (s.health.Running? ==> Faithful(s.cache, db, s.clock, since))
    requires position < |s.history| && s.history[position] == Delivery(m, since)
    ensures StoreOne(s, db, position, m).health.Running? ==> AccountedFor(StoreOne(s, db, position, m), db, position, first)
  {
    if s.health.Running? {
      FetchIsHonest(s.cache, db, s.clock, since, m);
      var answer := GetItem(s.cache, db, s.clock, m).answer;
      if answer.Formatted? {
        PutKeepsRows(s.tables, Entry(position, m, answer.row));
        var r := StoreOne(s, db, position, m);
        assert |r.refused| > |s.refused| ==> r.refused[|s.refused|] == Refusal(position, r.clock - 1);
      }
    }
  }

  /** As `Storing`, and `p` is accounted for once its turn is over. */
  ghost predicate Accounting(t: State, db: Database, since: nat, history: seq<Delivery>, position: nat, p: nat, first: nat) {
    && Storing(t, db, since, history, position) && first <= t.clock
    && (t.health.Running? && p < position ==> AccountedFor(t, db, p, first))
  }

  lemma StoreOneGrows(s: State, db: Database, position: nat, m: Message)
    ensures Grows(s, StoreOne(s, db, position, m))
  {
  }

  lemma TurnAccounts(t: State, db: Database, q: nat, m: Message, since: nat, history: seq<Delivery>, p: nat, first: nat)
    requires AppendOnly(db) && Accounting(t, db, since, history, q, p, first)
    requires q < |history| && history[q] == Delivery(m, since)
    ensures Accounting(StoreOne(t, db, q, m), db, since, history, q + 1, p, first)
  {
    var r := StoreOne(t, db, q, m);
    StoreOneKeeps(t, db, q, m, since);
    StoreOneAccounts(t, db, q, m, since, first);
    StoreOneGrows(t, db, q, m);
    if r.health.Running? && p < q {
      StillAccountedFor(t, r, db, p, first);
    }
  }

  lemma StoreEachAccounts(s: State, db: Database, base: nat, items: seq<Message>, since: nat, p: nat)
    requires AppendOnly(db) && Storing(s, db, since, s.history, base)
    requires InBatch(s.history, base, items, since) && base <= p
    ensures var r := StoreEach(s, db, base, items, |items|);
            r.health.Running? && p < base + |items| ==> AccountedFor(r, db, p, s.clock)
  {
    var inv := (t: State, q: nat) => Accounting(t, db, since, s.history, q, p, s.clock);
    forall t, q: nat, k: nat | k < |items| && q == base + k && inv(t, q) ensures inv(StoreOne(t, db, q, items[k]), q + 1) {
      TurnAccounts(t, db, q, items[k], since, s.history, p, s.clock);
    }
    StoreEachInvariant(s, db, base, items, |items|, inv);
  }

  lemma AckedAreSettled(s: State, db: Database, since: nat, before: seq<nat>, base: nat, count: nat)
    requires Handling(s, db, since) && s.acked == before + Interval(base, base + count) && base + count <= |s.history|
    ensures AllSettled(s.tables, s.history, db, base, base + count)
  {
    forall p: nat | base <= p < base + count ensures Settled(p, s.tables, s.history, db) {
      assert s.acked[|before| + (p - base)] == p;
    }
  }

  /** The number of the first request after the commit of the batch. */
  function AfterCommit(s: State, db: Database, items: seq<Message>): nat {
    Store(Arrive(s, items), db, |s.history|, items).clock
  }

  /**
    Every delivery of a batch that the publisher survives is committed or unstorable, or the database refused a
    request to store its own row, made after the commit of the batch had failed.
   */
  lemma SurvivedBatchIsAccounted(s: State, db: Database, items: seq<Message>)
    requires AppendOnly(db) && Sound(s, db) && s.health.Running? && Batch(s, db, items).health.Running?
    ensures Accounted(Batch(s, db, items), db, |s.history|, |s.history| + |items|, AfterCommit(s, db, items))
  {
    var base, a := |s.history|, Arrive(s, items);
    ArrivalsKeep(s, db, items);
    StoreKeeps(a, db, base, items, s.clock);
    var r := Store(a, db, base, items);
    if r.health.Failed? {
      forall p: nat | base <= p < base + |items| ensures AccountedFor(Batch(s, db, items), db, p, r.clock) {
        StoreEachAccounts(r.(cache := NOTHING, health := Running), db, base, items, s.clock, p);
      }
    } else {
      AckedAreSettled(r, db, s.clock, a.acked, base, |items|);
    }
  }

  /** The requests numbered from `low` on and before `high` get an answer. */
  ghost predicate Answers(db: Database, low: nat, high: nat) {
    forall t: nat :: low <= t < high ==> db.reply(t).Fine?
  }

  predicate Sendable(m: Message) {
    m.execution.Some? && !m.shape.Broken?
  }

  lemma {:induction false} GatherHealthy(s: State, db: Database, base: nat, items: seq<Message>, n: nat)
    requires n <= |items| && Answers(db, s.clock, Gather(s, db, base, items, n).clock)
    requires forall k: nat :: k < |items| ==> Sendable(items[k])
    ensures s.clock <= Gather(s, db, base, items, n).clock && Gather(s, db, base, items, n).health.Running?
  {
    if n > 0 {
      var g := Gather(s, db, base, items, n - 1);
      assert g.clock <= GatherOne(g, db, base + (n - 1), items[n - 1]).clock;
      GatherHealthy(s, db, base, items, n - 1);
    }
  }

  lemma {:induction false} StoreEachTakesTime(s: State, db: Database, base: nat, items: seq<Message>, n: nat)
    requires n <= |items|
    ensures s.clock <= StoreEach(s, db, base, items, n).clock
  {
    if n > 0 {
      StoreEachTakesTime(s, db, base, items, n - 1);
    }
  }

  /** If the database answers all requests of a batch and no message is broken, it is acknowledged as a whole. */
  lemma HealthyBatchIsAcked(s: State, db: Database, items: seq<Message>)
    requires AppendOnly(db) && Sound(s, db) && s.health.Running?
    requires Answers(db, s.clock, Batch(s, db, items).clock)
    requires forall k: nat :: k < |items| ==> Sendable(items[k])
    ensures var r := Batch(s, db, items);
            && r.health.Running? && r.acked == s.acked + Interval(|s.history|, |s.history| + |items|)
            && forall p: nat :: |s.history| <= p < |r.history| ==> Settled(p, r.tables, r.history, db)
  {
    var base, a, r := |s.history|, Arrive(s, items), Batch(s, db, items);
    StoreEachTakesTime(Store(a, db, base, items).(cache := NOTHING, health := Running), db, base, items, |items|);
    GatherHealthy(a, db, base, items, |items|);
    BatchKeeps(s, db, items);
    forall p: nat | base <= p < |r.history| ensures Settled(p, r.tables, r.history, db) {
      assert r.acked[|s.acked| + (p - base)] == p;
    }
  }

  /** As long as the database has answered since `s`, nothing was reported as refused, and nothing acknowledged. */
  ghost predicate Healthy(s: State, db: Database, t: State) {
    && s.clock <= t.clock
    && (Answers(db, s.clock, t.clock) ==> t.health.Running? && t.refused == s.refused && t.acked == s.acked)
  }

  lemma HealthyTurn(s: State, db: Database, t: State, position: nat, m: Message)
    requires Sendable(m) && Healthy(s, db, t)
    ensures Healthy(s, db, StoreOne(t, db, position, m))
  {
    StoreOneReports(t, db, position, m);
  }

  lemma StoreEachHealthy(s: State, db: Database, base: nat, items: seq<Message>)
    requires s.health.Running? && forall k: nat :: k < |items| ==> Sendable(items[k])
    ensures Healthy(s, db, StoreEach(s, db, base, items, |items|))
  {
    var inv := (t: State, q: nat) => Healthy(s, db, t);
    forall t, q: nat, k: nat | k < |items| && q == base + k && inv(t, q) ensures inv(StoreOne(t, db, q, items[k]), q + 1) {
      HealthyTurn(s, db, t, q, items[k]);
    }
    StoreEachInvariant(s, db, base, items, |items|, inv);
  }

  lemma FallbackSettles(s: State, db: Database, base: nat, items: seq<Message>, since: nat)
    requires AppendOnly(db) && Storing(s, db, since, s.history, base) && InBatch(s.history, base, items, since)
    requires s.health.Running? && Answers(db, s.clock, StoreEach(s, db, base, items, |items|).clock)
    requires forall k: nat :: k < |items| ==> Sendable(items[k])
    ensures var r := StoreEach(s, db, base, items, |items|);
            && r.health.Running? && r.acked == s.acked && r.refused == s.refused && r.history == s.history
            && AllSettled(r.tables, s.history, db, base, base + |items|)
  {
    var r := StoreEach(s, db, base, items, |items|);
    StoreEachHealthy(s, db, base, items);
    StoreEachKeeps(s, db, base, items, since, |items|);
    forall p: nat | base <= p < base + |items| ensures Settled(p, r.tables, s.history, db) {
      StoreEachAccounts(s, db, base, items, since, p);
    }
  }

  /**
    If a batch failed, and the database answers all requests from then on, then every delivery of the batch is
    stored after all, unless it is unstorable. None of them is acknowledged.
   */
  lemma FallbackStoresAll(s: State, db: Database, items: seq<Message>)
    requires AppendOnly(db) && Sound(s, db) && s.health.Running?
    requires Store(Arrive(s, items), db, |s.history|, items).health.Failed?
    requires Answers(db, AfterCommit(s, db, items), Batch(s, db, items).clock)
    requires forall k: nat :: k < |items| ==> Sendable(items[k])
    ensures var r := Batch(s, db, items);
            && r.health.Running? && r.acked == s.acked && r.refused == s.refused
            && AllSettled(r.tables, r.history, db, |s.history|, |s.history| + |items|)
  {
    var base, a := |s.history|, Arrive(s, items);
    ArrivalsKeep(s, db, items);
    StoreKeeps(a, db, base, items, s.clock);
    var r := Store(a, db, base, items);
    FailedStoreReportsNothing(a, db, base, items, r);
    FailedBatchIsFallback(s, db, items, r);
    FallbackSettles(r.(cache := NOTHING, health := Running), db, base, items, s.clock);
  }

  lemma FailedStoreReportsNothing(a: State, db: Database, base: nat, items: seq<Message>, r: State)
    requires r == Store(a, db, base, items)
    ensures r.health.Failed? ==> r.acked == a.acked && r.refused == a.refused
  {
  }

  lemma FailedBatchIsFallback(s: State, db: Database, items: seq<Message>, r: State)
    requires s.health.Running? && r == Store(Arrive(s, items), db, |s.history|, items) && r.health.Failed?
    ensures var e, b := StoreEach(r.(cache := NOTHING, health := Running), db, |s.history|, items, |items|), Batch(s, db, items);
            b == e.(cache := b.cache)
  {
  }

  lemma RestartedIsSound(s: State, db: Database, restarted: State)
    requires Sound(s, db) && restarted == Step(s, db, Restart)
    ensures Sound(restarted, db) && restarted.health.Running? && restarted == s.(cache := NOTHING, health := Running)
  {
  }

  /** Whatever happened before: a restarted publisher acknowledges the next batch, if the database answers. */
  lemma RestartRecovers(s: State, db: Database, items: seq<Message>, restarted: State)
    requires AppendOnly(db) && Sound(s, db) && restarted == Step(s, db, Restart)
    requires Answers(db, s.clock, Batch(restarted, db, items).clock) && forall k: nat :: k < |items| ==> Sendable(items[k])
    ensures var r := Batch(restarted, db, items);
            && r.health.Running? && r.acked == s.acked + Interval(|s.history|, |s.history| + |items|)
            && forall p: nat :: |s.history| <= p < |r.history| ==> Settled(p, r.tables, r.history, db)
  {
    RestartedIsSound(s, db, restarted);
    HealthyBatchIsAcked(restarted, db, items);
  }

  // ----- what is remembered, and what is reported -----

  /** An execution that was looked up is in the cache, so looking it up again takes no request. */
  lemma LookedUpOnce(cache: Executions, db: Database, clock: nat, m: Message, later: nat, next: Message)
    requires WellFormed(cache) && |cache.order| <= CACHE_LIMIT
    requires !GetItem(cache, db, clock, m).answer.ConnectionLost? && m.execution.Some? && !db.reply(clock).Refused?
    requires next.execution == m.execution
    ensures var c := GetItem(cache, db, clock, m).cache;
            GetItem(c, db, later, next).cache == c && GetItem(c, db, later, next).clock == later
  {
    if m.execution.value !in cache.entries {
      InsertForgetsTheOldest(cache, CACHE_LIMIT, m.execution.value, Selected(db, clock, m.execution.value));
    }
  }

  /** Its execution was not there at the given time, so not before either. */
  predicate Absent(m: Message, db: Database, clock: nat) {
    m.execution.Some? && m.execution.value !in db.executions(clock)
  }

  /** Whoever asks for an execution that is not there is told so, or the request fails. */
  lemma AbsentIsUnknown(cache: Executions, db: Database, clock: nat, since: nat, m: Message, late: nat)
    requires AppendOnly(db) && Faithful(cache, db, clock, since) && Absent(m, db, late)
    ensures var f := GetItem(cache, db, clock, m); f.clock <= late ==> f.answer in {Unknown, ConnectionLost, Raised}
  {
  }

  /** Every message so far that has no execution is among the reported ones. */
  ghost predicate Reported(unknown: seq<nat>, base: nat, items: seq<Message>, n: nat, db: Database, late: nat) {
    forall k: nat :: k < n && k < |items| && Absent(items[k], db, late) ==> base + k in unknown
  }

  lemma ReportedOneMore(unknown: seq<nat>, more: seq<nat>, base: nat, items: seq<Message>, n: nat, next: nat, db: Database,
      late: nat)
    requires Reported(unknown, base, items, n, db, late) && n < |items| && next == n + 1 && unknown <= more
    requires Absent(items[n], db, late) ==> base + n in more
    ensures Reported(more, base, items, next, db, late)
  {
    forall p | p in unknown ensures p in more {}
  }

  lemma GatherOneReports(g: Gathered, db: Database, position: nat, m: Message, since: nat, late: nat)
    requires AppendOnly(db) && Faithful(g.cache, db, g.clock, since)
    ensures var h := GatherOne(g, db, position, m);
            && g.unknown <= h.unknown && g.clock <= h.clock && (h.health.Running? ==> g.health.Running?)
            && (h.health.Running? && h.clock <= late && Absent(m, db, late) ==> position in h.unknown)
  {
    FetchIsHonest(g.cache, db, g.clock, since, m);
    if Absent(m, db, late) {
      AbsentIsUnknown(g.cache, db, g.clock, since, m, late);
    }
  }

  /** While rows are gathered for a batch: all absences so far are reported, unless something failed. */
  ghost predicate Reporting(g: Gathered, base: nat, items: seq<Message>, n: nat, db: Database, late: nat) {
    g.health.Running? && g.clock <= late ==> Reported(g.unknown, base, items, n, db, late)
  }

  lemma GatherNextReports(g: Gathered, h: Gathered, db: Database, base: nat, items: seq<Message>, n: nat, next: nat, since: nat,
      late: nat)
    requires AppendOnly(db) && Faithful(g.cache, db, g.clock, since) && n < |items| && next == n + 1
    requires h == GatherOne(g, db, base + n, items[n]) && Reporting(g, base, items, n, db, late)
    ensures Reporting(h, base, items, next, db, late)
  {
    GatherOneReports(g, db, base + n, items[n], since, late);
    if h.health.Running? && h.clock <= late {
      ReportedOneMore(g.unknown, h.unknown, base, items, n, next, db, late);
    }
  }

  lemma {:induction false} GatherReports(s: State, db: Database, base: nat, items: seq<Message>, since: nat, n: nat, late: nat)
    requires AppendOnly(db) && Faithful(s.cache, db, s.clock, since) && RightlyUnknown(s.unknown, s.history, db)
    requires InBatch(s.history, base, items, since) && n <= |items|
    ensures Reporting(Gather(s, db, base, items, n), base, items, n, db, late)
  {
    if n > 0 {
      var k: nat, g := n - 1, Gather(s, db, base, items, n - 1);
      assert Faithful(g.cache, db, g.clock, since) by {
        GatherKeeps(s, db, base, items, since, k);
      }
      GatherReports(s, db, base, items, since, k, late);
      GatherNextReports(g, Gather(s, db, base, items, n), db, base, items, k, n, since, late);
    }
  }

  lemma CommittedIsStored(s: State, db: Database, items: seq<Message>, r: State)
    requires s.health.Running? && r == Store(Arrive(s, items), db, |s.history|, items) && r.health.Running?
    ensures var b, g := Batch(s, db, items), Gather(Arrive(s, items), db, |s.history|, items, |items|);
            b.unknown == g.unknown && g.health.Running? && g.clock <= b.clock == r.clock
  {
  }

  lemma CommittedBatchReports(s: State, db: Database, items: seq<Message>)
    requires AppendOnly(db) && Sound(s, db) && s.health.Running? && Store(Arrive(s, items), db, |s.history|, items).health.Running?
    ensures Reported(Batch(s, db, items).unknown, |s.history|, items, |items|, db, Batch(s, db, items).clock)
  {
    var base, a := |s.history|, Arrive(s, items);
    ArrivalsKeep(s, db, items);
    CommittedIsStored(s, db, items, Store(a, db, base, items));
    GatherReports(a, db, base, items, s.clock, |items|, Batch(s, db, items).clock);
  }

  lemma StoreOneReportsAbsent(t: State, db: Database, position: nat, m: Message, since: nat, late: nat, r: State)
    requires AppendOnly(db) && (t.health.Running? ==> Faithful(t.cache, db, t.clock, since))
    requires r == StoreOne(t, db, position, m)
    ensures t.unknown <= r.unknown && t.clock <= r.clock && (r.health.Running? ==> t.health.Running?)
    ensures r.health.Running? && r.clock <= late && Absent(m, db, late) ==> position in r.unknown
  {
    if t.health.Running? {
      FetchIsHonest(t.cache, db, t.clock, since, m);
      if Absent(m, db, late) {
        AbsentIsUnknown(t.cache, db, t.clock, since, m, late);
      }
    }
  }

  /** The same while items are stored one by one; `position` comes next. */
  ghost predicate ReportingEach(t: State, base: nat, items: seq<Message>, position: nat, db: Database, late: nat) {
    t.health.Running? && t.clock <= late ==>
      forall k: nat :: k < |items| && base + k < position && Absent(items[k], db, late) ==> base + k in t.unknown
  }

  lemma TurnReports(t: State, db: Database, base: nat, items: seq<Message>, since: nat, history: seq<Delivery>, q: nat, k: nat,
      late: nat)
    requires AppendOnly(db) && Storing(t, db, since, history, q) && ReportingEach(t, base, items, q, db, late)
    requires k < |items| && q == base + k && q < |history| && history[q] == Delivery(items[k], since)
    ensures ReportingEach(StoreOne(t, db, q, items[k]), base, items, q + 1, db, late)
  {
    var r := StoreOne(t, db, q, items[k]);
    StoreOneReportsAbsent(t, db, q, items[k], since, late, r);
    forall p | p in t.unknown ensures p in r.unknown {}
  }

  lemma StoreEachReports(s: State, db: Database, base: nat, items: seq<Message>, since: nat, late: nat)
    requires AppendOnly(db) && Storing(s, db, since, s.history, base) && InBatch(s.history, base, items, since)
    ensures ReportingEach(StoreEach(s, db, base, items, |items|), base, items, base + |items|, db, late)
  {
    var inv := (t: State, q: nat) => Storing(t, db, since, s.history, q) && ReportingEach(t, base, items, q, db, late);
    forall t, q: nat, k: nat | k < |items| && q == base + k && inv(t, q) ensures inv(StoreOne(t, db, q, items[k]), q + 1) {
      StoreOneKeeps(t, db, q, items[k], since);
      TurnReports(t, db, base, items, since, s.history, q, k, late);
    }
    StoreEachInvariant(s, db, base, items, |items|, inv);
  }

  lemma FailedBatchReports(s: State, db: Database, items: seq<Message>)
    requires AppendOnly(db) && Sound(s, db) && s.health.Running? && Batch(s, db, items).health.Running?
    requires Store(Arrive(s, items), db, |s.history|, items).health.Failed?
    ensures Reported(Batch(s, db, items).unknown, |s.history|, items, |items|, db, Batch(s, db, items).clock)
  {
    var base, a := |s.history|, Arrive(s, items);
    ArrivalsKeep(s, db, items);
    StoreKeeps(a, db, base, items, s.clock);
    var r := Store(a, db, base, items);
    FailedBatchIsFallback(s, db, items, r);
    StoreEachReports(r.(cache := NOTHING, health := Running), db, base, items, s.clock, Batch(s, db, items).clock);
  }

  /** In a batch that the publisher survives, every message whose execution is still not there at its end is reported. */
  lemma SurvivedBatchReports(s: State, db: Database, items: seq<Message>)
    requires AppendOnly(db) && Sound(s, db) && s.health.Running? && Batch(s, db, items).health.Running?
    ensures Reported(Batch(s, db, items).unknown, |s.history|, items, |items|, db, Batch(s, db, items).clock)
  {
    if Store(Arrive(s, items), db, |s.history|, items).health.Failed? {
      FailedBatchReports(s, db, items);
    } else {
      CommittedBatchReports(s, db, items);
    }
  }

  // ----- the publisher itself -----

  /** The cache is its own object; the other fields are what has become of the deliveries. */
  class DBLogEventPublisher {
    var cache: LimitedSizeDict<Option<Row>>
    var clock: nat
    var tables: Tables
    var acked: seq<nat>
    var unknown: seq<nat>
    var refused: seq<Refusal>
    var history: seq<Delivery>
    var health: Health

    ghost function Now(): State
      reads this, cache
    {
      State(cache.Contents(), clock, tables, acked, unknown, refused, history, health)
    }

    ghost predicate Valid()
      reads this, cache
    {
      cache.Valid() && cache.limit == CACHE_LIMIT
    }

    constructor ()
      ensures Valid() && fresh(cache) && Now() == START
    {
      cache := new LimitedSizeDict(CACHE_LIMIT);
      clock, tables, acked, unknown, refused, history, health := 0, Tables([], []), [], [], [], [], Running;
    }

    method ResetCache()
      modifies this`cache
      ensures Valid() && fresh(cache) && Now() == old(Now()).(cache := NOTHING)
    {
      cache := new LimitedSizeDict(CACHE_LIMIT);
    }

    method SanitizeCache()
      requires Valid()
      modifies cache
      ensures Valid() && Now() == old(Now()).(cache := Sweep(old(cache.Contents()), old(cache.order)))
    {
      var keys := cache.order;
      for k := 0 to |keys|
        invariant Valid() && cache.Contents() == Sweep(old(cache.Contents()), keys[..k])
      {
        assert keys[..k + 1][..k] == keys[..k];
        if keys[k] in cache.entries && cache.entries[keys[k]].None? {
          cache.Pop(keys[k]);
        }
      }
      assert keys[..|keys|] == keys;
    }

    method GetDbItem(db: Database, m: Message) returns (answer: Answer)
      requires Valid()
      modifies this`clock, cache
      ensures Valid()
      ensures var f := GetItem(old(cache.Contents()), db, old(clock), m);
              answer == f.answer && Now() == old(Now()).(cache := f.cache, clock := f.clock)
    {
      if m.execution.None? {
        return Raised;
      }
      var id := m.execution.value;
      if id !in cache.entries {
        var reply, execution := db.reply(clock), Selected(db, clock, id);
        clock := clock + 1;
        if reply.Lost? {
          return ConnectionLost;
        } else if reply.Refused? {
          return Raised;
        }
        InsertForgetsTheOldest(cache.Contents(), CACHE_LIMIT, id, execution);
        cache.Set(id, execution);
      }
      answer := Format(m, cache.entries[id]);
    }

    /** Only a delivery that was committed or is unstorable may be acknowledged. */
    method Ack(ghost db: Database, position: nat)
      requires position < |history| && Settled(position, tables, history, db)
      modifies this`acked
      ensures acked == old(acked) + [position]
    {
      acked := acked + [position];
    }

    ghost function Gathering(rows: Tables): Gathered
      reads this, cache
    {
      Gathered(cache.Contents(), clock, rows, unknown, health)
    }

    method GatherRow(db: Database, base: nat, items: seq<Message>, k: nat, rows: Tables, ghost start: State)
      returns (more: Tables)
      requires Valid() && k < |items| && Gathering(rows) == Gather(start, db, base, items, k)
      modifies this`clock, this`unknown, this`health, cache
      ensures Valid() && Gathering(more) == Gather(start, db, base, items, k + 1)
    {
      more := rows;
      if health.Running? {
        var answer := GetDbItem(db, items[k]);
        match answer {
          case Formatted(row) => more := rows.Put(Entry(base + k, items[k], row));
          case Unknown => unknown := unknown + [base + k];
          case Malformed =>
          case ConnectionLost => health := Dead;
          case Raised => health := Failed;
        }
      }
    }

    method GatherRows(db: Database, base: nat, items: seq<Message>) returns (rows: Tables)
      requires Valid() && health.Running?
      modifies this`clock, this`unknown, this`health, cache
      ensures Valid() && Gathering(rows) == Gather(old(Now()), db, base, items, |items|)
    {
      rows := Tables([], []);
      ghost var start := Now();
      for k := 0 to |items|
        invariant Valid() && Gathering(rows) == Gather(start, db, base, items, k)
      {
        rows := GatherRow(db, base, items, k, rows, start);
      }
    }

    method AckAll(ghost db: Database, base: nat, count: nat)
      requires AllSettled(tables, history, db, base, base + count)
      modifies this`acked
      ensures acked == old(acked) + Interval(base, base + count)
    {
      for k := 0 to count
        invariant acked == old(acked) + Interval(base, base + k)
      {
        Ack(db, base + k);
        assert Interval(base, base + k + 1) == Interval(base, base + k) + [base + k];
      }
    }

    method StoreBatch(db: Database, base: nat, items: seq<Message>)
      requires Valid() && health.Running? && AppendOnly(db) && InBatch(history, base, items, clock)
      requires Handling(Now(), db, clock) && Within(tables, 0, base) && forall k: nat :: k < |acked| ==> acked[k] < base
      modifies this`clock, this`tables, this`acked, this`unknown, this`health, cache
      ensures Valid() && Now() == Store(old(Now()), db, base, items)
    {
      ghost var before := Now();
      StoreKeeps(before, db, base, items, clock);
      var rows := GatherRows(db, base, items);
      if health.Running? {
        var reply := db.reply(clock);
        clock := clock + 1;
        if reply.Refused? {
          health := Failed;
        } else {
          if reply.Fine? || reply.stored {
            tables := tables.Join(rows);
          }
          if reply.Lost? {
            health := Dead;
          } else {
            AckedAreSettled(Store(before, db, base, items), db, before.clock, before.acked, base, |items|);
            AckAll(db, base, |items|);
          }
        }
      }
    }

    method InsertRow(db: Database, e: Entry)
      requires Valid() && health.Running?
      modifies this`clock, this`tables, this`refused, this`health
      ensures Valid() && Now() == StoreRow(old(Now()), db, e)
    {
      var reply := db.reply(clock);
      clock := clock + 1;
      match reply {
        case Fine => tables := tables.Put(e);
        case Lost(stored) =>
          if stored {
            tables := tables.Put(e);
          }
          health := Dead;
        case Refused => refused := refused + [Refusal(e.position, clock - 1)];
      }
    }

    /** The next item; what became of those before it is given by `start`. */
    method StoreItem(db: Database, base: nat, items: seq<Message>, k: nat, ghost start: State)
      requires Valid() && k < |items| && Now() == StoreEach(start, db, base, items, k)
      modifies this`clock, this`tables, this`unknown, this`refused, this`health, cache
      ensures Valid() && Now() == StoreEach(start, db, base, items, k + 1)
    {
      if health.Running? {
        var answer := GetDbItem(db, items[k]);
        match answer {
          case Formatted(row) => InsertRow(db, Entry(base + k, items[k], row));
          case Unknown => unknown := unknown + [base + k];
          case Malformed =>
          case ConnectionLost => health := Dead;
          case Raised => health := Dead;
        }
      }
    }

    method StoreNoBatch(db: Database, base: nat, items: seq<Message>)
      requires Valid()
      modifies this`clock, this`tables, this`unknown, this`refused, this`health, cache
      ensures Valid() && Now() == StoreEach(old(Now()), db, base, items, |items|)
    {
      ghost var start := Now();
      for k := 0 to |items|
        invariant Valid() && Now() == StoreEach(start, db, base, items, k)
      {
        StoreItem(db, base, items, k, start);
      }
    }

    /** One round of the publisher's loop, for the items of one batch. */
    method Publish(db: Database, items: seq<Message>)
      requires Valid() && AppendOnly(db) && Sound(Now(), db)
      modifies this, cache
      ensures Valid() && Now() == Batch(old(Now()), db, items) && Sound(Now(), db)
      ensures cache == old(cache) || fresh(cache)
    {
      ghost var before := Now();
      BatchKeeps(before, db, items);
      if !health.Running? {
        return;
      }
      var base := |history|;
      ArrivalsKeep(before, db, items);
      var now := clock;
      history := history + seq(|items|, k requires 0 <= k < |items| => Delivery(items[k], now));
      assert Now() == Arrive(before, items);
      StoreBatch(db, base, items);
      if health.Failed? {
        ResetCache();
        health := Running;
        StoreNoBatch(db, base, items);
      }
      if health.Running? {
        SanitizeCache();
      }
    }
  }
}
