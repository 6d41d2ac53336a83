/** The Python cortex's store flusher: the request threads and the flusher thread share the
    pending settings and a capped record queue.  Each lock section and each store call is one
    atomic step; a run is any interleaving of them, with any store call failing. */
module Flusher {
  import opened Options
  import opened Seqs

  type Value = string

  const PENDING_RECORDS_MAX := 5000

  /** A logged record; `id` is its place in the log, kept here to tell equal records apart. */
  datatype Record = Record(id: nat, ts: real, kind: string, detail: string)

  datatype Store = Store(settings: map<string, Value>, events: seq<Record>)

  /** Where the flusher thread stands, and what it holds. */
  datatype Flush =
    | Idle
    | Saving(pending: map<string, Value>, records: seq<Record>)
    | Writing(pending: map<string, Value>, records: seq<Record>, done: nat)
    | Failing(records: seq<Record>)

  datatype Memory = Memory(
    persisted: set<string>, // the settings: the keys the store may hold
    state: map<string, Value>, pending: map<string, Value>, queue: seq<Record>, dbDown: bool,
    store: Option<Store>, flush: Flush,
    logged: nat,          // records logged so far
    dropped: set<nat>)    // ids dropped as oldest past the cap

  datatype Action =
    | SetState(fields: map<string, Value>)
    | LogEvent(ts: real, kind: string, detail: string)
    | Take
    | SaveOk
    | SaveFail(kept: set<string>) // some of the settings may have been written
    | AddOk
    | AddFail(stored: bool)       // the record may have been written
    | Requeue
    | Done

  predicate Enabled(m: Memory, a: Action) {
    match a
    case SetState(_) => true
    case LogEvent(_, _, _) => true
    case Take => m.flush.Idle?
    case SaveOk => m.flush.Saving? && m.store.Some?
    case SaveFail(_) => m.flush.Saving? && m.store.Some?
    case AddOk => m.flush.Writing? && m.store.Some? && m.flush.done < |m.flush.records|
    case AddFail(_) => m.flush.Writing? && m.store.Some? && m.flush.done < |m.flush.records|
    case Requeue => m.flush.Failing?
    case Done => m.flush.Writing? && m.flush.done == |m.flush.records|
  }

  /** The newest of a queue, at most the cap. */
  function Capped(queue: seq<Record>): seq<Record> {
    if |queue| > PENDING_RECORDS_MAX then queue[|queue| - PENDING_RECORDS_MAX..] else queue
  }

  function Ids(records: seq<Record>): set<nat> { set r | r in records :: r.id }

  function Only(fields: map<string, Value>, keys: set<string>): map<string, Value> {
    map k | k in fields && k in keys :: fields[k]
  }

  function Next(m: Memory, a: Action): Memory
    requires Enabled(m, a)
  {
    match a
    case SetState(fields) =>
      m.(state := m.state + fields, pending := m.pending + Only(fields, m.persisted))
    case LogEvent(ts, kind, detail) =>
      var queue := m.queue + [Record(m.logged, ts, kind, detail)];
      m.(queue := Capped(queue), logged := m.logged + 1,
         dropped := m.dropped + Ids(queue[..|queue| - |Capped(queue)|]))
    case Take =>
      m.(queue := [],
         flush := if m.store.None? then Failing(m.queue)
                  else if m.pending == map[] && m.queue == [] then Idle
                  else if m.pending == map[] then Writing(map[], m.queue, 0)
                  else Saving(m.pending, m.queue))
    case SaveOk =>
      m.(store := Some(m.store.value.(settings := m.store.value.settings + m.flush.pending)),
         flush := Writing(m.flush.pending, m.flush.records, 0))
    case SaveFail(kept) =>
      var written := Only(m.flush.pending, kept);
      m.(store := Some(m.store.value.(settings := m.store.value.settings + written)),
         flush := Failing(m.flush.records))
    case AddOk =>
      var r := m.flush.records[m.flush.done];
      m.(store := Some(m.store.value.(events := m.store.value.events + [r])),
         flush := m.flush.(done := m.flush.done + 1))
    case AddFail(stored) =>
      var r := m.flush.records[m.flush.done];
      m.(store := if stored then Some(m.store.value.(events := m.store.value.events + [r])) else m.store,
         flush := Failing(m.flush.records))
    case Requeue =>
      m.(queue := m.flush.records + m.queue, dbDown := true, flush := Idle)
    case Done =>
      m.(pending := m.pending - m.flush.pending.Keys, dbDown := false, flush := Idle)
  }

  // ----- the code, one lock section at a time ------------------------------------------------

  class Cortex {
    const persisted: set<string>
    var state: map<string, Value>
    var pending: map<string, Value>
    var queue: seq<Record>
    var dbDown: bool
    var store: Option<Store>
    var flush: Flush
    var logged: nat
    ghost var dropped: set<nat>

    ghost function Now(): Memory
      reads this
    {
      Memory(persisted, state, pending, queue, dbDown, store, flush, logged, dropped)
    }

    constructor (persisted: set<string>, defaults: map<string, Value>, store: Option<Store>)
      ensures Now() == Boot(persisted, defaults, store)
    {
      this.persisted := persisted;
      state, pending, queue, dbDown := defaults, map[], [], false;
      this.store, flush, logged := store, Idle, 0;
      dropped := {};
    }

    /** `fields` has already lost the keys the state does not know. */
    method SetState(fields: map<string, Value>)
      modifies this
      ensures Now() == Next(old(Now()), Action.SetState(fields))
    {
      state := state + fields;
      ghost var was := pending;
      var p := pending;
      var todo := fields.Keys;
      while todo != {}
        invariant todo <= fields.Keys
        invariant p == was + Only(fields, persisted - todo)
        decreases todo
        modifies {}
      {
        var key :| key in todo;
        OnlyStep(fields, persisted, todo, key, was);
        if key in persisted {
          p := p[key := fields[key]];
        }
        todo := todo - {key};
      }
      assert persisted - todo == persisted;
      pending := p;
    }

    method LogEvent(ts: real, kind: string, detail: string)
      modifies this
      ensures Now() == Next(old(Now()), Action.LogEvent(ts, kind, detail))
    {
      queue := queue + [Record(logged, ts, kind, detail)];
      logged := logged + 1;
      ghost var all := queue;
      if |queue| > PENDING_RECORDS_MAX {
        queue := queue[|queue| - PENDING_RECORDS_MAX..];
      }
      dropped := dropped + Ids(all[..|all| - |queue|]);
    }

    method TakeAll()
      requires flush.Idle?
      modifies this
      ensures Now() == Next(old(Now()), Take)
    {
      var records := queue;
      queue := [];
      if store.None? {
        flush := Failing(records);
      } else if pending == map[] && records == [] {
        flush := Idle;
      } else if pending == map[] {
        flush := Writing(map[], records, 0);
      } else {
        flush := Saving(pending, records);
      }
    }

    /** `save_settings`; when it raises, the keys in `kept` may have been written. */
    method Save(raised: bool, kept: set<string>)
      requires flush.Saving? && store.Some?
      modifies this
      ensures Now() == Next(old(Now()), if raised then SaveFail(kept) else SaveOk)
    {
      var written := if raised then Only(flush.pending, kept) else flush.pending;
      store := Some(store.value.(settings := store.value.settings + written));
      flush := if raised then Failing(flush.records) else Writing(flush.pending, flush.records, 0);
    }

    /** `add_event` for the next record of the hand; when it raises, the record may be stored. */
    method Add(raised: bool, stored: bool)
      requires flush.Writing? && store.Some? && flush.done < |flush.records|
      modifies this
      ensures Now() == Next(old(Now()), if raised then AddFail(stored) else AddOk)
    {
      if !raised || stored {
        store := Some(store.value.(events := store.value.events + [flush.records[flush.done]]));
      }
      flush := if raised then Failing(flush.records) else flush.(done := flush.done + 1);
    }

    method PutBack()
      requires flush.Failing?
      modifies this
      ensures Now() == Next(old(Now()), Requeue)
    {
      dbDown := true;
      queue := flush.records + queue;
      flush := Idle;
    }

    method Finish()
      requires flush.Writing? && flush.done == |flush.records|
      modifies this
      ensures Now() == Next(old(Now()), Done)
    {
      pending := pending - flush.pending.Keys;
      dbDown := false;
      flush := Idle;
    }
  }

  lemma OnlyStep(fields: map<string, Value>, keys: set<string>, todo: set<string>, key: string, was: map<string, Value>)
    requires key in todo && todo <= fields.Keys
    ensures was + Only(fields, keys - (todo - {key}))
            == if key in keys then (was + Only(fields, keys - todo))[key := fields[key]]
               else was + Only(fields, keys - todo)
  {
  }

  // ----- runs -----------------------------------------------------------------------------------

  function Boot(persisted: set<string>, defaults: map<string, Value>, store: Option<Store>): Memory {
    Memory(persisted, defaults, map[], [], false, store, Idle, 0, {})
  }

  predicate Legal(m: Memory, actions: seq<Action>)
    decreases |actions|
  {
    actions == [] || (Enabled(m, actions[0]) && Legal(Next(m, actions[0]), actions[1..]))
  }

  function After(m: Memory, actions: seq<Action>): Memory
    requires Legal(m, actions)
    decreases |actions|
  {
    if actions == [] then m else After(Next(m, actions[0]), actions[1..])
  }

  // ----- records --------------------------------------------------------------------------------

  function Hand(m: Memory): seq<Record> { if m.flush.Idle? then [] else m.flush.records }

  /** What the hand still has to write. */
  function Rest(m: Memory): seq<Record> {
    if m.flush.Writing? && m.flush.done <= |m.flush.records| then m.flush.records[m.flush.done..] else Hand(m)
  }

  function Stored(m: Memory): seq<Record> { if m.store.Some? then m.store.value.events else [] }

  ghost predicate InLogOrder(records: seq<Record>) {
    forall i, j :: 0 <= i < j < |records| ==> records[i].id < records[j].id
  }

  predicate Known(records: seq<Record>, logged: nat) { forall r :: r in records ==> r.id < logged }

  predicate HandInRange(m: Memory) { m.flush.Writing? ==> m.flush.done <= |m.flush.records| }

  predicate WrittenIsStored(m: Memory) {
    HandInRange(m) && (m.flush.Writing? ==> forall r :: r in m.flush.records[..m.flush.done] ==> r in Stored(m))
  }

  /** In every run: hand and queue are in log order, and no record is unaccounted for. */
  ghost predicate RecordInv(m: Memory) {
    && WrittenIsStored(m)
    && InLogOrder(Hand(m) + m.queue) && Known(Hand(m) + m.queue, m.logged)
    && Accounted(m)
  }

  ghost predicate Accounted(m: Memory) {
    forall id: nat :: id < m.logged ==>
      id in Ids(Stored(m)) || id in Ids(Hand(m)) || id in Ids(m.queue) || id in m.dropped
  }

  lemma IdsAppend(a: seq<Record>, b: seq<Record>)
    ensures Ids(a + b) == Ids(a) + Ids(b)
  {
    forall id ensures id in Ids(a + b) <==> id in Ids(a) + Ids(b) {
      if id in Ids(a) { var r :| r in a && r.id == id; assert r in a + b; }
      if id in Ids(b) { var r :| r in b && r.id == id; assert r in a + b; }
    }
  }

  lemma LogKeepsRecords(m: Memory, ts: real, kind: string, detail: string)
    requires RecordInv(m)
    ensures RecordInv(Next(m, LogEvent(ts, kind, detail)))
  {
    var r := Record(m.logged, ts, kind, detail);
    var all := m.queue + [r];
    var cut := Cut(m, ts, kind, detail);
    OrderAppend(Hand(m) + m.queue, r);
    Assoc(Hand(m), m.queue, [r]);
    DropMiddle(Hand(m), all, cut);
    LogAccounts(m, Next(m, LogEvent(ts, kind, detail)), r, cut);
  }

  lemma LogAccounts(m: Memory, m': Memory, r: Record, cut: nat)
    requires Accounted(m) && cut <= |m.queue| + 1 && r.id == m.logged && m'.logged == m.logged + 1
    requires m'.store == m.store && m'.flush == m.flush && m'.queue == (m.queue + [r])[cut..]
    requires m'.dropped == m.dropped + Ids((m.queue + [r])[..cut])
    ensures Accounted(m')
  {
    LogIdsKept(m.queue, r, cut);
    forall id: nat | id < m'.logged
      ensures id in Ids(Stored(m)) || id in Ids(Hand(m)) || id in Ids(m'.queue) || id in m'.dropped
    {
      if id == r.id || id in Ids(m.queue) {
        assert id in Ids((m.queue + [r])[..cut]) + Ids(m'.queue);
      }
    }
  }

  lemma LogIdsKept(queue: seq<Record>, r: Record, cut: nat)
    requires cut <= |queue| + 1
    ensures Ids((queue + [r])[..cut]) + Ids((queue + [r])[cut..]) == Ids(queue) + {r.id}
  {
    var all := queue + [r];
    assert all == all[..cut] + all[cut..];
    IdsAppend(all[..cut], all[cut..]);
    IdsAppend(queue, [r]);
    assert r in [r];
  }

  lemma OrderAppend(a: seq<Record>, r: Record)
    requires InLogOrder(a) && Known(a, r.id)
    ensures InLogOrder(a + [r]) && Known(a + [r], r.id + 1)
  {
  }

  lemma DropMiddle(a: seq<Record>, b: seq<Record>, cut: nat)
    requires InLogOrder(a + b) && cut <= |b|
    ensures InLogOrder(a + b[cut..])
    ensures forall r :: r in a + b[cut..] ==> r in a + b
  {
    var s, t := a + b, a + b[cut..];
    forall i, j | 0 <= i < j < |t| ensures t[i].id < t[j].id {
      var i', j' := if i < |a| then i else i + cut, if j < |a| then j else j + cut;
      assert t[i] == s[i'] && t[j] == s[j'];
    }
    forall r | r in t ensures r in s {
      var i :| 0 <= i < |t| && t[i] == r;
      assert t[i] == s[if i < |a| then i else i + cut];
    }
  }

  lemma SuffixInOrder(a: seq<Record>, b: seq<Record>)
    requires InLogOrder(a + b)
    ensures InLogOrder(b)
  {
    forall i, j | 0 <= i < j < |b| ensures b[i].id < b[j].id {
      assert (a + b)[|a| + i] == b[i] && (a + b)[|a| + j] == b[j];
    }
  }

  lemma AddKeepsRecords(m: Memory, a: Action)
    requires RecordInv(m) && Enabled(m, a) && (a.AddOk? || a.AddFail?)
    ensures RecordInv(Next(m, a))
  {
    var r, n := m.flush.records[m.flush.done], m.flush.done;
    IdsAppend(Stored(m), [r]);
    assert m.flush.records[..n + 1] == m.flush.records[..n] + [r];
  }

  /** A flush that is done has every record of its hand in the store. */
  lemma DoneKeepsRecords(m: Memory)
    requires RecordInv(m) && Enabled(m, Done)
    ensures RecordInv(Next(m, Done))
  {
    SuffixInOrder(m.flush.records, m.queue);
    assert [] + m.queue == m.queue;
    assert m.flush.records[..m.flush.done] == m.flush.records;
    forall id | id in Ids(m.flush.records) ensures id in Ids(Stored(m)) {
      var r :| r in m.flush.records && r.id == id;
      assert r in Stored(m);
    }
  }

  lemma StepKeepsRecords(m: Memory, a: Action)
    requires RecordInv(m) && Enabled(m, a)
    ensures RecordInv(Next(m, a))
  {
    var m' := Next(m, a);
    match a {
      case LogEvent(ts, kind, detail) => LogKeepsRecords(m, ts, kind, detail);
      case Take => assert [] + m.queue == m.queue + [];
      case Requeue =>
        IdsAppend(m.flush.records, m.queue);
        assert [] + m'.queue == m'.queue;
      case AddOk => AddKeepsRecords(m, a);
      case AddFail(_) => AddKeepsRecords(m, a);
      case Done => DoneKeepsRecords(m);
      case _ =>
    }
  }

  lemma {:induction false} RunKeepsRecords(m: Memory, actions: seq<Action>)
    requires RecordInv(m) && Legal(m, actions)
    ensures RecordInv(After(m, actions))
    decreases |actions|
  {
    if actions != [] {
      StepKeepsRecords(m, actions[0]);
      RunKeepsRecords(Next(m, actions[0]), actions[1..]);
    }
  }

  /** Over every interleaving and every failure: each record logged is in the store, in the
      flusher's hand, in the queue, or was dropped as oldest past the cap; hand before queue, and
      both in log order. */
  lemma NoRecordIsLost(persisted: set<string>, defaults: map<string, Value>, store: Option<Store>, actions: seq<Action>)
    requires Legal(Boot(persisted, defaults, store), actions)
    ensures var m := After(Boot(persisted, defaults, store), actions);
            && InLogOrder(Hand(m) + m.queue)
            && forall id: nat :: id < m.logged ==>
                 id in Ids(Stored(m)) || id in Ids(Hand(m)) || id in Ids(m.queue) || id in m.dropped
  {
    RunKeepsRecords(Boot(persisted, defaults, store), actions);
  }

  // ----- each record once -----------------------------------------------------------------------

  predicate Calm(actions: seq<Action>) { forall a :: a in actions ==> !a.SaveFail? && !a.AddFail? }

  /** Store, hand and queue, end to end. */
  function Line(m: Memory): seq<Record> { Stored(m) + (Rest(m) + m.queue) }

  /** Each record is on the line, once and in its place, or dropped; never both. */
  ghost predicate LineInv(m: Memory) {
    && HandInRange(m)
    && InLogOrder(Line(m)) && Known(Line(m), m.logged)
    && (forall id: nat :: id < m.logged ==> (id in Ids(Line(m)) <==> id !in m.dropped))
    && (forall id :: id in m.dropped ==> id < m.logged)
  }

  lemma LogShape(m: Memory, ts: real, kind: string, detail: string) returns (cut: nat)
    requires LineInv(m)
    ensures var m' := Next(m, LogEvent(ts, kind, detail));
            var all, front := m.queue + [Record(m.logged, ts, kind, detail)], Stored(m) + Rest(m);
            && cut <= |all| && Line(m) == front + m.queue && Line(m') == front + all[cut..]
            && m'.dropped == m.dropped + Ids(all[..cut])
            && m'.logged == m.logged + 1 && m'.store == m.store && m'.flush == m.flush
  {
    cut := Cut(m, ts, kind, detail);
    Assoc(Stored(m), Rest(m), m.queue);
    Assoc(Stored(m), Rest(m), (m.queue + [Record(m.logged, ts, kind, detail)])[cut..]);
  }

  /** How many records a log drops. */
  lemma Cut(m: Memory, ts: real, kind: string, detail: string) returns (cut: nat)
    ensures var m', all := Next(m, LogEvent(ts, kind, detail)), m.queue + [Record(m.logged, ts, kind, detail)];
            && cut <= |all| && m' == m.(queue := all[cut..], logged := m.logged + 1, dropped := m.dropped + Ids(all[..cut]))
  {
    var all := m.queue + [Record(m.logged, ts, kind, detail)];
    cut := |all| - |Capped(all)|;
  }

  lemma LogKeepsLine(m: Memory, ts: real, kind: string, detail: string)
    requires LineInv(m)
    ensures LineInv(Next(m, LogEvent(ts, kind, detail)))
  {
    var r, front := Record(m.logged, ts, kind, detail), Stored(m) + Rest(m);
    var cut := LogShape(m, ts, kind, detail);
    LogOrder(m, front, m.queue + [r], cut, r);
    LogIds(m, front, m.queue + [r], cut, r);
  }

  lemma LogOrder(m: Memory, front: seq<Record>, all: seq<Record>, cut: nat, r: Record)
    requires LineInv(m) && r.id == m.logged && cut <= |all|
    requires Line(m) == front + m.queue && all == m.queue + [r]
    ensures Line(m) + [r] == front + all && InLogOrder(front + all)
    ensures InLogOrder(front + all[cut..]) && Known(front + all[cut..], m.logged + 1)
  {
    OrderAppend(Line(m), r);
    assert Line(m) + [r] == front + all;
    DropMiddle(front, all, cut);
  }

  lemma LogIds(m: Memory, front: seq<Record>, all: seq<Record>, cut: nat, r: Record)
    requires LineInv(m) && r.id == m.logged && cut <= |all|
    requires Line(m) + [r] == front + all && InLogOrder(front + all)
    ensures var dropped := m.dropped + Ids(all[..cut]);
            && (forall id: nat :: id < m.logged + 1 ==> (id in Ids(front + all[cut..]) <==> id !in dropped))
            && (forall id :: id in dropped ==> id < m.logged + 1)
  {
    DropSplits(front, all, cut);
    IdsAppend(Line(m), [r]);
    assert Ids([r]) == {m.logged} by { assert r in [r]; }
    forall id | id in Ids(Line(m)) ensures id < m.logged {
      var q :| q in Line(m) && q.id == id;
    }
  }

  /** Cutting out the middle of an ordered line takes exactly those ids off it. */
  lemma DropSplits(a: seq<Record>, b: seq<Record>, cut: nat)
    requires InLogOrder(a + b) && cut <= |b|
    ensures Ids(a + b) == Ids(a + b[cut..]) + Ids(b[..cut])
    ensures Ids(a + b[cut..]) !! Ids(b[..cut])
  {
    assert b == b[..cut] + b[cut..];
    IdsAppend(a, b);
    IdsAppend(b[..cut], b[cut..]);
    IdsAppend(a, b[cut..]);
    forall r, q | r in a + b[cut..] && q in b[..cut] ensures r.id != q.id {
      ApartInOrder(a, b, cut, r, q);
    }
  }

  lemma ApartInOrder(a: seq<Record>, b: seq<Record>, cut: nat, r: Record, q: Record)
    requires InLogOrder(a + b) && cut <= |b| && r in a + b[cut..] && q in b[..cut]
    ensures r.id != q.id
  {
    var i :| 0 <= i < |a + b[cut..]| && (a + b[cut..])[i] == r;
    var j :| 0 <= j < cut && b[..cut][j] == q;
    assert (a + b)[|a| + j] == q;
    assert (a + b)[if i < |a| then i else i + cut] == r;
  }

  lemma SameLineKeepsIt(m: Memory, m': Memory)
    requires LineInv(m) && Line(m') == Line(m) && m'.logged == m.logged && m'.dropped == m.dropped
    requires HandInRange(m')
    ensures LineInv(m')
  {
  }

  lemma AddMovesDownTheLine(m: Memory)
    requires LineInv(m) && Enabled(m, AddOk)
    ensures Line(Next(m, AddOk)) == Line(m)
  {
    var n := m.flush.done;
    OneDown(Stored(m), m.flush.records, n, m.queue);
  }

  lemma OneDown(stored: seq<Record>, hand: seq<Record>, n: nat, queue: seq<Record>)
    requires n < |hand|
    ensures (stored + [hand[n]]) + (hand[n + 1..] + queue) == stored + (hand[n..] + queue)
  {
    assert hand[n..] == [hand[n]] + hand[n + 1..];
  }

  lemma TakeMovesDownTheLine(m: Memory)
    requires LineInv(m) && Enabled(m, Take)
    ensures Line(Next(m, Take)) == Line(m)
  {
    assert m.queue + [] == m.queue == [] + m.queue;
    assert m.queue[0..] == m.queue;
  }

  /** A record call that fails having stored nothing of the hand. */
  predicate CleanFailure(m: Memory, a: Action) {
    a.AddFail? && m.flush.Writing? ==> m.flush.done == 0 && !a.stored
  }

  predicate CleanFailures(m: Memory, actions: seq<Action>)
    requires Legal(m, actions)
    decreases |actions|
  {
    actions == [] || (CleanFailure(m, actions[0]) && CleanFailures(Next(m, actions[0]), actions[1..]))
  }

  lemma StepKeepsLine(m: Memory, a: Action)
    requires LineInv(m) && Enabled(m, a) && CleanFailure(m, a)
    ensures LineInv(Next(m, a))
  {
    if a.LogEvent? {
      LogKeepsLine(m, a.ts, a.kind, a.detail);
    } else {
      if a.AddOk? { AddMovesDownTheLine(m); }
      if a.Take? { TakeMovesDownTheLine(m); }
      if a.SaveOk? { assert m.flush.records[0..] == m.flush.records; }
      if a.AddFail? { assert m.flush.records[0..] == m.flush.records; }
      if a.Requeue? { assert m.flush.records + m.queue == [] + (m.flush.records + m.queue); }
      if a.Done? { assert m.flush.records[m.flush.done..] == []; }
      SameLineKeepsIt(m, Next(m, a));
    }
  }

  /** Exactly what a failing record call puts back: a record that is in the store is in the hand
      again if and only if a call before it stored one, or it stored its own. */
  lemma StoredIsPutBackExactlyWhen(m: Memory, stored: bool)
    requires RecordInv(m) && LineInv(m) && Enabled(m, AddFail(stored))
    ensures var m' := Next(m, AddFail(stored));
            (exists r :: r in Hand(m') && r in Stored(m')) <==> m.flush.done > 0 || stored
  {
    var hand, n := m.flush.records, m.flush.done;
    var m' := Next(m, AddFail(stored));
    if stored {
      assert hand[n] in Hand(m') && hand[n] in Stored(m');
    } else if n > 0 {
      assert hand[0] in hand[..n] && hand[0] in Hand(m') && hand[0] in Stored(m');
    } else {
      assert hand[0..] == hand;
      RestNotStored(m);
    }
  }

  lemma RestNotStored(m: Memory)
    requires LineInv(m)
    ensures forall r, q :: r in Rest(m) && q in Stored(m) ==> q.id < r.id
  {
    forall r, q | r in Rest(m) && q in Stored(m) ensures q.id < r.id {
      var i :| 0 <= i < |Stored(m)| && Stored(m)[i] == q;
      var j :| 0 <= j < |Rest(m)| && Rest(m)[j] == r;
      assert Line(m)[i] == q && Line(m)[|Stored(m)| + j] == r;
    }
  }

  /** So a step keeps each record once, in its place, unless it is such a failure. */
  lemma LineIsKeptExactlyWhen(m: Memory, a: Action)
    requires RecordInv(m) && LineInv(m) && Enabled(m, a)
    ensures LineInv(Next(m, a)) <==> CleanFailure(m, a)
  {
    if CleanFailure(m, a) {
      StepKeepsLine(m, a);
    } else {
      StoredIsPutBackExactlyWhen(m, a.stored);
      var m' := Next(m, a);
      var r :| r in Hand(m') && r in Stored(m');
      if LineInv(m') { RestNotStored(m'); }
    }
  }

  lemma {:induction false} RunKeepsLine(m: Memory, actions: seq<Action>)
    requires LineInv(m) && Legal(m, actions) && CleanFailures(m, actions)
    ensures LineInv(After(m, actions))
    decreases |actions|
  {
    if actions != [] {
      StepKeepsLine(m, actions[0]);
      RunKeepsLine(Next(m, actions[0]), actions[1..]);
    }
  }

  /** In a run in which no failing record call has stored anything of its hand, whatever else
      fails: the store holds each record at most once and in log order, the hand continues it, the
      queue continues the hand, and what is missing from the three is exactly what was dropped. */
  lemma CleanRunsStoreOnce(persisted: set<string>, defaults: map<string, Value>, store: Option<Store>, actions: seq<Action>)
    requires var boot := Boot(persisted, defaults, store);
             Stored(boot) == [] && Legal(boot, actions) && CleanFailures(boot, actions)
    ensures var m := After(Boot(persisted, defaults, store), actions);
            && InLogOrder(Line(m))
            && forall id: nat :: id < m.logged ==> (id in Ids(Line(m)) <==> id !in m.dropped)
  {
    RunKeepsLine(Boot(persisted, defaults, store), actions);
  }

  lemma {:induction false} CalmIsClean(m: Memory, actions: seq<Action>)
    requires Legal(m, actions) && Calm(actions)
    ensures CleanFailures(m, actions)
    decreases |actions|
  {
    if actions != [] {
      assert actions[0] in actions;
      CalmIsClean(Next(m, actions[0]), actions[1..]);
    }
  }

  /** In particular in a run without a failing store call. */
  lemma CalmRunsStoreOnce(persisted: set<string>, defaults: map<string, Value>, settings: map<string, Value>,
                         actions: seq<Action>)
    requires var boot := Boot(persisted, defaults, Some(Store(settings, [])));
             Legal(boot, actions) && Calm(actions)
    ensures var m := After(Boot(persisted, defaults, Some(Store(settings, []))), actions);
            && InLogOrder(Line(m))
            && forall id: nat :: id < m.logged ==> (id in Ids(Line(m)) <==> id !in m.dropped)
  {
    CalmIsClean(Boot(persisted, defaults, Some(Store(settings, []))), actions);
    CleanRunsStoreOnce(persisted, defaults, Some(Store(settings, [])), actions);
  }

  /** A record call that fails half way puts the whole hand back, so the first record of the
      hand, already in the store, is the next to be written to it. */
  lemma FailureWritesTwice(m: Memory)
    requires RecordInv(m) && SettingsInv(m) && Enabled(m, AddFail(false)) && m.flush.done > 0
    ensures var m1 := Next(m, AddFail(false));
            var m2 := Next(m1, Requeue);
            var m3 := Next(m2, Take);
            var m4 := if m3.flush.Saving? then Next(m3, SaveOk) else m3;
            Enabled(m4, AddOk) && m.flush.records[0] in Stored(m)
            && Stored(Next(m4, AddOk)) == Stored(m) + [m.flush.records[0]]
  {
    assert m.flush.records[..m.flush.done][0] == m.flush.records[0];
  }

  const EMPTY := Boot({}, map[], Some(Store(map[], [])))
  const A := LogEvent(1.0, "sense", "a")
  const B := LogEvent(2.0, "sense", "b")
  const RECORD_A := Record(0, 1.0, "sense", "a")
  const HAND := [RECORD_A, Record(1, 2.0, "sense", "b")]
  const HALF_WAY := EMPTY.(logged := 2, store := Some(Store(map[], [RECORD_A])), flush := Writing(map[], HAND, 1))

  lemma LogBelowTheCap(m: Memory, ts: real, kind: string, detail: string)
    requires |m.queue| < PENDING_RECORDS_MAX
    ensures Next(m, LogEvent(ts, kind, detail))
            == m.(queue := m.queue + [Record(m.logged, ts, kind, detail)], logged := m.logged + 1)
  {
    assert Ids([]) == {} && m.dropped + {} == m.dropped;
  }

  const LOGGED := EMPTY.(logged := 2, queue := HAND)

  lemma LoggedFromBoot()
    ensures Legal(EMPTY, [A, B]) && After(EMPTY, [A, B]) == LOGGED
  {
    var m1 := EMPTY.(queue := [RECORD_A], logged := 1);
    LogBelowTheCap(EMPTY, 1.0, "sense", "a");
    assert [] + [RECORD_A] == [RECORD_A];
    LogBelowTheCap(m1, 2.0, "sense", "b");
    assert [RECORD_A] + [Record(1, 2.0, "sense", "b")] == HAND;
    Then(m1, B, []);
    Then(EMPTY, A, [B]);
    assert [A] + [B] == [A, B];
  }

  lemma HalfWayFromLogged()
    ensures Legal(LOGGED, [Take, AddOk]) && After(LOGGED, [Take, AddOk]) == HALF_WAY
  {
    var m3 := LOGGED.(queue := [], flush := Writing(map[], HAND, 0));
    assert Next(LOGGED, Take) == m3;
    assert Next(m3, AddOk) == HALF_WAY by { assert [] + [RECORD_A] == [RECORD_A]; }
    Then(m3, AddOk, []);
    Then(LOGGED, Take, [AddOk]);
    assert [Take] + [AddOk] == [Take, AddOk];
  }

  lemma TwiceFromHalfWay()
    ensures Legal(HALF_WAY, [AddFail(false), Requeue, Take, AddOk])
    ensures Stored(After(HALF_WAY, [AddFail(false), Requeue, Take, AddOk])) == [RECORD_A, RECORD_A]
  {
    var m5 := HALF_WAY.(flush := Failing(HAND));
    var m6 := m5.(queue := HAND, dbDown := true, flush := Idle);
    var m7 := m6.(queue := [], flush := Writing(map[], HAND, 0));
    assert Next(HALF_WAY, AddFail(false)) == m5;
    assert Next(m5, Requeue) == m6 by { assert HAND + [] == HAND; }
    assert Next(m6, Take) == m7;
    assert Stored(Next(m7, AddOk)) == [RECORD_A] + [RECORD_A] == [RECORD_A, RECORD_A];
    Then(m7, AddOk, []);
    Then(m6, Take, [AddOk]);
    Then(m5, Requeue, [Take, AddOk]);
    Then(HALF_WAY, AddFail(false), [Requeue, Take, AddOk]);
    assert [AddFail(false)] + [Requeue, Take, AddOk] == [AddFail(false), Requeue, Take, AddOk];
  }

  /** From a boot: two records logged, the first stored, the second's call failing; the store then
      holds the first one twice. */
  lemma TwiceFromBoot()
    ensures Legal(EMPTY, [A, B] + ([Take, AddOk] + [AddFail(false), Requeue, Take, AddOk]))
    ensures Stored(After(EMPTY, [A, B] + ([Take, AddOk] + [AddFail(false), Requeue, Take, AddOk])))
            == [RECORD_A, RECORD_A]
  {
    LoggedFromBoot();
    HalfWayFromLogged();
    TwiceFromHalfWay();
    AfterBoth(LOGGED, [Take, AddOk], [AddFail(false), Requeue, Take, AddOk]);
    AfterBoth(EMPTY, [A, B], [Take, AddOk] + [AddFail(false), Requeue, Take, AddOk]);
  }

  // ----- the cap ----------------------------------------------------------------------------------

  lemma Then(m: Memory, a: Action, rest: seq<Action>)
    requires Enabled(m, a) && Legal(Next(m, a), rest)
    ensures Legal(m, [a] + rest) && After(m, [a] + rest) == After(Next(m, a), rest)
  {
    assert ([a] + rest)[1..] == rest;
  }

  lemma {:induction false} AfterBoth(m: Memory, a: seq<Action>, b: seq<Action>)
    requires Legal(m, a) && Legal(After(m, a), b)
    ensures Legal(m, a + b) && After(m, a + b) == After(After(m, a), b)
    decreases |a|
  {
    if a == [] {
      assert a + b == b;
    } else {
      AfterBoth(Next(m, a[0]), a[1..], b);
      Then(m, a[0], a[1..] + b);
      HeadFirst(a, b);
    }
  }

  lemma HeadFirst(a: seq<Action>, b: seq<Action>)
    requires a != []
    ensures a + b == [a[0]] + (a[1..] + b)
  {
  }

  function Logs(k: nat): seq<Action> { seq(k, _ => LogEvent(0.0, "", "")) }

  lemma {:induction false} LogsFill(m: Memory, k: nat)
    requires |m.queue| + k <= PENDING_RECORDS_MAX
    ensures Legal(m, Logs(k))
    ensures var m' := After(m, Logs(k)); |m'.queue| == |m.queue| + k && m'.flush == m.flush && m'.store == m.store
    decreases k
  {
    if k > 0 {
      LogsFill(Next(m, Logs(k)[0]), k - 1);
      assert Logs(k)[1..] == Logs(k - 1);
    }
  }

  /** One round of the flusher while the store is down and the cap's worth of records is logged. */
  function Round(): seq<Action> { [Take] + (Logs(PENDING_RECORDS_MAX) + [Requeue]) }

  function Outage(rounds: nat): seq<Action> { if rounds == 0 then [] else Outage(rounds - 1) + Round() }

  /** The flusher puts its hand back without looking at the cap. */
  lemma RoundGrows(m: Memory)
    requires m.store.None? && m.flush.Idle?
    ensures Legal(m, Round())
    ensures var m' := After(m, Round());
            m'.store.None? && m'.flush.Idle? && |m'.queue| == |m.queue| + PENDING_RECORDS_MAX
  {
    var taken := Next(m, Take);
    var logs := Logs(PENDING_RECORDS_MAX);
    assert taken.queue == [] && taken.flush == Failing(m.queue) && taken.store == m.store;
    LogsFill(taken, PENDING_RECORDS_MAX);
    PutsBack(After(taken, logs));
    AfterBoth(taken, logs, [Requeue]);
    Then(m, Take, logs + [Requeue]);
  }

  lemma PutsBack(m: Memory)
    requires m.flush.Failing?
    ensures Legal(m, [Requeue])
    ensures var m' := After(m, [Requeue]);
            m'.queue == m.flush.records + m.queue && m'.flush.Idle? && m'.store == m.store
  {
    Then(m, Requeue, []);
    assert [Requeue] + [] == [Requeue];
  }

  lemma OneRoundMore(m: Memory, actions: seq<Action>)
    requires Legal(m, actions) && After(m, actions).store.None? && After(m, actions).flush.Idle?
    ensures Legal(m, actions + Round())
    ensures var m1, m2 := After(m, actions), After(m, actions + Round());
            m2.store.None? && m2.flush.Idle? && |m2.queue| == |m1.queue| + PENDING_RECORDS_MAX
  {
    RoundGrows(After(m, actions));
    AfterBoth(m, actions, Round());
  }

  lemma {:induction false} OutageGrows(m: Memory, rounds: nat, actions: seq<Action>)
    requires m.store.None? && m.flush.Idle? && actions == Outage(rounds)
    ensures Legal(m, actions)
    ensures var m' := After(m, actions); m'.store.None? && m'.flush.Idle? && |m'.queue| >= rounds
    decreases rounds
  {
    if rounds > 0 {
      OutageGrows(m, rounds - 1, Outage(rounds - 1));
      OneRoundMore(m, Outage(rounds - 1));
    }
  }

  /** So the cap of 5000 bounds the queue only as a record is logged: over whole runs no number
      bounds it. */
  lemma NoBoundOnTheQueue(persisted: set<string>, defaults: map<string, Value>, rounds: nat)
    ensures var boot := Boot(persisted, defaults, None);
            && Legal(boot, Outage(rounds))
            && |After(boot, Outage(rounds)).queue| >= rounds
            && After(boot, Outage(rounds)).store.None? && After(boot, Outage(rounds)).flush.Idle?
  {
    OutageGrows(Boot(persisted, defaults, None), rounds, Outage(rounds));
  }

  // When the cap holds.

  /** The flusher puts back more than fits under the cap. */
  predicate Overflows(m: Memory, a: Action) {
    a.Requeue? && m.flush.Failing? && |m.flush.records| + |m.queue| > 5000
  }

  /** A step keeps a queue under the cap under it, if and only if it is no such put-back. */
  lemma CapIsKeptExactlyWhen(m: Memory, a: Action)
    requires Enabled(m, a) && |m.queue| <= 5000
    ensures |Next(m, a).queue| <= 5000 <==> !Overflows(m, a)
  {
  }

  /** Whatever was put back, the next record logged brings the queue under the cap again. */
  lemma LogRestoresTheCap(m: Memory, ts: real, kind: string, detail: string)
    ensures |Next(m, LogEvent(ts, kind, detail)).queue| <= 5000
  {
  }

  /** A log keeps the newest 5000 and drops only what is older, the new record never. */
  lemma TheNewestAreKept(m: Memory, ts: real, kind: string, detail: string)
    ensures var m' := Next(m, LogEvent(ts, kind, detail));
            var all := m.queue + [Record(m.logged, ts, kind, detail)];
            && |m'.queue| == (if |all| < 5000 then |all| else 5000)
            && all == all[..|all| - |m'.queue|] + m'.queue
            && m'.dropped == m.dropped + Ids(all[..|all| - |m'.queue|])
            && m'.queue[|m'.queue| - 1] == Record(m.logged, ts, kind, detail)
  {
  }

  /** The flush that last came to an end failed. */
  predicate EndedIll(actions: seq<Action>) {
    if actions == [] then false
    else if actions[|actions| - 1].Requeue? then true
    else if actions[|actions| - 1].Done? then false
    else EndedIll(actions[..|actions| - 1])
  }

  /** Over every run, the store is held to be down exactly when the flush that last ended failed. */
  lemma {:induction false} DownExactlyWhen(persisted: set<string>, defaults: map<string, Value>,
                                           store: Option<Store>, actions: seq<Action>)
    requires Legal(Boot(persisted, defaults, store), actions)
    ensures After(Boot(persisted, defaults, store), actions).dbDown <==> EndedIll(actions)
    decreases |actions|
  {
    if actions != [] {
      var boot, n := Boot(persisted, defaults, store), |actions| - 1;
      OverflowLater(boot, actions);
      DownExactlyWhen(persisted, defaults, store, actions[..n]);
    }
  }

  predicate TouchesQueue(a: Action) { a.LogEvent? || a.Take? || a.Requeue? }

  /** Where a run last touched the queue. */
  function LastTouch(actions: seq<Action>): (n: Option<nat>)
    ensures n.Some? ==> n.value < |actions|
  {
    if actions == [] then None
    else if TouchesQueue(actions[|actions| - 1]) then Some(|actions| - 1)
    else LastTouch(actions[..|actions| - 1])
  }

  ghost predicate LastOverflowed(m: Memory, actions: seq<Action>)
    requires Legal(m, actions)
  {
    match LastTouch(actions)
    case None => false
    case Some(n) => Overflows(At(m, actions, n), actions[n])
  }

  /** One action more: it decides if it touches the queue, and changes nothing if not. */
  lemma OverflowLater(m: Memory, actions: seq<Action>)
    requires Legal(m, actions) && actions != []
    ensures var n := |actions| - 1;
            && Legal(m, actions[..n]) && Enabled(After(m, actions[..n]), actions[n])
            && After(m, actions) == Next(After(m, actions[..n]), actions[n])
            && (LastOverflowed(m, actions) <==>
                  if TouchesQueue(actions[n]) then Overflows(After(m, actions[..n]), actions[n])
                  else LastOverflowed(m, actions[..n]))
  {
    var n := |actions| - 1;
    LegalPrefix(m, actions, n);
    assert actions[..n + 1] == actions;
    assert At(m, actions, n) == After(m, actions[..n]);
    if LastTouch(actions[..n]).Some? {
      var last := LastTouch(actions[..n]).value;
      assert actions[..n][..last] == actions[..last] && actions[..n][last] == actions[last];
    }
  }

  /** What one step makes of the queue's length. */
  lemma QueueAfter(m: Memory, a: Action)
    requires Enabled(m, a)
    ensures !TouchesQueue(a) ==> Next(m, a).queue == m.queue
    ensures TouchesQueue(a) ==> (|Next(m, a).queue| > 5000 <==> Overflows(m, a))
  {
  }

  /** Over every run from a boot: the queue is over the cap if and only if the action that last
      touched it put back more than fits. */
  lemma {:induction false} OverTheCapExactlyWhen(persisted: set<string>, defaults: map<string, Value>,
                                                 store: Option<Store>, actions: seq<Action>)
    requires Legal(Boot(persisted, defaults, store), actions)
    ensures var boot := Boot(persisted, defaults, store);
            |After(boot, actions).queue| > 5000 <==> LastOverflowed(boot, actions)
    decreases |actions|
  {
    if actions != [] {
      var boot, n := Boot(persisted, defaults, store), |actions| - 1;
      OverflowLater(boot, actions);
      OverTheCapExactlyWhen(persisted, defaults, store, actions[..n]);
      QueueAfter(After(boot, actions[..n]), actions[n]);
    }
  }

  // What the records say.

  /** The records a run of actions logs, in order and numbered. */
  function LogOf(actions: seq<Action>): seq<Record> {
    if actions == [] then [] else OneMore(LogOf(actions[..|actions| - 1]), actions[|actions| - 1])
  }

  function OneMore(log: seq<Record>, a: Action): seq<Record> {
    if a.LogEvent? then log + [Record(|log|, a.ts, a.kind, a.detail)] else log
  }

  predicate AsLogged(r: Record, log: seq<Record>) { r.id < |log| && log[r.id] == r }

  ghost predicate SaysWhatWasLogged(m: Memory, was: seq<Record>, log: seq<Record>) {
    && m.logged == |log| && HandInRange(m)
    && (forall r :: r in m.queue ==> AsLogged(r, log)) && (forall r :: r in Hand(m) ==> AsLogged(r, log))
    && forall r :: r in Stored(m) ==> r in was || AsLogged(r, log)
  }

  lemma StepSaysWhatWasLogged(m: Memory, a: Action, was: seq<Record>, log: seq<Record>)
    requires SaysWhatWasLogged(m, was, log) && Enabled(m, a)
    ensures SaysWhatWasLogged(Next(m, a), was, OneMore(log, a))
  {
    var m', log' := Next(m, a), OneMore(log, a);
    forall r | AsLogged(r, log) ensures AsLogged(r, log') { }
    forall r | r in m'.queue ensures AsLogged(r, log') { QueuedIsAsLogged(m, a, was, log, r); }
    forall r | r in Hand(m') ensures AsLogged(r, log') { assert r in Hand(m) || r in m.queue; }
    forall r | r in Stored(m') ensures r in was || AsLogged(r, log') { assert r in Stored(m) || r in Hand(m); }
  }

  lemma QueuedIsAsLogged(m: Memory, a: Action, was: seq<Record>, log: seq<Record>, r: Record)
    requires SaysWhatWasLogged(m, was, log) && Enabled(m, a) && r in Next(m, a).queue
    ensures AsLogged(r, OneMore(log, a))
  {
    if a.LogEvent? {
      var all := m.queue + [Record(m.logged, a.ts, a.kind, a.detail)];
      assert r in all;
    } else {
      assert r in m.queue || r in Hand(m);
    }
  }

  /** Over every run: what is queued, in hand or stored says, word for word, what was logged under
      its number, or was stored before the run. */
  lemma {:induction false} RecordsAreAsLogged(persisted: set<string>, defaults: map<string, Value>,
                                              store: Option<Store>, actions: seq<Action>)
    requires Legal(Boot(persisted, defaults, store), actions)
    ensures var boot := Boot(persisted, defaults, store);
            SaysWhatWasLogged(After(boot, actions), Stored(boot), LogOf(actions))
    decreases |actions|
  {
    if actions != [] {
      var boot, n := Boot(persisted, defaults, store), |actions| - 1;
      OverflowLater(boot, actions);
      RecordsAreAsLogged(persisted, defaults, store, actions[..n]);
      StepSaysWhatWasLogged(After(boot, actions[..n]), actions[n], Stored(boot), LogOf(actions[..n]));
    }
  }

  /** A record is logged between every put-back and the flusher's next hand. */
  predicate Interleaved(actions: seq<Action>) {
    actions == [] ||
    var n := |actions| - 1;
    Interleaved(actions[..n]) && (actions[n].Take? ==> !PutBackLast(actions[..n]))
  }

  /** Of the actions that touch the queue the last is a put-back. */
  predicate PutBackLast(actions: seq<Action>) {
    match LastTouch(actions)
    case None => false
    case Some(n) => actions[n].Requeue?
  }

  predicate Bounded(m: Memory, putBackLast: bool) {
    && (!m.flush.Idle? ==> |m.flush.records| <= 5000)
    && (putBackLast ==> m.flush.Idle?)
    && |m.queue| <= if putBackLast then 10000 else 5000
  }

  lemma StepKeepsBounded(m: Memory, a: Action, putBackLast: bool)
    requires Enabled(m, a) && Bounded(m, putBackLast) && !(a.Take? && putBackLast)
    ensures Bounded(Next(m, a), if TouchesQueue(a) then a.Requeue? else putBackLast)
  {
  }

  lemma PutBackLater(actions: seq<Action>)
    requires actions != []
    ensures var n := |actions| - 1;
            PutBackLast(actions) <==> if TouchesQueue(actions[n]) then actions[n].Requeue? else PutBackLast(actions[..n])
  {
  }

  lemma {:induction false} RunKeepsBounded(persisted: set<string>, defaults: map<string, Value>,
                                           store: Option<Store>, actions: seq<Action>)
    requires Legal(Boot(persisted, defaults, store), actions) && Interleaved(actions)
    ensures Bounded(After(Boot(persisted, defaults, store), actions), PutBackLast(actions))
    decreases |actions|
  {
    if actions != [] {
      var boot, n := Boot(persisted, defaults, store), |actions| - 1;
      OverflowLater(boot, actions);
      PutBackLater(actions);
      RunKeepsBounded(persisted, defaults, store, actions[..n]);
      StepKeepsBounded(After(boot, actions[..n]), actions[n], PutBackLast(actions[..n]));
    }
  }

  /** So where a record is logged between every put-back and the flusher's next hand, hand and
      queue together never hold more than twice the cap. */
  lemma InterleavedRunsStayBounded(persisted: set<string>, defaults: map<string, Value>,
                                   store: Option<Store>, actions: seq<Action>)
    requires Legal(Boot(persisted, defaults, store), actions) && Interleaved(actions)
    ensures var m := After(Boot(persisted, defaults, store), actions);
            |Hand(m)| + |m.queue| <= 10000
  {
    RunKeepsBounded(persisted, defaults, store, actions);
  }

  // ----- settings ---------------------------------------------------------------------------------

  function Snapshot(m: Memory): map<string, Value> {
    match m.flush
    case Saving(p, _) => p
    case Writing(p, _, _) => p
    case _ => map[]
  }

  ghost predicate SettingsInv(m: Memory) {
    && (forall k :: k in m.pending ==> k in m.persisted && k in m.state && m.pending[k] == m.state[k])
    && (forall k :: k in Snapshot(m) ==> k in m.pending)
    && (m.flush.Writing? || m.flush.Saving? ==> m.store.Some?)
    && (m.flush.Writing? ==>
          forall k :: k in Snapshot(m) ==> k in m.store.value.settings && m.store.value.settings[k] == Snapshot(m)[k])
  }

  lemma StepKeepsSettings(m: Memory, a: Action)
    requires SettingsInv(m) && Enabled(m, a)
    ensures SettingsInv(Next(m, a))
  {
  }

  // What the callers did, read off the run alone.

  /** The value `k` was last set to. */
  function Latest(actions: seq<Action>, k: string): Option<Value> {
    if actions == [] then None else
    var a := actions[|actions| - 1];
    if a.SetState? && k in a.fields then Some(a.fields[k]) else Latest(actions[..|actions| - 1], k)
  }

  /** Where the flusher last took its hand. */
  function LastTake(actions: seq<Action>): nat {
    if actions == [] then 0
    else if actions[|actions| - 1].Take? then |actions| - 1
    else LastTake(actions[..|actions| - 1])
  }

  /** The last flush of `k` that was finished: where it took `k`, and where it was done. */
  function LastFlush(m: Memory, actions: seq<Action>, k: string): Option<(nat, nat)>
    requires Legal(m, actions)
  {
    if actions == [] then None else
    var n := |actions| - 1;
    LegalPrefix(m, actions, n);
    if actions[n].Done? && k in Snapshot(After(m, actions[..n])) then Some((LastTake(actions[..n]), n))
    else LastFlush(m, actions[..n], k)
  }

  lemma {:induction false} LegalPrefix(m: Memory, actions: seq<Action>, n: nat)
    requires Legal(m, actions) && n <= |actions|
    ensures Legal(m, actions[..n])
    ensures n < |actions| ==>
              && Enabled(After(m, actions[..n]), actions[n]) && Legal(m, actions[..n + 1])
              && After(m, actions[..n + 1]) == Next(After(m, actions[..n]), actions[n])
    decreases n
  {
    if n > 0 {
      LegalPrefix(Next(m, actions[0]), actions[1..], n - 1);
      assert actions[..n][1..] == actions[1..][..n - 1];
      if n < |actions| { assert actions[..n + 1][1..] == actions[1..][..n]; }
    } else if actions != [] {
      assert actions[..1][1..] == [];
    }
  }

  /** The memory before the n-th action. */
  ghost function At(m: Memory, actions: seq<Action>, n: nat): Memory
    requires Legal(m, actions) && n <= |actions|
  {
    LegalPrefix(m, actions, n);
    After(m, actions[..n])
  }

  ghost predicate Flushed(m: Memory, flush: Option<(nat, nat)>, actions: seq<Action>, k: string) {
    && flush.Some? && m.store.Some? && k in m.store.value.settings
    && var (taken, done) := flush.value;
       && taken < done < |actions| && actions[taken].Take? && actions[done].Done?
       && Latest(actions[..taken], k) == Some(m.store.value.settings[k])
       && Latest(actions, k) == Latest(actions[..done], k)
  }

  ghost predicate Taken(m: Memory, actions: seq<Action>, k: string) {
    k in Snapshot(m) ==>
      && LastTake(actions) < |actions| && actions[LastTake(actions)].Take?
      && Latest(actions[..LastTake(actions)], k) == Some(Snapshot(m)[k])
  }

  /** What a run knows of a persisted setting: state and pending map hold the last value set; a
      snapshot holds the one last set before it was taken; and once a value set is no longer
      pending, the store holds the one last set before its last finished flush took it, and none
      was set since that flush was done. */
  ghost predicate History(m: Memory, flush: Option<(nat, nat)>, actions: seq<Action>, k: string) {
    var latest := Latest(actions, k);
    && SettingsInv(m) && k in m.persisted
    && (latest.Some? ==> k in m.state && m.state[k] == latest.value)
    && (k in m.pending ==> latest.Some?)
    && Taken(m, actions, k)
    && (latest.Some? && k !in m.pending ==> Flushed(m, flush, actions, k))
  }

  lemma OneLater(actions: seq<Action>, a: Action, k: string)
    ensures var actions' := actions + [a];
            && Latest(actions', k) == (if a.SetState? && k in a.fields then Some(a.fields[k]) else Latest(actions, k))
            && LastTake(actions') == (if a.Take? then |actions| else LastTake(actions))
  {
    assert (actions + [a])[..|actions|] == actions;
  }

  /** What a run knew of its past it still knows one action later. */
  lemma SamePast(actions: seq<Action>, a: Action, flush: Option<(nat, nat)>)
    requires flush.Some? ==> flush.value.0 <= flush.value.1 <= |actions|
    ensures flush.Some? ==>
              && (actions + [a])[..flush.value.0] == actions[..flush.value.0]
              && (actions + [a])[..flush.value.1] == actions[..flush.value.1]
  {
  }

  function FlushAfter(m: Memory, flush: Option<(nat, nat)>, actions: seq<Action>, a: Action, k: string): Option<(nat, nat)> {
    if a.Done? && k in Snapshot(m) then Some((LastTake(actions), |actions|)) else flush
  }

  /** A snapshot is the pending map as the hand is taken, and what is left of it after. */
  lemma SnapshotAfter(m: Memory, a: Action, k: string)
    requires Enabled(m, a) && k in Snapshot(Next(m, a))
    ensures a.Take? ==> k in m.pending && Snapshot(Next(m, a))[k] == m.pending[k]
    ensures !a.Take? ==> k in Snapshot(m) && Snapshot(Next(m, a))[k] == Snapshot(m)[k]
  {
  }

  lemma TakenKept(m: Memory, actions: seq<Action>, a: Action, k: string)
    requires Enabled(m, a) && SettingsInv(m) && Taken(m, actions, k)
    requires k in m.pending ==> Latest(actions, k) == Some(m.pending[k])
    ensures Taken(Next(m, a), actions + [a], k)
  {
    if k in Snapshot(Next(m, a)) {
      OneLater(actions, a, k);
      SnapshotAfter(m, a, k);
      var n := LastTake(actions + [a]);
      assert (actions + [a])[..n] == actions[..n];
      assert actions[..|actions|] == actions;
    }
  }

  lemma FlushedKept(m: Memory, flush: Option<(nat, nat)>, actions: seq<Action>, a: Action, k: string)
    requires Enabled(m, a) && History(m, flush, actions, k) && k !in Next(m, a).pending
    requires Latest(actions + [a], k).Some?
    ensures Flushed(Next(m, a), FlushAfter(m, flush, actions, a, k), actions + [a], k)
  {
    OneLater(actions, a, k);
    SamePast(actions, a, FlushAfter(m, flush, actions, a, k));
    assert actions[..|actions|] == actions;
  }

  lemma StepKeepsHistory(m: Memory, flush: Option<(nat, nat)>, actions: seq<Action>, a: Action, k: string)
    requires Enabled(m, a) && History(m, flush, actions, k)
    ensures History(Next(m, a), FlushAfter(m, flush, actions, a, k), actions + [a], k)
  {
    StepKeepsSettings(m, a);
    OneLater(actions, a, k);
    TakenKept(m, actions, a, k);
    if Latest(actions + [a], k).Some? && k !in Next(m, a).pending { FlushedKept(m, flush, actions, a, k); }
  }

  /** A run, and the run before its last action. */
  lemma LastStep(m: Memory, actions: seq<Action>, k: string)
    requires Legal(m, actions) && actions != []
    ensures var n := |actions| - 1;
            && actions[..n] + [actions[n]] == actions && Legal(m, actions[..n])
            && Enabled(After(m, actions[..n]), actions[n])
            && After(m, actions) == Next(After(m, actions[..n]), actions[n])
            && LastFlush(m, actions, k)
               == FlushAfter(After(m, actions[..n]), LastFlush(m, actions[..n], k), actions[..n], actions[n], k)
  {
    var n := |actions| - 1;
    LegalPrefix(m, actions, n);
    assert actions[..n + 1] == actions;
  }

  lemma {:induction false} RunKeepsHistory(persisted: set<string>, defaults: map<string, Value>, store: Option<Store>,
                                           actions: seq<Action>, k: string)
    requires Legal(Boot(persisted, defaults, store), actions) && k in persisted
    ensures var boot := Boot(persisted, defaults, store);
            History(After(boot, actions), LastFlush(boot, actions, k), actions, k)
    decreases |actions|
  {
    if actions != [] {
      var boot, n := Boot(persisted, defaults, store), |actions| - 1;
      LastStep(boot, actions, k);
      RunKeepsHistory(persisted, defaults, store, actions[..n], k);
      StepKeepsHistory(After(boot, actions[..n]), LastFlush(boot, actions[..n], k), actions[..n], actions[n], k);
    }
  }

  /** Over every interleaving and every failure: a setting once set and no longer pending is in
      the store, put there by a flush that took it and was done; and the store has the state's
      value if and only if the value last set before that flush took it is the value last set
      before it was done. */
  lemma SettledSettings(persisted: set<string>, defaults: map<string, Value>, store: Option<Store>,
                        actions: seq<Action>, k: string)
    requires Legal(Boot(persisted, defaults, store), actions) && k in persisted
    requires Latest(actions, k).Some? && k !in After(Boot(persisted, defaults, store), actions).pending
    ensures var boot := Boot(persisted, defaults, store);
            var m, flush := After(boot, actions), LastFlush(boot, actions, k);
            && m.store.Some? && k in m.store.value.settings && k in m.state && flush.Some?
            && var (taken, done) := flush.value;
               && taken < done < |actions| && actions[taken].Take? && actions[done].Done?
               && (m.store.value.settings[k] == m.state[k]
                   <==> Latest(actions[..taken], k) == Latest(actions[..done], k))
  {
    RunKeepsHistory(persisted, defaults, store, actions, k);
  }

  /** No caller sets `k` while a snapshot that holds it is being written. */
  ghost predicate Quiet(m: Memory, actions: seq<Action>, k: string)
    requires Legal(m, actions)
  {
    forall n :: 0 <= n < |actions| && actions[n].SetState? && k in actions[n].fields ==>
      k !in Snapshot(At(m, actions, n))
  }

  /** A snapshot holds the value last set, and none was set while the last flush lasted. */
  ghost predicate NothingNewer(m: Memory, flush: Option<(nat, nat)>, actions: seq<Action>, k: string) {
    && (k in Snapshot(m) ==> Latest(actions, k) == Some(Snapshot(m)[k]))
    && (flush.None? ||
        var (taken, done) := flush.value;
        taken <= done < |actions| && Latest(actions[..taken], k) == Latest(actions[..done], k))
  }

  lemma QuietStep(m: Memory, flush: Option<(nat, nat)>, actions: seq<Action>, a: Action, k: string)
    requires Enabled(m, a) && History(m, flush, actions, k) && NothingNewer(m, flush, actions, k)
    requires a.SetState? && k in a.fields ==> k !in Snapshot(m)
    ensures NothingNewer(Next(m, a), FlushAfter(m, flush, actions, a, k), actions + [a], k)
  {
    OneLater(actions, a, k);
    SamePast(actions, a, FlushAfter(m, flush, actions, a, k));
    assert actions[..|actions|] == actions;
  }

  lemma QuietBefore(m: Memory, actions: seq<Action>, k: string)
    requires Legal(m, actions) && actions != [] && Quiet(m, actions, k)
    ensures var n := |actions| - 1;
            && Legal(m, actions[..n]) && Quiet(m, actions[..n], k)
            && (actions[n].SetState? && k in actions[n].fields ==> k !in Snapshot(After(m, actions[..n])))
  {
    var n := |actions| - 1;
    LegalPrefix(m, actions, n);
    assert At(m, actions, n) == After(m, actions[..n]);
    forall i | 0 <= i < n && actions[..n][i].SetState? && k in actions[..n][i].fields
      ensures k !in Snapshot(At(m, actions[..n], i))
    {
      assert actions[..n][..i] == actions[..i];
      assert k !in Snapshot(At(m, actions, i));
    }
  }

  lemma {:induction false} QuietRun(persisted: set<string>, defaults: map<string, Value>, store: Option<Store>,
                                    actions: seq<Action>, k: string)
    requires Legal(Boot(persisted, defaults, store), actions) && k in persisted
    requires Quiet(Boot(persisted, defaults, store), actions, k)
    ensures var boot := Boot(persisted, defaults, store);
            NothingNewer(After(boot, actions), LastFlush(boot, actions, k), actions, k)
    decreases |actions|
  {
    if actions != [] {
      var boot, n := Boot(persisted, defaults, store), |actions| - 1;
      LastStep(boot, actions, k);
      QuietBefore(boot, actions, k);
      QuietRun(persisted, defaults, store, actions[..n], k);
      RunKeepsHistory(persisted, defaults, store, actions[..n], k);
      QuietStep(After(boot, actions[..n]), LastFlush(boot, actions[..n], k), actions[..n], actions[n], k);
    }
  }

  /** So where no caller sets `k` while a snapshot that holds it is being written, a value set and
      no longer pending is the store's: nothing is lost, whatever fails. */
  lemma QuietSettings(persisted: set<string>, defaults: map<string, Value>, store: Option<Store>,
                      actions: seq<Action>, k: string)
    requires Legal(Boot(persisted, defaults, store), actions) && k in persisted
    requires Quiet(Boot(persisted, defaults, store), actions, k)
    requires Latest(actions, k).Some? && k !in After(Boot(persisted, defaults, store), actions).pending
    ensures var m := After(Boot(persisted, defaults, store), actions);
            && m.store.Some? && k in m.store.value.settings && k in m.state
            && m.store.value.settings[k] == m.state[k] == Latest(actions, k).value
  {
    RunKeepsHistory(persisted, defaults, store, actions, k);
    QuietRun(persisted, defaults, store, actions, k);
  }

  // One set during the flush, and the newer value is un-pended without reaching the store.

  const BEFORE := Boot({"page"}, map["page" := "home"], Some(Store(map[], [])))
  const TO_PIR := SetState(map["page" := "pir"])
  const TO_SNR := SetState(map["page" := "snr"])

  lemma LostUpdate()
    ensures Legal(BEFORE, [TO_PIR, Take, SaveOk, TO_SNR, Done])
    ensures var m := After(BEFORE, [TO_PIR, Take, SaveOk, TO_SNR, Done]);
            && "page" !in m.pending && m.state == map["page" := "snr"]
            && m.store == Some(Store(map["page" := "pir"], []))
  {
    var m1 := BEFORE.(state := map["page" := "pir"], pending := map["page" := "pir"]);
    var m2 := m1.(flush := Saving(m1.pending, []));
    var m3 := m2.(store := Some(Store(map["page" := "pir"], [])), flush := Writing(m1.pending, [], 0));
    var m4 := m3.(state := map["page" := "snr"], pending := map["page" := "snr"]);
    var m5 := m4.(pending := map[], flush := Idle);
    assert Next(BEFORE, TO_PIR) == m1;
    assert "page" in m1.pending && m1.pending != map[];
    assert Next(m1, Take) == m2;
    assert map[] + m2.flush.pending == map["page" := "pir"];
    assert Next(m2, SaveOk) == m3;
    assert Next(m3, TO_SNR) == m4;
    assert m4.pending - {"page"} == map[];
    assert Next(m4, Done) == m5;
    Then(m4, Done, []);
    Then(m3, TO_SNR, [Done]);
    Then(m2, SaveOk, [TO_SNR, Done]);
    Then(m1, Take, [SaveOk, TO_SNR, Done]);
    Then(BEFORE, TO_PIR, [Take, SaveOk, TO_SNR, Done]);
    assert [TO_PIR] + [Take, SaveOk, TO_SNR, Done] == [TO_PIR, Take, SaveOk, TO_SNR, Done];
  }
}
