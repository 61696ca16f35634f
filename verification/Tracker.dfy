/** The tracker and the services it calls, as objects updated in place. */
module Tracker {
  import opened Options
  import opened Tracking
  import Lease
  import Passes

  const INACTIVE_INTERVAL: int := 180 * Lease.SECOND

  /** The calls made so far, in order. */
  class Log {
    var events: seq<Event>

    constructor ()
      ensures events == []
    {
      events := [];
    }
  }

  // The store

  /** A bastion id as the store splices it into SQL, and the id the database reads back. */
  function Cast(id: string): string {
    "cast('" + id + "' as UUID)"
  }

  function ReadCast(sql: string): string {
    if |sql| < 16 then sql else sql[6..|sql| - 10]
  }

  lemma CastReadsBack(id: string)
    ensures ReadCast(Cast(id)) == id
  {
    assert Cast(id)[6..|Cast(id)| - 10] == id;
  }

  datatype TrackingState = TrackingState(id: string, customer: string, status: Status, lastSeen: int)

  /** The listed pairs in the first `n` entries of the two slices. */
  function Pairs(bastions: seq<string>, customers: seq<string>, n: nat): seq<Sighting>
    requires n <= |bastions| && n <= |customers|
  {
    seq(n, i requires 0 <= i < n => Sighting(bastions[i], customers[i]))
  }

  class Postgres {
    var table: Table
    var clock: int
    const log: Log

    constructor (table: Table, clock: int, log: Log)
      ensures this.table == table && this.clock == clock && this.log == log
    {
      this.table := table;
      this.clock := clock;
      this.log := log;
    }

    /** batch_upsert_tracking in one transaction: mark the rows that exist as seen, then insert the pairs that the
        left join finds without a row. Inserting one id twice violates the primary key and undoes everything. */
    method BatchUpsert(batch: seq<Sighting>) returns (ok: bool)
      modifies this`table
      ensures ok == Insertable(old(table), batch)
      ensures table == if ok then Upsert(old(table), batch, clock) else old(table)
    {
      ghost var before := table;
      var joined := table.Keys;
      var listed := Ids(batch);
      var next := map id | id in table :: if id in listed then table[id].(lastSeen := clock) else table[id];
      var i := 0;
      assert batch[..0] == [];
      while i < |batch|
        invariant 0 <= i <= |batch| && table == before
        invariant Insertable(before, batch[..i])
        invariant next == Upserting(before, batch, i, clock)
      {
        var s := batch[i];
        UpsertingStep(before, batch, i, clock);
        if s.bastion !in joined {
          if s.bastion in next {
            return false;
          }
          next := next[s.bastion := Row(s.customer, Active, clock)];
        }
        i := i + 1;
      }
      assert batch[..i] == batch;
      table := next;
      return true;
    }

    /** Rewrites both slices in place into SQL casts, then runs the upsert on what the database reads back. The
        database may be unreachable, or commit without the client learning of it. */
    method UpdateTrackingSeen(bastions: array<string>, customers: array<string>, n: nat) returns (ok: bool)
      requires bastions != customers && n <= bastions.Length && n <= customers.Length
      modifies this`table, this`clock, log, bastions, customers
      ensures forall i | 0 <= i < n ::
                bastions[i] == "cast('" + old(bastions[i]) + "' as UUID)" &&
                customers[i] == "cast('" + old(customers[i]) + "' as UUID)"
      ensures forall i | n <= i < bastions.Length :: bastions[i] == old(bastions[i])
      ensures forall i | n <= i < customers.Length :: customers[i] == old(customers[i])
      ensures clock >= old(clock)
      ensures exists stored ::
                && log.events == old(log.events) +
                     [Seen(Pairs(old(bastions[..]), old(customers[..]), n), clock, stored, ok)]
                && (ok ==> stored)
                && (stored ==> Insertable(old(table), Pairs(old(bastions[..]), old(customers[..]), n)))
      ensures table == Replay(old(table), log.events[|log.events| - 1])
    {
      ghost var pairs := Pairs(bastions[..], customers[..], n);
      var i := 0;
      while i < n
        invariant 0 <= i <= n
        invariant forall j | 0 <= j < i ::
                    bastions[j] == Cast(old(bastions[j])) && customers[j] == Cast(old(customers[j]))
        invariant forall j | i <= j < bastions.Length :: bastions[j] == old(bastions[j])
        invariant forall j | i <= j < customers.Length :: customers[j] == old(customers[j])
        modifies bastions, customers
      {
        bastions[i] := Cast(bastions[i]);
        customers[i] := Cast(customers[i]);
        i := i + 1;
      }
      var batch := seq(n, i requires 0 <= i < n reads bastions, customers =>
        Sighting(ReadCast(bastions[i]), ReadCast(customers[i])));
      forall i | 0 <= i < n
        ensures batch[i] == pairs[i]
      {
        CastReadsBack(old(bastions[i]));
        CastReadsBack(old(customers[i]));
      }
      assert batch == pairs;
      var elapsed :| elapsed >= 0;
      clock := clock + elapsed;
      var reached, replied: bool := *, *;
      var stored := false;
      if reached {
        stored := BatchUpsert(batch);
      }
      ok := stored && replied;
      log.events := log.events + [Seen(batch, clock, stored, ok)];
    }

    /** The rows to change, in no particular order, or None when the query fails. */
    method GetPendingTrackingStates() returns (states: Option<seq<TrackingState>>)
      modifies this`clock, log
      ensures clock >= old(clock)
      ensures log.events == old(log.events) + [Asked(clock - 180_000_000_000, states.Some?)]
      ensures states.Some? ==>
                && Enumerates(StateIds(states.value), PendingIds(table, clock - 180_000_000_000))
                && forall s | s in states.value ::
                     s.id in table && table[s.id] == Row(s.customer, s.status, s.lastSeen)
    {
      var elapsed :| elapsed >= 0;
      clock := clock + elapsed;
      var replied: bool := *;
      log.events := log.events + [Asked(clock - INACTIVE_INTERVAL, replied)];
      if !replied {
        return None;
      }
      var rest := PendingIds(table, clock - INACTIVE_INTERVAL);
      ghost var all := rest;
      var found: seq<TrackingState> := [];
      while rest != {}
        invariant rest <= all == PendingIds(table, clock - INACTIVE_INTERVAL)
        invariant Enumerates(StateIds(found), all - rest)
        invariant forall s | s in found :: s.id in table && table[s.id] == Row(s.customer, s.status, s.lastSeen)
        decreases rest
      {
        var id :| id in rest;
        var row := table[id];
        found := found + [TrackingState(id, row.customer, row.status, row.lastSeen)];
        assert StateIds(found) == StateIds(found[..|found| - 1]) + [id];
        assert found[..|found| - 1] + [found[|found| - 1]] == found;
        rest := rest - {id};
      }
      states := Some(found);
    }

    /** Sets the status of one row; updating no row is an error too. */
    method UpdateTrackingState(id: string, up: bool) returns (ok: bool)
      modifies this`table, this`clock, log
      ensures clock >= old(clock)
      ensures exists stored ::
                log.events == old(log.events) + [Wrote(id, up, stored, ok)] &&
                (ok ==> stored) && (stored ==> id in old(table))
      ensures table == Replay(old(table), log.events[|log.events| - 1])
    {
      var elapsed :| elapsed >= 0;
      clock := clock + elapsed;
      var reached, replied: bool := *, *;
      var rows := if reached && id in table then 1 else 0;
      if rows == 1 {
        table := table[id := table[id].(status := StatusFor(up))];
      }
      ok := replied && rows != 0;
      log.events := log.events + [Wrote(id, up, rows == 1, ok)];
    }
  }

  /** The table while `next` runs through the first `i` pairs of the insertion. */
  function Upserting(table: Table, batch: seq<Sighting>, i: nat, now: int): Table
    requires i <= |batch|
  {
    map id | id in table.Keys + Ids(batch[..i]) ::
      if id in table then (if id in Ids(batch) then table[id].(lastSeen := now) else table[id])
      else Row(CustomerOf(batch[..i], id), Active, now)
  }

  lemma FirstCustomer(batch: seq<Sighting>, i: nat)
    requires i < |batch|
    ensures Ids(batch[..i + 1]) == Ids(batch[..i]) + {batch[i].bastion}
    ensures forall id | id in Ids(batch[..i]) :: CustomerOf(batch[..i + 1], id) == CustomerOf(batch[..i], id)
    ensures batch[i].bastion !in Ids(batch[..i]) ==>
              CustomerOf(batch[..i + 1], batch[i].bastion) == batch[i].customer
  {
    assert batch[..i + 1] == batch[..i] + [batch[i]];
    IdsConcat(batch[..i], [batch[i]]);
    forall id | id in Ids(batch[..i + 1])
      ensures id in Ids(batch[..i]) ==> CustomerOf(batch[..i + 1], id) == CustomerOf(batch[..i], id)
      ensures id !in Ids(batch[..i]) ==> CustomerOf(batch[..i + 1], id) == batch[i].customer
    {
      CustomerOfConcat(batch[..i], [batch[i]], id);
    }
  }

  lemma UpsertingStep(table: Table, batch: seq<Sighting>, i: nat, now: int)
    requires i < |batch| && Insertable(table, batch[..i])
    ensures var s, next := batch[i], Upserting(table, batch, i, now);
            if s.bastion in table then
              Insertable(table, batch[..i + 1]) && Upserting(table, batch, i + 1, now) == next
            else if s.bastion in next then !Insertable(table, batch)
            else
              && Insertable(table, batch[..i + 1])
              && Upserting(table, batch, i + 1, now) == next[s.bastion := Row(s.customer, Active, now)]
  {
    var s := batch[i];
    if s.bastion !in table && s.bastion in Ids(batch[..i]) {
      var j :| 0 <= j < i && batch[..i][j].bastion == s.bastion;
      assert batch[j].bastion == s.bastion;
    } else {
      InsertableSnoc(table, batch, i);
      UpsertingNext(table, batch, i, now);
    }
  }

  lemma UpsertingNext(table: Table, batch: seq<Sighting>, i: nat, now: int)
    requires i < |batch|
    requires batch[i].bastion in table || batch[i].bastion !in Ids(batch[..i])
    ensures var s, next := batch[i], Upserting(table, batch, i, now);
            Upserting(table, batch, i + 1, now) ==
            if s.bastion in table then next else next[s.bastion := Row(s.customer, Active, now)]
  {
    hide Ids, CustomerOf;
    FirstCustomer(batch, i);
  }

  lemma InsertableSnoc(table: Table, batch: seq<Sighting>, i: nat)
    requires i < |batch| && Insertable(table, batch[..i])
    requires batch[i].bastion in table || batch[i].bastion !in Ids(batch[..i])
    ensures Insertable(table, batch[..i + 1])
  {
    var front := batch[..i];
    assert forall k | 0 <= k < i :: batch[..i + 1][k] == front[k];
    assert forall k | 0 <= k < i :: front[k] in front && front[k].bastion in Ids(front);
  }

  function StateIds(states: seq<TrackingState>): seq<string> {
    seq(|states|, i requires 0 <= i < |states| => states[i].id)
  }

  // The services the tracker calls

  class Notifier {
    const log: Log

    constructor (log: Log)
      ensures this.log == log
    {
      this.log := log;
    }

    method NotifySlackBastionState(up: bool, id: string) returns (ok: bool)
      modifies log
      ensures log.events == old(log.events) + [Notified(id, up, ok)]
    {
      ok := *;
      log.events := log.events + [Notified(id, up, ok)];
    }
  }

  class EtcdKey {
    var register: Lease.Register

    constructor ()
      ensures register == Lease.Vacant
    {
      register := Lease.Vacant;
    }

    /** One Set of the tracker key; `err` is what the client sees. */
    method Set(opts: Lease.SetOptions, self: nat, now: nat, fault: Lease.Fault) returns (err: bool)
      modifies this
      ensures var (reg, reply) := Lease.SetKey(old(register), opts, self, now);
              && register == (if fault.RequestLost? then old(register) else reg)
              && (err <==> !(fault.NoFault? && reply.Stored?))
    {
      if fault.RequestLost? {
        return true;
      }
      var (reg, reply) := Lease.SetKey(register, opts, self, now);
      register := reg;
      err := fault.ReplyLost? || !reply.Stored?;
    }
  }

  // The tracker

  /** The batches already sent and the batch being filled hold exactly the pairs passed so far. */
  ghost predicate Batching(trace: seq<Event>, batch: seq<Sighting>, passed: seq<Sighting>) {
    && SeenInBatches(trace)
    && (forall k | 0 <= k < |trace| :: trace[k].ok && |trace[k].batch| == UPDATE_BATCH_SIZE)
    && SeenPairs(trace) + batch == passed
    && |batch| < UPDATE_BATCH_SIZE
  }

  class Tracker {
    const selfID: nat
    const etcd: EtcdKey
    const db: Postgres
    const notifier: Notifier
    const log: Log
    var isServing: bool
    var lastUpdateTime: Option<nat>

    ghost predicate Valid() {
      db.log == log && notifier.log == log
    }

    constructor (selfID: nat, etcd: EtcdKey, db: Postgres, notifier: Notifier)
      requires db.log == notifier.log
      ensures Valid() && this.selfID == selfID && this.etcd == etcd && this.db == db && this.notifier == notifier
      ensures !isServing && lastUpdateTime == None
    {
      this.selfID, this.etcd, this.db, this.notifier, this.log := selfID, etcd, db, notifier, db.log;
      isServing, lastUpdateTime := false, None;
    }

    predicate IsTimeToUpdate(now: nat)
      reads this
    {
      Lease.TimeToUpdate(lastUpdateTime, now)
    }

    method OfferService(now: nat, fault: Lease.Fault)
      modifies this`isServing, etcd
      ensures (etcd.register, isServing) ==
              Lease.OfferService(old(etcd.register), old(isServing), selfID, now, fault)
    {
      var opts := if isServing then Lease.PrevValue(selfID) else Lease.PrevNoExist;
      var err := etcd.Set(opts, selfID, now, fault);
      if !err {
        isServing := true;
      } else {
        isServing := false;
      }
    }

    /** The body of the ticker loop: offer, and run a pass only when serving and due. A pass starts with the key freshly
        granted to this tracker. `later` is when the pass ends. */
    method Tick(tree: Option<seq<CustNode>>, now: nat, later: nat, fault: Lease.Fault)
      returns (updated: bool, ghost trace: seq<Event>)
      requires Valid()
      modifies this`isServing, this`lastUpdateTime, etcd, db`table, db`clock, log
      ensures (etcd.register, isServing) ==
              Lease.OfferService(old(etcd.register), old(isServing), selfID, now, fault)
      ensures updated <==>
              isServing && (old(lastUpdateTime).None? || now >= old(lastUpdateTime).value + 180_000_000_000)
      ensures updated ==> etcd.register == Lease.Held(selfID, now + Lease.SERVICE_TTL)
      ensures lastUpdateTime == if updated then Some(later) else old(lastUpdateTime)
      ensures log.events == old(log.events) + trace
      ensures if updated then PassTrace(tree, old(db.table), trace) else trace == []
      ensures db.table == ReplayAll(old(db.table), trace)
    {
      hide PassTrace;
      OfferService(now, fault);
      updated := isServing && IsTimeToUpdate(now);
      trace := [];
      if updated {
        trace := UpdateSeen(tree);
        lastUpdateTime := Some(later);
      }
    }

    method UpdateSeen(tree: Option<seq<CustNode>>) returns (ghost trace: seq<Event>)
      requires Valid()
      modifies db`table, db`clock, log
      ensures log.events == old(log.events) + trace
      ensures PassTrace(tree, old(db.table), trace)
      ensures db.table == ReplayAll(old(db.table), trace)
      ensures db.clock >= old(db.clock)
    {
      hide *;
      trace := [];
      if tree.None? {
        UnreadTree(db.table);
        return;
      }
      var sent: bool;
      sent, trace := SendSightings(tree.value);
      if !sent {
        StoppedPass(tree.value, old(db.table), trace);
        return;
      }
      trace := Reconcile(tree.value, old(db.table), trace);
    }

    /** The query for pending states and what follows it, after all batches succeeded. */
    method Reconcile(ghost tree: seq<CustNode>, ghost table: Table, ghost seen: seq<Event>)
      returns (ghost trace: seq<Event>)
      requires Valid() && db.table == ReplayAll(table, seen)
      requires SeenInBatches(seen) && SeenPairs(seen) == Listed(tree) && (seen != [] ==> seen[|seen| - 1].ok)
      modifies db`table, db`clock, log
      ensures seen <= trace && log.events == old(log.events) + trace[|seen|..]
      ensures PassTrace(Some(tree), table, trace)
      ensures db.table == ReplayAll(table, trace)
      ensures db.clock >= old(db.clock)
    {
      hide ReplayAll, SeenPairs, Listed, SeenInBatches, Transitions, PassTrace, Enumerates, PendingIds;
      var pending := db.GetPendingTrackingStates();
      ghost var query := Asked(db.clock - INACTIVE_INTERVAL, pending.Some?);
      ghost var rest, ids := [], [];
      if pending.Some? {
        rest := UpdateStates(pending.value);
        ids := StateIds(pending.value);
      }
      trace := seen + [query] + rest;
      QueriedPass(tree, table, seen, query, rest, ids);
      assert trace[|seen|..] == [query] + rest;
    }

    /** The nested loops over the tree, which fill and send the batches. */
    method SendSightings(tree: seq<CustNode>) returns (sent: bool, ghost trace: seq<Event>)
      requires Valid()
      modifies db`table, db`clock, log
      ensures log.events == old(log.events) + trace
      ensures db.table == ReplayAll(old(db.table), trace)
      ensures db.clock >= old(db.clock)
      ensures SeenInBatches(trace) && SeenPairs(trace) <= Listed(tree)
      ensures if sent then SeenPairs(trace) == Listed(tree) && (trace != [] ==> trace[|trace| - 1].ok)
              else trace != [] && !trace[|trace| - 1].ok
    {
      hide Listed, ListedBastions, SeenPairs, SeenInBatches, ReplayAll, CheckUUID, Batching, Pairs, Passed;
      ghost var table, calls := db.table, log.events;
      trace := [];
      NothingYet(table);
      var bastBatch, custBatch := new string[UPDATE_BATCH_SIZE], new string[UPDATE_BATCH_SIZE];
      var n := 0;
      NoPairsYet(bastBatch[..], custBatch[..]);
      assert tree[..0] == [];
      for c := 0 to |tree|
        invariant fresh(bastBatch) && fresh(custBatch) && bastBatch != custBatch
        invariant bastBatch.Length == custBatch.Length == UPDATE_BATCH_SIZE && 0 <= n < UPDATE_BATCH_SIZE
        invariant log.events == calls + trace && db.table == ReplayAll(table, trace) && db.clock >= old(db.clock)
        invariant Batching(trace, Pairs(bastBatch[..], custBatch[..], n), Listed(tree[..c]))
      {
        var custID, bastions := tree[c].id, tree[c].bastions;
        PassedCustomer(tree, c);
        if !CheckUUID(custID) {
          continue;
        }
        for b := 0 to |bastions|
          invariant fresh(bastBatch) && fresh(custBatch) && bastBatch != custBatch
          invariant bastBatch.Length == custBatch.Length == UPDATE_BATCH_SIZE && 0 <= n < UPDATE_BATCH_SIZE
          invariant log.events == calls + trace && db.table == ReplayAll(table, trace) && db.clock >= old(db.clock)
          invariant Batching(trace, Pairs(bastBatch[..], custBatch[..], n), Passed(tree, c, b))
        {
          var bastID, services := bastions[b].id, bastions[b].services;
          PassedBastion(tree, c, b);
          if !CheckUUID(bastID) {
            continue;
          }
          if services.None? {
            continue;
          }
          if "checker" !in services.value {
            continue;
          }
          bastBatch, custBatch, n, sent, trace := AddSighting(
            bastBatch, custBatch, n, bastID, custID, table, calls, trace, Passed(tree, c, b));
          if !sent {
            PassedPrefix(tree, c, b + 1);
            return;
          }
        }
      }
      assert tree[..|tree|] == tree;
      AllButTheRest(trace, bastBatch[..], custBatch[..], n, Listed(tree));
      sent := true;
      if n > 0 {
        sent, trace := Send(bastBatch, custBatch, n, table, calls, trace);
      }
    }

    /** Appends a pair to the batch; a full batch is sent, and new slices are made for the next one. */
    method AddSighting(
      bastBatch: array<string>, custBatch: array<string>, n: nat, bastID: string, custID: string,
      ghost table: Table, ghost calls: seq<Event>, ghost before: seq<Event>, ghost passed: seq<Sighting>)
      returns (bastNext: array<string>, custNext: array<string>, m: nat, sent: bool, ghost trace: seq<Event>)
      requires Valid() && bastBatch != custBatch && n < UPDATE_BATCH_SIZE
      requires bastBatch.Length == custBatch.Length == UPDATE_BATCH_SIZE
      requires db.table == ReplayAll(table, before) && log.events == calls + before
      requires Batching(before, Pairs(bastBatch[..], custBatch[..], n), passed)
      modifies db`table, db`clock, log, bastBatch, custBatch
      ensures bastNext == bastBatch || fresh(bastNext)
      ensures custNext == custBatch || fresh(custNext)
      ensures bastNext != custNext && bastNext.Length == custNext.Length == UPDATE_BATCH_SIZE && m <= UPDATE_BATCH_SIZE
      ensures sent ==> m < UPDATE_BATCH_SIZE
      ensures log.events == calls + trace
      ensures db.table == ReplayAll(table, trace) && db.clock >= old(db.clock)
      ensures if sent then
                Batching(trace, Pairs(bastNext[..], custNext[..], m), passed + [Sighting(bastID, custID)])
              else
                && SeenInBatches(trace) && SeenPairs(trace) == passed + [Sighting(bastID, custID)]
                && trace != [] && !trace[|trace| - 1].ok
    {
      hide ReplayAll, SeenPairs, SeenInBatches;
      ghost var batch := Pairs(bastBatch[..], custBatch[..], n);
      bastNext, custNext, m, sent, trace := bastBatch, custBatch, n + 1, true, before;
      bastNext[n], custNext[n] := bastID, custID;
      assert Pairs(bastNext[..], custNext[..], m) == batch + [Sighting(bastID, custID)];
      assert SeenPairs(trace) + Pairs(bastNext[..], custNext[..], m) == passed + [Sighting(bastID, custID)];
      if m == UPDATE_BATCH_SIZE {
        sent, trace := Send(bastNext, custNext, m, table, calls, before);
        if !sent {
          return;
        }
        bastNext, custNext := new string[UPDATE_BATCH_SIZE], new string[UPDATE_BATCH_SIZE];
        m := 0;
        assert Pairs(bastNext[..], custNext[..], m) == [];
      }
    }

    /** Sends one batch after the earlier ones. */
    method Send(
      bastBatch: array<string>, custBatch: array<string>, n: nat,
      ghost table: Table, ghost calls: seq<Event>, ghost before: seq<Event>)
      returns (ok: bool, ghost trace: seq<Event>)
      requires Valid() && bastBatch != custBatch && 0 < n <= bastBatch.Length && n <= custBatch.Length
      requires n <= UPDATE_BATCH_SIZE && db.table == ReplayAll(table, before) && log.events == calls + before
      requires SeenInBatches(before) &&
               forall k | 0 <= k < |before| :: before[k].ok && |before[k].batch| == UPDATE_BATCH_SIZE
      modifies db`table, db`clock, log, bastBatch, custBatch
      ensures |trace| == |before| + 1 && trace == before + [trace[|before|]] && trace[|before|].ok == ok
      ensures trace[|before|].Seen? && |trace[|before|].batch| == n
      ensures SeenInBatches(trace)
      ensures SeenPairs(trace) == SeenPairs(before) + Pairs(old(bastBatch[..]), old(custBatch[..]), n)
      ensures log.events == calls + trace
      ensures db.table == ReplayAll(table, trace) && db.clock >= old(db.clock)
    {
      hide Upsert, Insertable;
      ok := db.UpdateTrackingSeen(bastBatch, custBatch, n);
      ghost var sent := log.events[|log.events| - 1];
      trace := before + [sent];
      assert trace[..|trace| - 1] == before;
      assert calls + before + [sent] == calls + trace;
    }

    /** The final loop: for each state to change, notify and then write. */
    method UpdateStates(states: seq<TrackingState>) returns (ghost trace: seq<Event>)
      requires Valid()
      requires forall s | s in states :: s.id in db.table && db.table[s.id].status == s.status
      modifies db`table, db`clock, log
      ensures log.events == old(log.events) + trace
      ensures db.table == ReplayAll(old(db.table), trace)
      ensures forall id | id in StateIds(states) :: id in old(db.table)
      ensures Transitions(old(db.table), StateIds(states), trace)
      ensures db.clock >= old(db.clock)
    {
      hide Transitions, ReplayAll, StateIds;
      ghost var table := db.table;
      trace := [];
      NoTransitionsYet(table, states);
      StateIdsIn(states, table);
      for k := 0 to |states|
        invariant log.events == old(log.events) + trace
        invariant db.table == ReplayAll(table, trace) && db.table.Keys == table.Keys && db.clock >= old(db.clock)
        invariant forall id | id in StateIds(states[..k]) :: id in table
        invariant Transitions(table, StateIds(states[..k]), trace)
      {
        var s := states[k];
        assert s in states;
        StateIdsSnoc(states, k);
        ghost var tail := UpdateState(s, table);
        Passes.ReplayConcat(table, trace, tail);
        TransitionsSnoc(table, StateIds(states[..k]), trace, s.id, tail);
        trace := trace + tail;
      }
      assert states[..|states|] == states;
    }

    method UpdateState(s: TrackingState, ghost table: Table) returns (ghost tail: seq<Event>)
      requires Valid()
      requires s.id in table && table[s.id].status == s.status && s.id in db.table
      modifies db`table, db`clock, log
      ensures log.events == old(log.events) + tail
      ensures db.table == ReplayAll(old(db.table), tail) && db.table.Keys == old(db.table.Keys)
      ensures Transitions(table, [s.id], tail)
      ensures db.clock >= old(db.clock)
    {
      ghost var calls := |log.events|;
      var ok: bool;
      if s.status == Active {
        ok := notifier.NotifySlackBastionState(false, s.id);
        if ok {
          ok := db.UpdateTrackingState(s.id, false);
        }
      } else {
        ok := notifier.NotifySlackBastionState(true, s.id);
        if ok {
          ok := db.UpdateTrackingState(s.id, true);
        }
      }
      tail := log.events[calls..];
      assert tail[..1] == [tail[0]] && [tail[0]][..0] == [];
      assert ReplayAll(old(db.table), tail[..1]) == old(db.table);
      if |tail| == 2 {
        assert tail == [tail[0], tail[1]] && tail[2..] == [];
      } else {
        assert tail == tail[..1] && tail[1..] == [];
      }
    }
  }

  lemma UnreadTree(table: Table)
    ensures PassTrace(None, table, []) && ReplayAll(table, []) == table
  {
  }

  lemma {:induction false} StoppedPass(tree: seq<CustNode>, table: Table, trace: seq<Event>)
    requires SeenInBatches(trace) && SeenPairs(trace) <= Listed(tree) && trace != [] && !trace[|trace| - 1].ok
    ensures PassTrace(Some(tree), table, trace)
  {
    assert trace[..|trace|] == trace;
    assert PassSplit(Listed(tree), table, trace, |trace|);
  }

  lemma {:induction false} QueriedPass(
    tree: seq<CustNode>, table: Table, seen: seq<Event>, query: Event, rest: seq<Event>, pending: seq<string>)
    requires SeenInBatches(seen) && SeenPairs(seen) == Listed(tree) && (seen != [] ==> seen[|seen| - 1].ok)
    requires query.Asked?
    requires var queried := ReplayAll(table, seen);
             if query.ok then
               Enumerates(pending, PendingIds(queried, query.cutoff)) && Transitions(queried, pending, rest)
             else rest == []
    ensures PassTrace(Some(tree), table, seen + [query] + rest)
    ensures ReplayAll(table, seen + [query] + rest) == ReplayAll(ReplayAll(table, seen), rest)
    ensures rest == [] ==> ReplayAll(table, seen + [query] + rest) == ReplayAll(table, seen)
  {
    var trace, n := seen + [query] + rest, |seen|;
    assert trace[..n] == seen && trace[n] == query && trace[n + 1..] == rest;
    Passes.ReplaySplit(table, trace, n);
    if query.ok {
      assert Answered(ReplayAll(table, trace[..n]), trace, n, pending);
    }
    assert PassSplit(Listed(tree), table, trace, n);
  }

  lemma NothingYet(table: Table)
    ensures SeenInBatches([]) && SeenPairs([]) == [] && Listed([]) == [] && ReplayAll(table, []) == table
    ensures Batching([], [], [])
  {
  }

  lemma NoPairsYet(bastIDs: seq<string>, custIDs: seq<string>)
    ensures Pairs(bastIDs, custIDs, 0) == []
  {
  }

  lemma AllButTheRest(
    trace: seq<Event>, bastIDs: seq<string>, custIDs: seq<string>, n: nat, passed: seq<Sighting>)
    requires n <= |bastIDs| && n <= |custIDs| && Batching(trace, Pairs(bastIDs, custIDs, n), passed)
    ensures SeenInBatches(trace) && forall k | 0 <= k < |trace| :: trace[k].ok && |trace[k].batch| == UPDATE_BATCH_SIZE
    ensures SeenPairs(trace) + Pairs(bastIDs, custIDs, n) == passed && (n == 0 ==> SeenPairs(trace) == passed)
  {
  }

  lemma NoTransitionsYet(table: Table, states: seq<TrackingState>)
    ensures ReplayAll(table, []) == table && StateIds(states[..0]) == []
    ensures Transitions(table, StateIds(states[..0]), [])
  {
  }

  lemma StateIdsSnoc(states: seq<TrackingState>, k: nat)
    requires k < |states|
    ensures StateIds(states[..k + 1]) == StateIds(states[..k]) + [states[k].id]
  {
  }

  lemma StateIdsIn(states: seq<TrackingState>, table: Table)
    requires forall s | s in states :: s.id in table
    ensures forall k, id | 0 <= k <= |states| && id in StateIds(states[..k]) :: id in table
  {
    forall k, id | 0 <= k <= |states| && id in StateIds(states[..k])
      ensures id in table
    {
      var i :| 0 <= i < k && StateIds(states[..k])[i] == id;
      assert states[i] in states;
    }
  }

  lemma {:induction false} TransitionsSnoc(
    table: Table, pending: seq<string>, trace: seq<Event>, id: string, tail: seq<Event>)
    requires id in table && forall p | p in pending :: p in table
    requires Transitions(table, pending, trace) && Transitions(table, [id], tail)
    ensures Transitions(table, pending + [id], trace + tail)
    decreases |pending|
  {
    if pending == [] {
      assert trace + tail == tail && pending + [id] == [id];
    } else {
      var w := Passes.Width(trace);
      TransitionsSnoc(table, pending[1..], trace[w..], id, tail);
      assert (pending + [id])[1..] == pending[1..] + [id] && (trace + tail)[w..] == trace[w..] + tail;
    }
  }

  lemma ListedBastionsSnoc(customer: string, nodes: seq<BastNode>, b: nat)
    requires b < |nodes|
    ensures ListedBastions(customer, nodes[..b + 1]) ==
            ListedBastions(customer, nodes[..b]) +
            if HasChecker(nodes[b]) then [Sighting(nodes[b].id, customer)] else []
  {
    assert nodes[..b + 1][..b] == nodes[..b];
  }

  lemma ListedSnoc(tree: seq<CustNode>, c: nat)
    requires c < |tree|
    ensures Listed(tree[..c + 1]) ==
            Listed(tree[..c]) + if CheckUUID(tree[c].id) then ListedBastions(tree[c].id, tree[c].bastions) else []
  {
    assert tree[..c + 1][..c] == tree[..c];
  }

  lemma {:induction false} ListedBastionsPrefix(customer: string, nodes: seq<BastNode>, b: nat)
    requires b <= |nodes|
    ensures ListedBastions(customer, nodes[..b]) <= ListedBastions(customer, nodes)
    decreases |nodes| - b
  {
    if b < |nodes| {
      ListedBastionsSnoc(customer, nodes, b);
      ListedBastionsPrefix(customer, nodes, b + 1);
    } else {
      assert nodes[..b] == nodes;
    }
  }

  lemma {:induction false} ListedTreePrefix(tree: seq<CustNode>, c: nat)
    requires c <= |tree|
    ensures Listed(tree[..c]) <= Listed(tree)
    decreases |tree| - c
  {
    if c < |tree| {
      ListedSnoc(tree, c);
      ListedTreePrefix(tree, c + 1);
    } else {
      assert tree[..c] == tree;
    }
  }

  /** What the nested loops have passed at bastion `b` of customer `c`. */
  function Passed(tree: seq<CustNode>, c: nat, b: nat): seq<Sighting>
    requires c < |tree| && b <= |tree[c].bastions|
  {
    Listed(tree[..c]) + ListedBastions(tree[c].id, tree[c].bastions[..b])
  }

  lemma PassedCustomer(tree: seq<CustNode>, c: nat)
    requires c < |tree|
    ensures Passed(tree, c, 0) == Listed(tree[..c])
    ensures Listed(tree[..c + 1]) ==
            if CheckUUID(tree[c].id) then Passed(tree, c, |tree[c].bastions|) else Listed(tree[..c])
  {
    var nodes := tree[c].bastions;
    assert nodes[..0] == [] && nodes[..|nodes|] == nodes;
    ListedSnoc(tree, c);
  }

  lemma PassedBastion(tree: seq<CustNode>, c: nat, b: nat)
    requires c < |tree| && b < |tree[c].bastions|
    ensures Passed(tree, c, b + 1) ==
            if HasChecker(tree[c].bastions[b]) then Passed(tree, c, b) + [Sighting(tree[c].bastions[b].id, tree[c].id)]
            else Passed(tree, c, b)
  {
    ListedBastionsSnoc(tree[c].id, tree[c].bastions, b);
  }

  lemma PassedPrefix(tree: seq<CustNode>, c: nat, b: nat)
    requires c < |tree| && b <= |tree[c].bastions| && CheckUUID(tree[c].id)
    ensures Passed(tree, c, b) <= Listed(tree)
  {
    ListedBastionsPrefix(tree[c].id, tree[c].bastions, b);
    ListedSnoc(tree, c);
    ListedTreePrefix(tree, c + 1);
  }
}
