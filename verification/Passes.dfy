/** What tracking passes guarantee, proved for every trace updateSeen can produce and for every run of passes by one
    active writer. */
module Passes {
  import opened Options
  import opened Tracking

  lemma {:induction false} ReplayConcat(table: Table, a: seq<Event>, b: seq<Event>)
    ensures ReplayAll(table, a + b) == ReplayAll(ReplayAll(table, a), b)
  {
    if b == [] {
      assert a + b == a;
    } else {
      ReplayConcat(table, a, b[..|b| - 1]);
      assert (a + b)[..|a + b| - 1] == a + b[..|b| - 1];
    }
  }

  lemma NothingReplayed(table: Table)
    ensures ReplayAll(table, []) == table
  {
  }

  ghost predicate AllOk(trace: seq<Event>) {
    forall k | 0 <= k < |trace| :: trace[k].ok
  }

  lemma ReplaySplit(table: Table, trace: seq<Event>, k: nat)
    requires k < |trace|
    ensures ReplayAll(table, trace) == ReplayAll(Replay(ReplayAll(table, trace[..k]), trace[k]), trace[k + 1..])
  {
    var front := trace[..k + 1];
    assert trace == front + trace[k + 1..] && front[..k] == trace[..k];
    ReplayConcat(table, front, trace[k + 1..]);
  }

  /** The number of events one pending bastion takes. */
  function Width(trace: seq<Event>): nat
    requires trace != []
  {
    if trace[0].ok then 2 else 1
  }

  ghost predicate ChangesStatus(e: Event, id: string) {
    e.Wrote? && e.stored && e.bastion == id
  }

  /** Some write for the bastion reached the table. */
  ghost predicate Written(trace: seq<Event>, id: string) {
    exists m | 0 <= m < |trace| :: ChangesStatus(trace[m], id)
  }

  lemma WrittenConcat(a: seq<Event>, b: seq<Event>, id: string)
    ensures Written(a + b, id) <==> Written(a, id) || Written(b, id)
  {
    if m :| 0 <= m < |a| && ChangesStatus(a[m], id) {
      assert (a + b)[m] == a[m];
    }
    if m :| 0 <= m < |b| && ChangesStatus(b[m], id) {
      assert (a + b)[|a| + m] == b[m];
    }
  }

  /** The transitions touch only the pending rows, and only their status. A pending row flips exactly when its own write
      reached the table, whatever fails for the others; if everything succeeds they all do. */
  lemma {:induction false} TransitionsEffect(
    table: Table, now: Table, pending: seq<string>, trace: seq<Event>, id: string)
    requires forall p | p in pending :: p in table && p in now
    requires forall i, j | 0 <= i < j < |pending| :: pending[i] != pending[j]
    requires Transitions(table, pending, trace) && id in now
    ensures ReplayAll(now, trace).Keys == now.Keys
    ensures Written(trace, id) ==> id in pending
    ensures id in pending && AllOk(trace) ==> Written(trace, id)
    ensures ReplayAll(now, trace)[id] ==
            if Written(trace, id) then now[id].(status := StatusFor(table[id].status != Active)) else now[id]
    decreases |pending|
  {
    if pending == [] {
    } else {
      var w := Width(trace);
      var front, rest := trace[..w], trace[w..];
      assert trace == front + rest;
      ReplayConcat(now, front, rest);
      WrittenConcat(front, rest, id);
      TransitionEffect(table, now, pending[0], front, id);
      TransitionsEffect(table, ReplayAll(now, front), pending[1..], rest, id);
    }
  }

  /** What is done about one pending bastion. */
  lemma TransitionEffect(table: Table, now: Table, p: string, trace: seq<Event>, id: string)
    requires p in table && p in now && trace != [] && |trace| == Width(trace)
    requires trace[0].Notified? && trace[0].bastion == p
    requires trace[0].ok ==> trace[1].Wrote? && trace[1].bastion == p && trace[1].up == (table[p].status != Active)
    requires trace[0].ok && trace[1].ok ==> trace[1].stored
    ensures ReplayAll(now, trace).Keys == now.Keys
    ensures Written(trace, id) ==> id == p
    ensures AllOk(trace) ==> Written(trace, p)
    ensures id in now ==>
              ReplayAll(now, trace)[id] ==
              if Written(trace, id) then now[id].(status := StatusFor(table[id].status != Active)) else now[id]
  {
    assert trace[..1] == [trace[0]] && [trace[0]][..0] == [];
    assert ReplayAll(now, [trace[0]]) == now;
    if trace[0].ok {
      assert trace == [trace[0], trace[1]];
      assert Written(trace, p) <==> ChangesStatus(trace[1], p);
    }
  }

  lemma TransitionsKeepKeys(table: Table, now: Table, pending: seq<string>, trace: seq<Event>)
    requires forall p | p in pending :: p in table && p in now
    requires forall i, j | 0 <= i < j < |pending| :: pending[i] != pending[j]
    requires Transitions(table, pending, trace)
    ensures ReplayAll(now, trace).Keys == now.Keys
  {
    if id :| id in now {
      TransitionsEffect(table, now, pending, trace, id);
    } else {
      assert pending == [] by {
        assert forall i | 0 <= i < |pending| :: pending[i] in pending;
      }
    }
  }

  lemma {:induction false} TransitionsShape(table: Table, pending: seq<string>, trace: seq<Event>, k: nat)
    requires forall p | p in pending :: p in table
    requires Transitions(table, pending, trace) && k < |trace|
    ensures trace[k].Notified? || trace[k].Wrote?
    ensures trace[k].bastion in pending && trace[k].up == (table[trace[k].bastion].status != Active)
    ensures trace[k].Wrote? ==> k > 0 && trace[k - 1] == Notified(trace[k].bastion, trace[k].up, true)
    decreases |pending|
  {
    var w := Width(trace);
    if k >= w {
      TransitionsShape(table, pending[1..], trace[w..], k - w);
      assert trace[w..][k - w] == trace[k];
      if trace[k].Wrote? {
        assert trace[w..][k - w - 1] == trace[k - 1];
      }
    }
  }

  /** A pass that gets to its query does so once, after all its batches succeeded. */
  lemma {:induction false} QueryFollowsBatches(listed: seq<Sighting>, table: Table, trace: seq<Event>, n: nat, k: nat)
    requires n <= |trace| && PassSplit(listed, table, trace, n) && k < |trace| && trace[k].Asked?
    ensures n == k && SeenPairs(trace[..n]) == listed
    ensures forall m | 0 <= m < n :: trace[m].ok
  {
    assert forall m | 0 <= m < n :: trace[..n][m] == trace[m];
    if n < k {
      var rows := ReplayAll(table, trace[..n]);
      var found: seq<string> :| Answered(rows, trace, n, found);
      TransitionsShape(rows, found, trace[n + 1..], k - n - 1);
      assert false;
    }
  }

  /** The number of batches of a pass; what follows them is the query and then the transitions. */
  lemma {:induction false} PassShape(listed: seq<Sighting>, table: Table, trace: seq<Event>, n: nat)
    requires n <= |trace| && PassSplit(listed, table, trace, n)
    ensures forall m | 0 <= m < n :: trace[m].Seen?
    ensures forall m | 0 <= m < n - 1 :: trace[m].ok
    ensures n > 0 && !trace[n - 1].ok ==> n == |trace|
    ensures n < |trace| ==> trace[n].Asked? && (n + 1 < |trace| ==> trace[n].ok)
    ensures forall m | n < m < |trace| :: trace[m].Notified? || trace[m].Wrote?
  {
    assert forall m | 0 <= m < n :: trace[..n][m] == trace[m];
    if n < |trace| && trace[n].ok {
      var rows := ReplayAll(table, trace[..n]);
      var found: seq<string> :| Answered(rows, trace, n, found);
      forall m | n < m < |trace|
        ensures trace[m].Notified? || trace[m].Wrote?
      {
        TransitionsShape(rows, found, trace[n + 1..], m - n - 1);
      }
    }
  }

  /** The bastions a pass finds pending, and what it does about them. */
  lemma {:induction false} QueryOf(tree: Option<seq<CustNode>>, table: Table, trace: seq<Event>, k: nat)
    returns (pending: seq<string>)
    requires PassTrace(tree, table, trace) && k < |trace| && trace[k].Asked?
    ensures tree.Some? && SeenInBatches(trace[..k]) && SeenPairs(trace[..k]) == Listed(tree.value)
    ensures forall m | 0 <= m < k :: trace[m].Seen? && trace[m].ok && trace[m].stored
    ensures forall m | k < m < |trace| :: trace[m].Notified? || trace[m].Wrote?
    ensures if trace[k].ok then Answered(ReplayAll(table, trace[..k]), trace, k, pending)
            else |trace| == k + 1
  {
    var n: nat :| n <= |trace| && PassSplit(Listed(tree.value), table, trace, n);
    PassShape(Listed(tree.value), table, trace, n);
    QueryFollowsBatches(Listed(tree.value), table, trace, n, k);
    forall m | 0 <= m < k
      ensures trace[m].Seen? && trace[m].stored
    {
      assert trace[..k][m] == trace[m];
    }
    if trace[k].ok {
      pending :| Answered(ReplayAll(table, trace[..k]), trace, k, pending);
    } else {
      pending := [];
    }
  }

  // Batching

  function BatchesOf(trace: seq<Event>): seq<seq<Sighting>>
    requires forall m | 0 <= m < |trace| :: trace[m].Seen?
  {
    seq(|trace|, m requires 0 <= m < |trace| => trace[m].batch)
  }

  function TimesOf(trace: seq<Event>): seq<int>
    requires forall m | 0 <= m < |trace| :: trace[m].Seen?
  {
    seq(|trace|, m requires 0 <= m < |trace| => trace[m].at)
  }

  lemma {:induction false} BatchesAreUpserts(table: Table, trace: seq<Event>)
    requires forall m | 0 <= m < |trace| :: trace[m].Seen? && trace[m].stored
    ensures ReplayAll(table, trace) == UpsertAll(table, BatchesOf(trace), TimesOf(trace))
    ensures SeenPairs(trace) == Flatten(BatchesOf(trace))
    decreases |trace|
  {
    if trace == [] {
    } else {
      var first, rest := trace[..1], trace[1..];
      assert trace == first + rest && first[..0] == [];
      ReplayConcat(table, first, rest);
      SeenPairsConcat(first, rest);
      var table' := Upsert(table, trace[0].batch, trace[0].at);
      assert ReplayAll(table, first) == table' && SeenPairs(first) == trace[0].batch;
      BatchesAreUpserts(table', rest);
      UpsertAllFirst(table, trace);
    }
  }

  lemma UpsertAllFirst(table: Table, trace: seq<Event>)
    requires trace != [] && forall m | 0 <= m < |trace| :: trace[m].Seen?
    ensures var table' := Upsert(table, trace[0].batch, trace[0].at);
            UpsertAll(table, BatchesOf(trace), TimesOf(trace)) ==
            UpsertAll(table', BatchesOf(trace[1..]), TimesOf(trace[1..]))
    ensures Flatten(BatchesOf(trace)) == trace[0].batch + Flatten(BatchesOf(trace[1..]))
  {
    assert BatchesOf(trace)[1..] == BatchesOf(trace[1..]) && TimesOf(trace)[1..] == TimesOf(trace[1..]);
  }

  lemma {:induction false} SeenPairsConcat(a: seq<Event>, b: seq<Event>)
    ensures SeenPairs(a + b) == SeenPairs(a) + SeenPairs(b)
  {
    if b == [] {
      assert a + b == a;
    } else {
      SeenPairsConcat(a, b[..|b| - 1]);
      assert (a + b)[..|a + b| - 1] == a + b[..|b| - 1];
    }
  }

  /** A pass whose batches all succeed sends the listed pairs in tree order, in full batches but for the last, and
      leaves what one upsert of the whole list leaves, up to timestamps. */
  lemma {:induction false} PassUpsertsList(tree: seq<CustNode>, table: Table, trace: seq<Event>, k: nat, now: int)
    requires PassTrace(Some(tree), table, trace) && k < |trace| && trace[k].Asked?
    ensures forall m | 0 <= m < k :: trace[m].Seen? && 1 <= |trace[m].batch| <= 128
    ensures forall m | 0 <= m < k - 1 :: |trace[m].batch| == 128
    ensures Flatten(BatchesOf(trace[..k])) == Listed(tree)
    ensures SameUpToLastSeen(ReplayAll(table, trace[..k]), Upsert(table, Listed(tree), now))
  {
    var pending := QueryOf(Some(tree), table, trace, k);
    assert forall m | 0 <= m < k :: trace[..k][m] == trace[m];
    BatchesAreUpserts(table, trace[..k]);
    BatchesRefineOneUpsert(table, BatchesOf(trace[..k]), TimesOf(trace[..k]), now);
  }

  // Reconciliation

  function Flip(status: Status): Status {
    match status
    case Active => Inactive
    case Inactive => Active
    case _ => status
  }

  /** What a row becomes when everything succeeds with cutoff `c`: seen after it active, seen before it inactive, seen
      exactly at it flipped; other statuses stay. */
  function Reconciled(row: Row, c: int): Row {
    if row.status != Active && row.status != Inactive then row
    else if row.lastSeen > c then row.(status := Active)
    else if row.lastSeen < c then row.(status := Inactive)
    else row.(status := Flip(row.status))
  }

  predicate IsPending(row: Row, c: int) {
    (row.status == Active && row.lastSeen <= c) || (row.status == Inactive && row.lastSeen >= c)
  }

  /** What a pass does after its query at cutoff `c`, whatever fails: a row is flipped exactly when it was pending and
      its own write reached the table. Everything else stays as the query found it. */
  lemma {:induction false} PassFlipsWritten(
    tree: Option<seq<CustNode>>, table: Table, trace: seq<Event>, k: nat, id: string)
    requires PassTrace(tree, table, trace) && k < |trace| && trace[k].Asked?
    ensures var queried, after := ReplayAll(table, trace[..k]), ReplayAll(table, trace);
            && after.Keys == queried.Keys
            && (id in queried ==>
                  && after[id] == (if Written(trace, id) then queried[id].(status := Flip(queried[id].status))
                                   else queried[id])
                  && (Written(trace, id) ==> IsPending(queried[id], trace[k].cutoff))
                  && (AllOk(trace) && IsPending(queried[id], trace[k].cutoff) ==> Written(trace, id)))
  {
    hide PassTrace, Transitions;
    var pending := QueryOf(tree, table, trace, k);
    var queried, rest := ReplayAll(table, trace[..k]), trace[k + 1..];
    ReplaySplit(table, trace, k);
    WrittenAfterQuery(trace, k, id);
    if trace[k].ok {
      TransitionsKeepKeys(queried, queried, pending, rest);
      if id in queried {
        TransitionsEffect(queried, queried, pending, rest, id);
      }
    } else {
      assert rest == [];
    }
  }

  lemma WrittenAfterQuery(trace: seq<Event>, k: nat, id: string)
    requires k < |trace| && forall m | 0 <= m <= k :: !trace[m].Wrote?
    ensures Written(trace, id) <==> Written(trace[k + 1..], id)
  {
    WrittenConcat(trace[..k + 1], trace[k + 1..], id);
    assert trace == trace[..k + 1] + trace[k + 1..];
  }

  lemma {:induction false} PassReconciles(
    tree: Option<seq<CustNode>>, table: Table, trace: seq<Event>, k: nat, id: string)
    requires PassTrace(tree, table, trace) && AllOk(trace) && k < |trace| && trace[k].Asked?
    ensures var queried, after := ReplayAll(table, trace[..k]), ReplayAll(table, trace);
            && after.Keys == queried.Keys
            && (id in queried ==> after[id] == Reconciled(queried[id], trace[k].cutoff))
  {
    PassFlipsWritten(tree, table, trace, k, id);
  }

  /** A second successful pass with nothing newly seen, at any cutoff, reconciles what the first one left. Hence at a
      later cutoff every row last seen before it settles: one last seen at the first cutoff or earlier is inactive after
      the second pass, whichever way the first one flipped it. */
  lemma {:induction false} NextPassSettles(
    tree: Option<seq<CustNode>>, table: Table, first: seq<Event>, k: nat,
    tree': Option<seq<CustNode>>, second: seq<Event>, id: string)
    requires PassTrace(tree, table, first) && AllOk(first) && k < |first| && first[k].Asked?
    requires PassTrace(tree', ReplayAll(table, first), second) && AllOk(second)
    requires second != [] && second[0].Asked?
    requires id in ReplayAll(table, first)
    ensures var after, again := ReplayAll(table, first), ReplayAll(ReplayAll(table, first), second);
            && id in again && again[id] == Reconciled(after[id], second[0].cutoff)
            && (first[k].cutoff < second[0].cutoff && after[id].lastSeen <= first[k].cutoff ==>
                  again[id].status != Active &&
                  (after[id].lastSeen < first[k].cutoff ==> again[id] == after[id]))
  {
    hide PassTrace, ReplayAll, AllOk;
    PassReconciles(tree, table, first, k, id);
    assert second[..0] == [];
    NothingReplayed(ReplayAll(table, first));
    PassReconciles(tree', ReplayAll(table, first), second, 0, id);
  }

  /** A second successful pass at the same cutoff with nothing newly seen changes no row, except that a row seen
      exactly at the cutoff satisfies both halves of the query and flips again. */
  lemma {:induction false} RepeatedPassOnlyFlipsBoundary(
    tree: Option<seq<CustNode>>, table: Table, first: seq<Event>, k: nat,
    tree': Option<seq<CustNode>>, second: seq<Event>, id: string)
    requires PassTrace(tree, table, first) && AllOk(first) && k < |first| && first[k].Asked?
    requires PassTrace(tree', ReplayAll(table, first), second) && AllOk(second)
    requires second != [] && second[0].Asked? && second[0].cutoff == first[k].cutoff
    requires id in ReplayAll(table, first)
    ensures var after, again := ReplayAll(table, first), ReplayAll(ReplayAll(table, first), second);
            && id in again
            && again[id] == if after[id].lastSeen == first[k].cutoff then after[id].(status := Flip(after[id].status))
                            else after[id]
  {
    PassReconciles(tree, table, first, k, id);
    assert second[..0] == [];
    PassReconciles(tree', ReplayAll(table, first), second, 0, id);
  }

  /** Such a row, concretely: one pass whose cutoff equals its last sighting reports it down if it was active and up if
      it was inactive. */
  lemma BoundaryPass(id: string, row: Row)
    requires row.status == Active || row.status == Inactive
    ensures var up := row.status == Inactive;
            var trace := [Asked(row.lastSeen, true), Notified(id, up, true), Wrote(id, up, true, true)];
            && PassTrace(Some([]), map[id := row], trace) && AllOk(trace)
            && ReplayAll(map[id := row], trace) == map[id := row.(status := Flip(row.status))]
  {
    var table, up := map[id := row], row.status == Inactive;
    var query, notice, write := Asked(row.lastSeen, true), Notified(id, up, true), Wrote(id, up, true, true);
    var trace := [query, notice, write];
    assert trace[..0] == [] && trace[1..] == [notice, write] && [notice, write][2..] == [];
    assert trace[..2] == [query, notice] && [query, notice][..1] == [query] && [query][..0] == [];
    assert ReplayAll(table, [query]) == table && ReplayAll(table, [query, notice]) == table;
    assert PendingIds(table, row.lastSeen) == {id};
    assert [id][1..] == [] && Transitions(table, [id], [notice, write]);
    assert Answered(ReplayAll(table, trace[..0]), trace, 0, [id]);
    assert PassSplit(Listed([]), table, trace, 0);
  }

  // No false "down"

  /** The batch at `m` is the last one that lists the bastion. */
  ghost predicate LastListing(trace: seq<Event>, m: nat, id: string)
    requires m < |trace|
  {
    Lists(trace[m], id) && forall l | m < l < |trace| :: !Lists(trace[l], id)
  }

  predicate Lists(e: Event, id: string) {
    e.Seen? && id in Ids(e.batch)
  }

  lemma {:induction false} ListedAreSeen(table: Table, trace: seq<Event>, id: string, c: int)
    requires forall m | 0 <= m < |trace| :: trace[m].Seen? && trace[m].stored
    requires forall m | 0 <= m < |trace| && LastListing(trace, m, id) :: trace[m].at > c
    requires id in Ids(SeenPairs(trace))
    ensures id in ReplayAll(table, trace) && ReplayAll(table, trace)[id].lastSeen > c
  {
    var front, last := trace[..|trace| - 1], trace[|trace| - 1];
    assert forall m | 0 <= m < |front| :: front[m] == trace[m];
    IdsConcat(SeenPairs(front), last.batch);
    if id in Ids(last.batch) {
      assert LastListing(trace, |trace| - 1, id);
    } else {
      forall m | 0 <= m < |front| && LastListing(front, m, id)
        ensures front[m].at > c
      {
        assert LastListing(trace, m, id);
      }
      ListedAreSeen(table, front, id, c);
    }
  }

  /** A bastion that the pass's tree lists with a checker is not moved to inactive, nor reported down, by that pass,
      when the query's cutoff is earlier than the last batch listing it (the query runs less than the inactive interval
      after that batch). */
  lemma {:induction false} NoFalseDown(tree: seq<CustNode>, table: Table, trace: seq<Event>, k: nat, id: string)
    requires PassTrace(Some(tree), table, trace) && k < |trace| && trace[k].Asked?
    requires id in Ids(Listed(tree))
    requires forall m | 0 <= m < |trace| && LastListing(trace, m, id) :: trace[m].at > trace[k].cutoff
    ensures forall m | 0 <= m < |trace| && (trace[m].Notified? || trace[m].Wrote?) && trace[m].bastion == id ::
              trace[m].up
    ensures id in ReplayAll(table, trace)
    ensures id !in table || table[id].status == Active ==> ReplayAll(table, trace)[id].status == Active
  {
    hide PassTrace, Transitions, Listed;
    var pending := QueryOf(Some(tree), table, trace, k);
    var queried := ReplayAll(table, trace[..k]);
    assert forall m | 0 <= m < k :: trace[..k][m] == trace[m];
    LastListingBeforeQuery(trace, k, id);
    ListedAreSeen(table, trace[..k], id, trace[k].cutoff);
    SeenKeepsStatus(table, trace[..k], id);
    forall m | 0 <= m < |trace| && (trace[m].Notified? || trace[m].Wrote?) && trace[m].bastion == id
      ensures trace[m].up
    {
      assert m > k;
      TransitionsShape(queried, pending, trace[k + 1..], m - k - 1);
    }
    PassFlipsWritten(Some(tree), table, trace, k, id);
  }

  /** In the code's terms: when the query runs less than three minutes after the last batch listing the bastion. */
  lemma NoFalseDownInTime(
    tree: seq<CustNode>, table: Table, trace: seq<Event>, k: nat, id: string, asked: int)
    requires PassTrace(Some(tree), table, trace) && k < |trace|
    requires trace[k].Asked? && trace[k].cutoff == asked - 180_000_000_000
    requires exists c, b :: c in tree && b in c.bastions && ListsWithChecker(c, b, id)
    requires forall m | 0 <= m < |trace| && LastListing(trace, m, id) :: asked < trace[m].at + 180_000_000_000
    ensures forall m | 0 <= m < |trace| && (trace[m].Notified? || trace[m].Wrote?) && trace[m].bastion == id ::
              trace[m].up
    ensures id in ReplayAll(table, trace)
    ensures id !in table || table[id].status == Active ==> ReplayAll(table, trace)[id].status == Active
  {
    var c, b :| c in tree && b in c.bastions && ListsWithChecker(c, b, id);
    var s := Sighting(id, c.id);
    ListedExactly(tree, s);
    assert s in Listed(tree);
    NoFalseDown(tree, table, trace, k, id);
  }

  predicate ListsWithChecker(c: CustNode, b: BastNode, id: string) {
    CheckUUID(c.id) && CheckUUID(b.id) && b.id == id && b.services.Some? && "checker" in b.services.value
  }

  lemma LastListingBeforeQuery(trace: seq<Event>, k: nat, id: string)
    requires k < |trace| && forall l | k <= l < |trace| :: !trace[l].Seen?
    ensures forall m | 0 <= m < k && LastListing(trace[..k], m, id) :: LastListing(trace, m, id)
  {
    forall m | 0 <= m < k && LastListing(trace[..k], m, id)
      ensures LastListing(trace, m, id)
    {
      assert forall l | 0 <= l < k :: trace[..k][l] == trace[l];
    }
  }

  lemma {:induction false} SeenKeepsStatus(table: Table, trace: seq<Event>, id: string)
    requires forall m | 0 <= m < |trace| :: trace[m].Seen?
    requires id in ReplayAll(table, trace)
    ensures ReplayAll(table, trace)[id].status == if id in table then table[id].status else Active
  {
    if trace == [] {
    } else {
      var front := trace[..|trace| - 1];
      if id in ReplayAll(table, front) {
        SeenKeepsStatus(table, front, id);
      } else {
        SeenKeepsKeys(table, front, id);
      }
    }
  }

  lemma {:induction false} SeenKeepsKeys(table: Table, trace: seq<Event>, id: string)
    requires forall m | 0 <= m < |trace| :: trace[m].Seen?
    ensures id in table ==> id in ReplayAll(table, trace)
  {
    if trace == [] {
    } else {
      SeenKeepsKeys(table, trace[..|trace| - 1], id);
    }
  }

  /** After a failed batch the pass stops: no query, no notification, and no status changes. */
  lemma {:induction false} FailedBatchStopsPass(
    tree: seq<CustNode>, table: Table, trace: seq<Event>, k: nat, id: string)
    requires PassTrace(Some(tree), table, trace) && k < |trace| && trace[k].Seen? && !trace[k].ok
    ensures k == |trace| - 1 && forall m | 0 <= m < |trace| :: trace[m].Seen?
    ensures id in table ==> id in ReplayAll(table, trace) && ReplayAll(table, trace)[id].status == table[id].status
  {
    hide Transitions, Listed;
    var n: nat :| n <= |trace| && PassSplit(Listed(tree), table, trace, n);
    PassShape(Listed(tree), table, trace, n);
    SeenKeepsKeys(table, trace, id);
    if id in table {
      SeenKeepsStatus(table, trace, id);
    }
  }

  // Runs of passes by one active writer

  datatype PassRun = PassRun(tree: Option<seq<CustNode>>, trace: seq<Event>)

  ghost predicate RunOfPasses(table: Table, passes: seq<PassRun>)
    decreases |passes|
  {
    passes == [] ||
    (PassTrace(passes[0].tree, table, passes[0].trace) &&
     RunOfPasses(ReplayAll(table, passes[0].trace), passes[1..]))
  }

  function Journal(passes: seq<PassRun>): seq<Event> {
    if passes == [] then [] else passes[0].trace + Journal(passes[1..])
  }

  /** Every status write comes directly after a successful notification of the same change. */
  ghost predicate NotifiedFirst(journal: seq<Event>) {
    forall k | 0 <= k < |journal| && journal[k].Wrote? ::
      k > 0 && journal[k - 1] == Notified(journal[k].bastion, journal[k].up, true)
  }

  /** Every write that reaches the table changes the status it finds. */
  ghost predicate WritesFlip(table: Table, journal: seq<Event>) {
    forall k | 0 <= k < |journal| && journal[k].Wrote? && journal[k].stored ::
      HasStatus(ReplayAll(table, journal[..k]), journal[k].bastion, StatusFor(!journal[k].up))
  }

  predicate HasStatus(table: Table, id: string, status: Status) {
    id in table && table[id].status == status
  }

  lemma {:induction false} TransitionsFlip(table: Table, now: Table, pending: seq<string>, trace: seq<Event>)
    requires forall p | p in pending :: p in table && p in now && now[p].status == table[p].status
    requires forall p | p in pending :: table[p].status == Active || table[p].status == Inactive
    requires forall i, j | 0 <= i < j < |pending| :: pending[i] != pending[j]
    requires Transitions(table, pending, trace)
    ensures WritesFlip(now, trace)
    decreases |pending|
  {
    if pending == [] {
    } else {
      var w := Width(trace);
      var front, rest := trace[..w], trace[w..];
      assert pending[0] in pending && trace == front + rest;
      assert front[..1] == [trace[0]] && [trace[0]][..0] == [];
      assert ReplayAll(now, [trace[0]]) == now;
      if w == 2 {
        assert front == [trace[0], trace[1]];
      }
      assert WritesFlip(now, front);
      TransitionsFlip(table, ReplayAll(now, front), pending[1..], rest);
      FlipConcat(now, front, rest);
    }
  }

  lemma {:induction false} FlipConcat(table: Table, a: seq<Event>, b: seq<Event>)
    requires WritesFlip(table, a) && WritesFlip(ReplayAll(table, a), b)
    ensures WritesFlip(table, a + b)
  {
    forall k | 0 <= k < |a + b| && (a + b)[k].Wrote? && (a + b)[k].stored
      ensures HasStatus(ReplayAll(table, (a + b)[..k]), (a + b)[k].bastion, StatusFor(!(a + b)[k].up))
    {
      if k < |a| {
        assert (a + b)[..k] == a[..k];
      } else {
        assert (a + b)[..k] == a + b[..k - |a|];
        ReplayConcat(table, a, b[..k - |a|]);
      }
    }
  }

  /** Whatever table the query finds, each write of a pass directly follows its own successful notification. */
  lemma {:induction false} SplitNotifiesFirst(listed: seq<Sighting>, queried: Table, trace: seq<Event>, n: nat)
    requires n <= |trace| && PassSplitOn(listed, queried, trace, n)
    ensures NotifiedFirst(trace)
  {
    assert forall m | 0 <= m < n :: trace[..n][m] == trace[m];
    if n < |trace| && trace[n].ok {
      var pending: seq<string> :| Answered(queried, trace, n, pending);
      forall m | 0 <= m < |trace| && trace[m].Wrote?
        ensures m > 0 && trace[m - 1] == Notified(trace[m].bastion, trace[m].up, true)
      {
        TransitionsShape(queried, pending, trace[n + 1..], m - n - 1);
      }
    }
  }

  lemma {:induction false} QueriedPassFlips(tree: Option<seq<CustNode>>, table: Table, trace: seq<Event>, k: nat)
    requires PassTrace(tree, table, trace) && k < |trace| && trace[k].Asked? && trace[k].ok
    ensures WritesFlip(table, trace)
  {
    hide PassTrace, Transitions, HasStatus;
    var pending := QueryOf(tree, table, trace, k);
    var queried := ReplayAll(table, trace[..k]);
    var front, rest := trace[..k + 1], trace[k + 1..];
    assert trace == front + rest && front[..k] == trace[..k];
    TransitionsFlip(queried, queried, pending, rest);
    assert ReplayAll(table, front) == queried;
    assert WritesFlip(table, front) by {
      assert forall m | 0 <= m < k :: front[m] == trace[m];
    }
    FlipConcat(table, front, rest);
  }

  lemma {:induction false} PassNotifiesFirstAndFlips(tree: Option<seq<CustNode>>, table: Table, trace: seq<Event>)
    requires PassTrace(tree, table, trace)
    ensures NotifiedFirst(trace) && WritesFlip(table, trace)
  {
    if tree.Some? {
      var n: nat :| n <= |trace| && PassSplit(Listed(tree.value), table, trace, n);
      SplitNotifiesFirst(Listed(tree.value), ReplayAll(table, trace[..n]), trace, n);
      PassShape(Listed(tree.value), table, trace, n);
      if n < |trace| && trace[n].ok {
        QueriedPassFlips(tree, table, trace, n);
      } else {
        assert forall m | 0 <= m < |trace| :: !trace[m].Wrote?;
      }
    }
  }

  /** Over every run, each status write directly follows its own successful notification, and each write that
      reaches the table changes the status. */
  lemma {:induction false} RunNotifiesFirst(table: Table, passes: seq<PassRun>)
    requires RunOfPasses(table, passes)
    ensures NotifiedFirst(Journal(passes)) && WritesFlip(table, Journal(passes))
    decreases |passes|
  {
    if passes == [] {
    } else {
      var trace := passes[0].trace;
      PassNotifiesFirstAndFlips(passes[0].tree, table, trace);
      RunNotifiesFirst(ReplayAll(table, trace), passes[1..]);
      FlipConcat(table, trace, Journal(passes[1..]));
    }
  }

  /** Over every run, successive status changes of one bastion alternate between up and down. */
  lemma {:induction false} ChangesAlternate(table: Table, passes: seq<PassRun>, i: nat, k: nat, id: string)
    requires RunOfPasses(table, passes) && i < k < |Journal(passes)|
    requires ChangesStatus(Journal(passes)[i], id) && ChangesStatus(Journal(passes)[k], id)
    requires forall m | i < m < k :: !ChangesStatus(Journal(passes)[m], id)
    ensures Journal(passes)[k].up == !Journal(passes)[i].up
  {
    RunNotifiesFirst(table, passes);
    FlipsAlternate(table, Journal(passes), i, k, id);
  }

  lemma {:induction false} FlipsAlternate(table: Table, journal: seq<Event>, i: nat, k: nat, id: string)
    requires WritesFlip(table, journal) && i < k < |journal|
    requires ChangesStatus(journal[i], id) && ChangesStatus(journal[k], id)
    requires forall m | i < m < k :: !ChangesStatus(journal[m], id)
    ensures journal[k].up == !journal[i].up
  {
    assert HasStatus(ReplayAll(table, journal[..i]), id, StatusFor(!journal[i].up));
    StatusHolds(table, journal, i, k, id);
    assert HasStatus(ReplayAll(table, journal[..k]), id, StatusFor(!journal[k].up));
  }

  lemma {:induction false} StatusHolds(table: Table, journal: seq<Event>, i: nat, k: nat, id: string)
    requires i < k <= |journal| && ChangesStatus(journal[i], id) && id in ReplayAll(table, journal[..i])
    requires forall m | i < m < k :: !ChangesStatus(journal[m], id)
    ensures HasStatus(ReplayAll(table, journal[..k]), id, StatusFor(journal[i].up))
  {
    assert journal[..k][..k - 1] == journal[..k - 1];
    if k == i + 1 {
    } else {
      StatusHolds(table, journal, i, k - 1, id);
    }
  }

  function Changes(journal: seq<Event>): nat {
    if journal == [] then 0
    else
      var e := journal[|journal| - 1];
      Changes(journal[..|journal| - 1]) + if e.Wrote? && e.stored then 1 else 0
  }

  function Notices(journal: seq<Event>): nat {
    if journal == [] then 0
    else
      var e := journal[|journal| - 1];
      Notices(journal[..|journal| - 1]) + if e.Notified? && e.ok then 1 else 0
  }

  lemma {:induction false} NoticesCoverChanges(journal: seq<Event>)
    requires NotifiedFirst(journal)
    ensures Changes(journal) <= Notices(journal)
    ensures journal != [] && journal[|journal| - 1].Notified? && journal[|journal| - 1].ok ==>
              Changes(journal) < Notices(journal)
  {
    if journal == [] {
    } else {
      var front := journal[..|journal| - 1];
      assert NotifiedFirst(front) by {
        assert forall m | 0 <= m < |front| :: front[m] == journal[m];
      }
      NoticesCoverChanges(front);
    }
  }

  /** Over every run, status changes never outnumber successful notifications. */
  lemma {:induction false} ChangesNeverOutnumberNotices(table: Table, passes: seq<PassRun>)
    requires RunOfPasses(table, passes)
    ensures Changes(Journal(passes)) <= Notices(Journal(passes))
  {
    RunNotifiesFirst(table, passes);
    NoticesCoverChanges(Journal(passes));
  }
}
