/** The bastion_tracking table, the batched upsert of sightings, and what a tracking pass may do to the table. */
module Tracking {
  import opened Options

  const UPDATE_BATCH_SIZE: nat := 128

  // The table

  datatype Status = Active | Inactive | Launching | Disabled | Deleted | FailedLaunch

  datatype Row = Row(customer: string, status: Status, lastSeen: int)

  type Table = map<string, Row>

  datatype Sighting = Sighting(bastion: string, customer: string)

  function Ids(batch: seq<Sighting>): set<string> {
    set s | s in batch :: s.bastion
  }

  /** The primary key admits the batch: only ids that already have a row may be listed twice. */
  ghost predicate Insertable(table: Table, batch: seq<Sighting>) {
    forall i, j | 0 <= i < j < |batch| && batch[i].bastion == batch[j].bastion :: batch[i].bastion in table
  }

  function CustomerOf(batch: seq<Sighting>, id: string): string
    requires id in Ids(batch)
  {
    if batch[0].bastion == id then batch[0].customer else CustomerOf(batch[1..], id)
  }

  /** The table after batch_upsert_tracking: listed rows are seen now, and listed ids without one get an active row. */
  function Upsert(table: Table, batch: seq<Sighting>, now: int): Table {
    map id | id in table.Keys + Ids(batch) ::
      if id in table then (if id in Ids(batch) then table[id].(lastSeen := now) else table[id])
      else Row(CustomerOf(batch, id), Active, now)
  }

  /** What an upsert does to each id: an existing row is seen now if listed, and is otherwise as it was; a listed id
      without a row gets an active one that belongs to the customer of its first pair. */
  lemma UpsertExactly(table: Table, batch: seq<Sighting>, now: int, id: string)
    ensures var after := Upsert(table, batch, now);
            && (id in after <==> id in table || exists s | s in batch :: s.bastion == id)
            && (id in table ==>
                  after[id] == Row(table[id].customer, table[id].status,
                                   if exists s | s in batch :: s.bastion == id then now else table[id].lastSeen))
            && (id !in table ==> forall i | 0 <= i < |batch| && FirstPair(batch, i, id) ::
                  id in after && after[id] == Row(batch[i].customer, Active, now))
  {
    forall i | 0 <= i < |batch| && FirstPair(batch, i, id)
      ensures id in Ids(batch) && CustomerOf(batch, id) == batch[i].customer
    {
      FirstCustomerOf(batch, i, id);
    }
  }

  predicate FirstPair(batch: seq<Sighting>, i: nat, id: string)
    requires i < |batch|
  {
    batch[i].bastion == id && forall j | 0 <= j < i :: batch[j].bastion != id
  }

  lemma {:induction false} FirstCustomerOf(batch: seq<Sighting>, i: nat, id: string)
    requires i < |batch| && FirstPair(batch, i, id)
    ensures id in Ids(batch) && CustomerOf(batch, id) == batch[i].customer
  {
    assert batch[i] in batch;
    if i == 0 {
    } else {
      assert batch[0].bastion != id && FirstPair(batch[1..], i - 1, id);
      FirstCustomerOf(batch[1..], i - 1, id);
    }
  }

  // One upsert refined by many

  function Flatten(batches: seq<seq<Sighting>>): seq<Sighting> {
    if batches == [] then [] else batches[0] + Flatten(batches[1..])
  }

  function UpsertAll(table: Table, batches: seq<seq<Sighting>>, times: seq<int>): Table
    requires |batches| == |times|
    decreases |batches|
  {
    if batches == [] then table else UpsertAll(Upsert(table, batches[0], times[0]), batches[1..], times[1..])
  }

  /** Each batch is admitted by the table it meets. */
  ghost predicate AllInsertable(table: Table, batches: seq<seq<Sighting>>, times: seq<int>)
    requires |batches| == |times|
    decreases |batches|
  {
    batches == [] ||
    (Insertable(table, batches[0]) &&
     AllInsertable(Upsert(table, batches[0], times[0]), batches[1..], times[1..]))
  }

  ghost predicate SameUpToLastSeen(a: Table, b: Table) {
    a.Keys == b.Keys &&
    forall id | id in a :: a[id].customer == b[id].customer && a[id].status == b[id].status
  }

  lemma {:induction false} CustomerOfConcat(a: seq<Sighting>, b: seq<Sighting>, id: string)
    requires id in Ids(a + b)
    ensures id in Ids(a) ==> CustomerOf(a + b, id) == CustomerOf(a, id)
    ensures id !in Ids(a) ==> id in Ids(b) && CustomerOf(a + b, id) == CustomerOf(b, id)
  {
    if a == [] {
      assert a + b == b;
    } else {
      assert (a + b)[0] == a[0] && (a + b)[1..] == a[1..] + b;
      if a[0].bastion != id {
        assert Ids(a) == {a[0].bastion} + Ids(a[1..]);
        CustomerOfConcat(a[1..], b, id);
      }
    }
  }

  lemma InsertableConcat(table: Table, a: seq<Sighting>, b: seq<Sighting>, t: int)
    requires Insertable(table, a + b)
    ensures Insertable(table, a) && Insertable(Upsert(table, a, t), b)
  {
    var ab := a + b;
    forall i, j | 0 <= i < j < |a| && a[i].bastion == a[j].bastion
      ensures a[i].bastion in table
    {
      assert ab[i] == a[i] && ab[j] == a[j];
    }
    forall i, j | 0 <= i < j < |b| && b[i].bastion == b[j].bastion
      ensures b[i].bastion in Upsert(table, a, t)
    {
      assert ab[|a| + i] == b[i] && ab[|a| + j] == b[j];
    }
  }

  lemma IdsConcat(a: seq<Sighting>, b: seq<Sighting>)
    ensures Ids(a + b) == Ids(a) + Ids(b)
  {
  }

  lemma UpsertConcat(table: Table, a: seq<Sighting>, b: seq<Sighting>, t: int, now: int)
    ensures SameUpToLastSeen(Upsert(Upsert(table, a, t), b, now), Upsert(table, a + b, now))
  {
    IdsConcat(a, b);
    var two, one := Upsert(Upsert(table, a, t), b, now), Upsert(table, a + b, now);
    forall id | id in one
      ensures two[id].customer == one[id].customer && two[id].status == one[id].status
    {
      if id !in table {
        CustomerOfConcat(a, b, id);
      }
    }
  }

  lemma {:induction false} UpsertAllOnSimilar(a: Table, b: Table, batches: seq<seq<Sighting>>, times: seq<int>)
    requires |batches| == |times| && SameUpToLastSeen(a, b)
    ensures SameUpToLastSeen(UpsertAll(a, batches, times), UpsertAll(b, batches, times))
    decreases |batches|
  {
    if batches == [] {
    } else {
      UpsertAllOnSimilar(Upsert(a, batches[0], times[0]), Upsert(b, batches[0], times[0]), batches[1..], times[1..]);
    }
  }

  /** The batches of any division of a list leave what one upsert of the whole list leaves, up to timestamps. Whenever
      that one upsert is admitted (in particular when its ids are distinct), every batch is admitted in turn. */
  lemma {:induction false} BatchesRefineOneUpsert(
    table: Table, batches: seq<seq<Sighting>>, times: seq<int>, now: int)
    requires |batches| == |times|
    ensures SameUpToLastSeen(UpsertAll(table, batches, times), Upsert(table, Flatten(batches), now))
    ensures Insertable(table, Flatten(batches)) ==> AllInsertable(table, batches, times)
    decreases |batches|
  {
    if batches == [] {
    } else {
      if Insertable(table, Flatten(batches)) {
        InsertableConcat(table, batches[0], Flatten(batches[1..]), times[0]);
      }
      UpsertConcat(table, batches[0], Flatten(batches[1..]), times[0], now);
      BatchesRefineOneUpsert(Upsert(table, batches[0], times[0]), batches[1..], times[1..], now);
    }
  }

  /** Whatever the batches, a row that none of them lists is untouched, and a listed bastion has a row, last seen at
      the time of the last batch listing it, that keeps the customer and the status it had. */
  lemma {:induction false} BatchesTouchOnlyListed(
    table: Table, batches: seq<seq<Sighting>>, times: seq<int>, id: string)
    requires |batches| == |times|
    ensures var after := UpsertAll(table, batches, times);
            && (id in table ==> id in after && after[id].customer == table[id].customer
                                && after[id].status == table[id].status)
            && (NotListedFrom(batches, 0, id) ==>
                  if id in table then id in after && after[id] == table[id] else id !in after)
            && (forall k | 0 <= k < |batches| && id in Ids(batches[k]) && NotListedFrom(batches, k + 1, id) ::
                  id in after && after[id].lastSeen == times[k])
    decreases |batches|
  {
    if batches == [] {
    } else {
      var rest := batches[1..];
      BatchesTouchOnlyListed(Upsert(table, batches[0], times[0]), rest, times[1..], id);
      assert forall m | 0 <= m < |rest| :: rest[m] == batches[m + 1];
      assert NotListedFrom(batches, 1, id) ==> NotListedFrom(rest, 0, id);
      forall k | 1 <= k < |batches| && id in Ids(batches[k]) && NotListedFrom(batches, k + 1, id)
        ensures rest[k - 1] == batches[k] && times[1..][k - 1] == times[k] && NotListedFrom(rest, k, id)
      {
      }
    }
  }

  ghost predicate NotListedFrom(batches: seq<seq<Sighting>>, from: nat, id: string) {
    forall m | from <= m < |batches| :: id !in Ids(batches[m])
  }

  lemma DistinctIdsAreInsertable(table: Table, batch: seq<Sighting>)
    requires forall i, j | 0 <= i < j < |batch| :: batch[i].bastion != batch[j].bastion
    ensures Insertable(table, batch)
  {
  }

  /** The code's exception: two pairs for one bastion without a row, in one batch, are refused together. */
  lemma NewIdTwiceIsRefused(id: string, one: string, other: string)
    ensures !Insertable(map[], [Sighting(id, one), Sighting(id, other)])
    ensures AllInsertable(map[], [[Sighting(id, one)], [Sighting(id, other)]], [0, 0])
  {
    var batch := [Sighting(id, one), Sighting(id, other)];
    assert batch[0].bastion == batch[1].bastion;
    var first, rest := [Sighting(id, one)], [[Sighting(id, other)]];
    assert [[Sighting(id, one)], [Sighting(id, other)]][1..] == rest && rest[1..] == [] && [0, 0][1..] == [0];
    assert Insertable(Upsert(map[], first, 0), rest[0]);
    assert AllInsertable(Upsert(map[], first, 0), rest, [0]);
  }

  // The route tree

  datatype BastNode = BastNode(id: string, services: Option<set<string>>)

  datatype CustNode = CustNode(id: string, bastions: seq<BastNode>)

  predicate LowerOrDigit(c: char) {
    'a' <= c <= 'z' || '0' <= c <= '9'
  }

  /** The tracker's id pattern: 8-4-4-4-12 lower-case letters or digits, the third group starting with 1 to 5. */
  predicate CheckUUID(s: string) {
    |s| == 36 &&
    forall k | 0 <= k < 36 ::
      if k in {8, 13, 18, 23} then s[k] == '-'
      else if k == 14 then '1' <= s[k] <= '5'
      else LowerOrDigit(s[k])
  }

  predicate AllLowerOrDigit(s: string) {
    forall c | c in s :: LowerOrDigit(c)
  }

  /** A well-formed id is five groups of 8, 4, 4, 4 and 12 lower-case letters or digits, joined by dashes, of which the
      third starts with a digit from 1 to 5. */
  lemma UUIDGroups(a: string, b: string, c: string, d: string, e: string)
    requires |a| == 8 && |b| == 4 && |c| == 4 && |d| == 4 && |e| == 12
    ensures CheckUUID(a + "-" + b + "-" + c + "-" + d + "-" + e) <==>
            c[0] in "12345" && AllLowerOrDigit(a) && AllLowerOrDigit(b) && AllLowerOrDigit(c) && AllLowerOrDigit(d)
            && AllLowerOrDigit(e)
  {
    var s := a + "-" + b + "-" + c + "-" + d + "-" + e;
    GroupAt(s, a, 0);
    GroupAt(s, b, 9);
    GroupAt(s, c, 14);
    GroupAt(s, d, 19);
    GroupAt(s, e, 24);
    assert s[8] == '-' && s[13] == '-' && s[18] == '-' && s[23] == '-' && s[14] == c[0];
    hide LowerOrDigit, AllLowerOrDigit;
    assert c[0] in "12345" ==> LowerOrDigit(c[0]) by {
      DigitsCount(c[0]);
    }
    DigitsCount(c[0]);
  }

  lemma DigitsCount(c: char)
    ensures c in "12345" <==> '1' <= c <= '5'
    ensures c in "12345" ==> LowerOrDigit(c)
  {
    var digits := "12345";
    assert digits[0] == '1' && digits[1] == '2' && digits[2] == '3' && digits[3] == '4' && digits[4] == '5';
    if '1' <= c <= '5' {
      assert c == digits[c as int - 49];
    }
  }

  lemma GroupAt(s: string, group: string, at: nat)
    requires at + |group| <= |s| && s[at..at + |group|] == group
    ensures AllLowerOrDigit(group) <==> forall k | at <= k < at + |group| :: LowerOrDigit(s[k])
  {
    assert forall k | 0 <= k < |group| :: group[k] == s[at + k];
    assert forall k | at <= k < at + |group| :: s[k] == group[k - at];
  }

  /** And every well-formed id has these groups. */
  lemma UUIDHasGroups(s: string)
    requires CheckUUID(s)
    ensures |s| == 36
    ensures s == s[..8] + "-" + s[9..13] + "-" + s[14..18] + "-" + s[19..23] + "-" + s[24..]
  {
  }

  /** The bastion's routes decode and its checker has registered. */
  predicate HasChecker(b: BastNode) {
    CheckUUID(b.id) && b.services.Some? && "checker" in b.services.value
  }

  function ListedBastions(customer: string, nodes: seq<BastNode>): seq<Sighting> {
    if nodes == [] then []
    else
      var b := nodes[|nodes| - 1];
      ListedBastions(customer, nodes[..|nodes| - 1]) + if HasChecker(b) then [Sighting(b.id, customer)] else []
  }

  /** The pairs that pass the filters, in tree order. */
  function Listed(tree: seq<CustNode>): seq<Sighting> {
    if tree == [] then []
    else
      var c := tree[|tree| - 1];
      Listed(tree[..|tree| - 1]) + if CheckUUID(c.id) then ListedBastions(c.id, c.bastions) else []
  }

  lemma {:induction false} ListedBastionsExactly(customer: string, nodes: seq<BastNode>, s: Sighting)
    ensures s in ListedBastions(customer, nodes) <==>
            s.customer == customer && exists b | b in nodes :: HasChecker(b) && b.id == s.bastion
  {
    if nodes == [] {
    } else {
      var front, last := nodes[..|nodes| - 1], nodes[|nodes| - 1];
      ListedBastionsExactly(customer, front, s);
      assert nodes == front + [last];
      assert last in nodes;
    }
  }

  /** A pair is listed exactly when some customer with a well-formed id lists that bastion with a checker. */
  lemma {:induction false} ListedExactly(tree: seq<CustNode>, s: Sighting)
    ensures s in Listed(tree) <==>
            exists c | c in tree ::
              CheckUUID(c.id) && c.id == s.customer &&
              exists b | b in c.bastions ::
                b.id == s.bastion && CheckUUID(b.id) && b.services.Some? && "checker" in b.services.value
  {
    if tree == [] {
    } else {
      var front, last := tree[..|tree| - 1], tree[|tree| - 1];
      ListedExactly(front, s);
      ListedBastionsExactly(last.id, last.bastions, s);
      assert tree == front + [last];
      assert last in tree;
    }
  }

  // What a pass does

  /** The calls of a pass on the store and the notifier. `stored` is what the database did, `ok` what it reported. */
  datatype Event =
    | Seen(batch: seq<Sighting>, at: int, stored: bool, ok: bool)
    | Asked(cutoff: int, ok: bool)
    | Notified(bastion: string, up: bool, ok: bool)
    | Wrote(bastion: string, up: bool, stored: bool, ok: bool)

  function StatusFor(up: bool): Status {
    if up then Active else Inactive
  }

  function Replay(table: Table, e: Event): Table {
    match e
    case Seen(batch, at, stored, _) => if stored then Upsert(table, batch, at) else table
    case Wrote(id, up, stored, _) =>
      if stored && id in table then table[id := table[id].(status := StatusFor(up))] else table
    case _ => table
  }

  function ReplayAll(table: Table, trace: seq<Event>): Table {
    if trace == [] then table else Replay(ReplayAll(table, trace[..|trace| - 1]), trace[|trace| - 1])
  }

  /** The ids GetPendingTrackingStates selects. */
  function PendingIds(table: Table, cutoff: int): set<string> {
    set id | id in table &&
             ((table[id].status == Active && table[id].lastSeen <= cutoff) ||
              (table[id].status == Inactive && table[id].lastSeen >= cutoff))
  }

  ghost predicate Enumerates(ids: seq<string>, s: set<string>) {
    && (forall i, j | 0 <= i < j < |ids| :: ids[i] != ids[j])
    && (forall id :: id in ids <==> id in s)
  }

  /** The batches of a trace, concatenated. */
  function SeenPairs(trace: seq<Event>): seq<Sighting> {
    if trace == [] then []
    else
      SeenPairs(trace[..|trace| - 1]) + if trace[|trace| - 1].Seen? then trace[|trace| - 1].batch else []
  }

  /** Batches in a row: all but the last full and successful, none empty or oversized. */
  ghost predicate SeenInBatches(trace: seq<Event>) {
    && (forall k | 0 <= k < |trace| :: trace[k].Seen? && 1 <= |trace[k].batch| <= UPDATE_BATCH_SIZE)
    && (forall k | 0 <= k < |trace| && trace[k].ok :: trace[k].stored)
    && (forall k | 0 <= k < |trace| - 1 :: trace[k].ok && |trace[k].batch| == UPDATE_BATCH_SIZE)
  }

  /** For each pending bastion in turn: a notification of the change, and the change itself only if that succeeded. */
  ghost predicate Transitions(table: Table, pending: seq<string>, trace: seq<Event>)
    requires forall id | id in pending :: id in table
    decreases |pending|
  {
    if pending == [] then trace == []
    else
      var id := pending[0];
      var up := table[id].status != Active;
      && trace != [] && trace[0].Notified? && trace[0].bastion == id && trace[0].up == up
      && if trace[0].ok then
           && |trace| > 1 && trace[1].Wrote? && trace[1].bastion == id && trace[1].up == up
           && (trace[1].ok ==> trace[1].stored)
           && Transitions(table, pending[1..], trace[2..])
         else Transitions(table, pending[1..], trace[1..])
  }

  /** The pending bastions the query at `n` returned, and what was done about them. */
  ghost predicate Answered(table: Table, trace: seq<Event>, n: nat, pending: seq<string>)
    requires n < |trace| && trace[n].Asked?
  {
    Enumerates(pending, PendingIds(table, trace[n].cutoff)) && Transitions(table, pending, trace[n + 1..])
  }

  /** A pass of which the first `n` events are its batches, and whose query finds the table `queried`. */
  ghost predicate PassSplitOn(listed: seq<Sighting>, queried: Table, trace: seq<Event>, n: nat)
    requires n <= |trace|
  {
    && SeenInBatches(trace[..n])
    && SeenPairs(trace[..n]) <= listed
    && if n > 0 && !trace[n - 1].ok then |trace| == n
       else
         && SeenPairs(trace[..n]) == listed
         && n < |trace| && trace[n].Asked?
         && if !trace[n].ok then |trace| == n + 1
            else exists pending: seq<string> :: Answered(queried, trace, n, pending)
  }

  /** Such a pass when nobody else touches the table. */
  ghost predicate PassSplit(listed: seq<Sighting>, table: Table, trace: seq<Event>, n: nat)
    requires n <= |trace|
  {
    PassSplitOn(listed, ReplayAll(table, trace[..n]), trace, n)
  }

  /** The traces of updateSeen on a tree (None when the tree cannot be read) and a table. */
  ghost predicate PassTrace(tree: Option<seq<CustNode>>, table: Table, trace: seq<Event>) {
    if tree.None? then trace == []
    else exists n: nat | n <= |trace| :: PassSplit(Listed(tree.value), table, trace, n)
  }
}
