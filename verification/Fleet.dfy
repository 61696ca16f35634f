/** The whole fleet: any number of trackers, their protocol steps and the calls of their passes interleaved in every
    way, on one tracking table.

    A pass decides by the table its own query finds, whoever wrote it. So each pass notifies before it writes in every
    run. When no tracker serves on a Set that has run out, no two passes overlap either, and everything that is proved
    for one writer holds for the fleet. */
module Fleet {
  import opened Options
  import opened Tracking
  import opened Passes
  import Lease

  /** A pass in progress: its tree, its calls so far, and the table that each call found. */
  datatype Current = Current(tree: Option<seq<CustNode>>, trace: seq<Event>, found: seq<Table>)

  /** `passes` are the finished ones, and `journal` every call of every tracker, in order. */
  datatype State = State(
    lease: Lease.State, table: Table, running: seq<Option<Current>>, journal: seq<Event>, passes: seq<PassRun>)

  datatype Action =
    | Protocol(step: Lease.Action)                      // any protocol step but those that begin and end a pass
    | Begin(i: nat, tree: Option<seq<CustNode>>)
    | Call(i: nat, event: Event)
    | End(i: nat)

  /** The calls of a pass are those of updateSeen, given what its query found. */
  ghost predicate PassAsFound(c: Current)
    requires |c.found| == |c.trace|
  {
    if c.tree.None? then c.trace == []
    else exists n: nat | n <= |c.trace| :: SplitAsFound(Listed(c.tree.value), c, n)
  }

  ghost predicate SplitAsFound(listed: seq<Sighting>, c: Current, n: nat)
    requires n <= |c.trace| == |c.found|
  {
    PassSplitOn(listed, if n < |c.trace| then c.found[n] else map[], c.trace, n)
  }

  /** The calls so far can be continued to those of a whole pass. */
  ghost predicate Completable(c: Current) {
    exists d :: CompletedBy(c, d)
  }

  ghost predicate CompletedBy(c: Current, d: Current) {
    && d.tree == c.tree && |c.found| == |c.trace| && |d.found| == |d.trace|
    && c.trace <= d.trace && c.found <= d.found && PassAsFound(d)
  }

  predicate IsRunning(s: State, i: nat) {
    i < |s.running| && s.running[i].Some? && |s.running[i].value.found| == |s.running[i].value.trace|
  }

  ghost predicate Enabled(s: State, a: Action) {
    match a
    case Protocol(step) => !step.StartPass? && !step.EndPass? && Lease.Enabled(s.lease, step)
    case Begin(i, _) => i < |s.running| && Lease.Enabled(s.lease, Lease.StartPass(i))
    case Call(i, e) => IsRunning(s, i) && Completable(After(s.running[i].value, s.table, e))
    case End(i) => IsRunning(s, i) && PassAsFound(s.running[i].value) && Lease.Enabled(s.lease, Lease.EndPass(i))
  }

  function After(c: Current, table: Table, e: Event): Current {
    Current(c.tree, c.trace + [e], c.found + [table])
  }

  ghost function Step(s: State, a: Action): State
    requires Enabled(s, a)
  {
    match a
    case Protocol(step) => s.(lease := Lease.Step(s.lease, step))
    case Begin(i, tree) =>
      s.(lease := Lease.Step(s.lease, Lease.StartPass(i)), running := s.running[i := Some(Current(tree, [], []))])
    case Call(i, e) =>
      s.(table := Replay(s.table, e), journal := s.journal + [e],
         running := s.running[i := Some(After(s.running[i].value, s.table, e))])
    case End(i) =>
      var c := s.running[i].value;
      s.(lease := Lease.Step(s.lease, Lease.EndPass(i)), running := s.running[i := None],
         passes := s.passes + [PassRun(c.tree, c.trace)])
  }

  function Init(n: nat, table: Table): State {
    State(Lease.Init(n), table, seq(n, i => None), [], [])
  }

  ghost predicate Runs(s: State, acts: seq<Action>)
    decreases |acts|
  {
    acts == [] || (Enabled(s, acts[0]) && Runs(Step(s, acts[0]), acts[1..]))
  }

  ghost function Exec(s: State, acts: seq<Action>): State
    requires Runs(s, acts)
    decreases |acts|
  {
    if acts == [] then s else Exec(Step(s, acts[0]), acts[1..])
  }

  /** No tracker ever serves on a Set that has run out. */
  ghost predicate TimelyRun(s: State, acts: seq<Action>)
    requires Runs(s, acts)
    decreases |acts|
  {
    Lease.Timely(s.lease) && (acts != [] ==> TimelyRun(Step(s, acts[0]), acts[1..]))
  }

  // Every run, timely or not

  /** The pass in progress whose last call was a successful notification. */
  predicate HasNotified(o: Option<Current>) {
    o.Some? && o.value.trace != [] && o.value.trace[|o.value.trace| - 1].Notified? &&
    o.value.trace[|o.value.trace| - 1].ok
  }

  function Notifying(running: seq<Option<Current>>): set<int> {
    set i | 0 <= i < |running| && HasNotified(running[i])
  }

  ghost predicate NotifyInv(s: State) {
    && (forall p | p in s.passes :: NotifiedFirst(p.trace))
    && (forall i | 0 <= i < |s.running| && s.running[i].Some? :: NotifiedFirst(s.running[i].value.trace))
    && Changes(s.journal) + |Notifying(s.running)| <= Notices(s.journal)
  }

  lemma AsFoundNotifiesFirst(c: Current)
    requires |c.found| == |c.trace| && PassAsFound(c)
    ensures NotifiedFirst(c.trace)
  {
    if c.tree.Some? {
      var n: nat :| n <= |c.trace| && SplitAsFound(Listed(c.tree.value), c, n);
      SplitNotifiesFirst(Listed(c.tree.value), if n < |c.trace| then c.found[n] else map[], c.trace, n);
    }
  }

  lemma CompletableNotifiesFirst(c: Current)
    requires Completable(c)
    ensures NotifiedFirst(c.trace)
  {
    hide PassAsFound;
    var d :| CompletedBy(c, d);
    AsFoundNotifiesFirst(d);
    assert forall k | 0 <= k < |c.trace| :: c.trace[k] == d.trace[k];
  }

  /** Replacing the pass of `i` changes at most whether `i` is notifying. */
  lemma NotifyingAfter(running: seq<Option<Current>>, i: nat, o: Option<Current>)
    requires i < |running|
    ensures Notifying(running[i := o]) == if HasNotified(o) then Notifying(running) + {i} else Notifying(running) - {i}
  {
  }

  lemma CountsSnoc(journal: seq<Event>, e: Event)
    ensures Changes(journal + [e]) == Changes(journal) + if e.Wrote? && e.stored then 1 else 0
    ensures Notices(journal + [e]) == Notices(journal) + if e.Notified? && e.ok then 1 else 0
  {
    assert (journal + [e])[..|journal|] == journal;
  }

  lemma CallKeepsNotifyInv(s: State, i: nat, e: Event)
    requires NotifyInv(s) && Enabled(s, Call(i, e))
    ensures NotifyInv(Step(s, Call(i, e)))
  {
    hide Completable, NotifiedFirst, Replay, Changes, Notices, Notifying, HasNotified;
    var c' := After(s.running[i].value, s.table, e);
    CompletableNotifiesFirst(c');
    CountsSnoc(s.journal, e);
    NotifyingAfter(s.running, i, Some(c'));
    WriteFollowsNotice(s.running[i].value, s.table, e);
    WasNotifying(s.running, i);
  }

  lemma WasNotifying(running: seq<Option<Current>>, i: nat)
    requires i < |running|
    ensures i in Notifying(running) <==> HasNotified(running[i])
  {
  }

  lemma WriteFollowsNotice(c: Current, table: Table, e: Event)
    requires NotifiedFirst(After(c, table, e).trace)
    ensures e.Wrote? ==> HasNotified(Some(c))
    ensures HasNotified(Some(After(c, table, e))) <==> e.Notified? && e.ok
  {
    var trace := c.trace + [e];
    assert trace[|c.trace|] == e;
    if e.Wrote? {
      assert trace[|c.trace| - 1] == Notified(e.bastion, e.up, true);
    }
  }

  lemma StepKeepsNotifyInv(s: State, a: Action)
    requires NotifyInv(s) && Enabled(s, a)
    ensures NotifyInv(Step(s, a))
  {
    match a
    case Call(i, e) => CallKeepsNotifyInv(s, i, e);
    case Begin(i, tree) => NotifyingAfter(s.running, i, Some(Current(tree, [], [])));
    case End(i) => NotifyingAfter(s.running, i, None);
    case Protocol(_) =>
  }

  lemma {:induction false} RunKeepsNotifyInv(s: State, acts: seq<Action>)
    requires NotifyInv(s) && Runs(s, acts)
    ensures NotifyInv(Exec(s, acts))
    decreases |acts|
  {
    if acts == [] {
    } else {
      StepKeepsNotifyInv(s, acts[0]);
      RunKeepsNotifyInv(Step(s, acts[0]), acts[1..]);
    }
  }

  /** In every run of any number of trackers, timely or not: among the calls of each pass, finished or in progress, each
      status write directly follows its own successful notification; and over all trackers, status changes never
      outnumber successful notifications. */
  lemma FleetNotifiesFirst(n: nat, table: Table, acts: seq<Action>)
    requires Runs(Init(n, table), acts)
    ensures var s := Exec(Init(n, table), acts);
            && (forall p | p in s.passes :: NotifiedFirst(p.trace))
            && (forall i | 0 <= i < |s.running| && s.running[i].Some? :: NotifiedFirst(s.running[i].value.trace))
            && Changes(s.journal) <= Notices(s.journal)
  {
    assert Notifying(Init(n, table).running) == {};
    RunKeepsNotifyInv(Init(n, table), acts);
  }

  // The passes of the tracker object are runs of this model

  function Calls(i: nat, trace: seq<Event>): seq<Action> {
    seq(|trace|, k requires 0 <= k < |trace| => Call(i, trace[k]))
  }

  function FoundBy(start: Table, trace: seq<Event>): seq<Table> {
    seq(|trace|, k requires 0 <= k < |trace| => ReplayAll(start, trace[..k]))
  }

  /** Whatever a pass can do by itself, one call after the other is a run here, after which the pass can end. */
  lemma PassIsARun(s: State, i: nat, trace: seq<Event>)
    requires i < |s.running| && s.running[i].Some? && s.running[i].value.trace == [] && s.running[i].value.found == []
    requires PassTrace(s.running[i].value.tree, s.table, trace)
    ensures Runs(s, Calls(i, trace))
    ensures var s' := Exec(s, Calls(i, trace));
            && s'.table == ReplayAll(s.table, trace) && s'.lease == s.lease
            && i < |s'.running|
            && s'.running[i] == Some(Current(s.running[i].value.tree, trace, FoundBy(s.table, trace)))
            && PassAsFound(s'.running[i].value)
  {
    var c := Current(s.running[i].value.tree, trace, FoundBy(s.table, trace));
    if c.tree.Some? {
      var n: nat :| n <= |trace| && PassSplit(Listed(c.tree.value), s.table, trace, n);
      assert SplitAsFound(Listed(c.tree.value), c, n);
    }
    assert trace[..0] == [] && trace[0..] == trace;
    CallsFrom(s, i, c, s.table, 0);
  }

  lemma {:induction false} CallsFrom(s: State, i: nat, c: Current, start: Table, k: nat)
    requires k <= |c.trace| && c.found == FoundBy(start, c.trace) && PassAsFound(c)
    requires i < |s.running| && s.running[i] == Some(Current(c.tree, c.trace[..k], c.found[..k]))
    requires s.table == ReplayAll(start, c.trace[..k])
    ensures Runs(s, Calls(i, c.trace[k..]))
    ensures var s' := Exec(s, Calls(i, c.trace[k..]));
            && s'.table == ReplayAll(start, c.trace) && s'.lease == s.lease
            && i < |s'.running| && s'.running[i] == Some(c)
    decreases |c.trace| - k
  {
    hide PassAsFound, ReplayAll;
    if k == |c.trace| {
      assert c.trace[..k] == c.trace && c.found[..k] == c.found && Calls(i, c.trace[k..]) == [];
    } else {
      var acts, e := Calls(i, c.trace[k..]), c.trace[k];
      var next := After(s.running[i].value, s.table, e);
      assert acts[0] == Call(i, e) && acts[1..] == Calls(i, c.trace[k + 1..]);
      assert c.trace[..k + 1] == c.trace[..k] + [e] && c.found[..k + 1] == c.found[..k] + [s.table];
      assert CompletedBy(next, c);
      ReplaySnoc(start, c.trace[..k], e);
      CallsFrom(Step(s, Call(i, e)), i, c, start, k + 1);
    }
  }

  // Timely runs

  /** The passes so far make a run of one writer, followed by the calls of the pass in progress, if there is one. */
  ghost predicate Inv(s: State, table: Table) {
    && OneAtATime(s)
    && RunOfPasses(table, s.passes)
    && s.table == ReplayAll(table, s.journal)
    && (s.journal == Journal(s.passes) || exists i | 0 <= i < |s.running| :: s.running[i].Some?)
    && (forall i | 0 <= i < |s.running| && s.running[i].Some? :: Follows(s, table, s.running[i].value))
  }

  ghost predicate OneAtATime(s: State) {
    && Lease.LeaseInv(s.lease) && Lease.Renewed(s.lease)
    && |s.running| == |s.lease.trackers|
    && forall i | 0 <= i < |s.running| :: s.running[i].Some? <==> s.lease.trackers[i].phase.Updating?
  }

  /** The pass in progress began where the finished ones left the table, and has been alone since. */
  ghost predicate Follows(s: State, table: Table, c: Current) {
    && s.journal == Journal(s.passes) + c.trace && Undisturbed(c, ReplayAll(table, Journal(s.passes)))
    && (c.trace == [] || Completable(c))
  }

  ghost predicate Undisturbed(c: Current, start: Table) {
    |c.found| == |c.trace| && forall k | 0 <= k < |c.found| :: c.found[k] == ReplayAll(start, c.trace[..k])
  }

  lemma OnlyOneRuns(s: State, i: nat, j: nat)
    requires OneAtATime(s) && Lease.Timely(s.lease) && i < |s.running| && j < |s.running|
    requires s.running[i].Some? && s.running[j].Some?
    ensures i == j
  {
    if i != j {
      assert Lease.OwnRequest(s.lease.trackers[i], i) && Lease.OwnRequest(s.lease.trackers[j], j);
      Lease.OneLeader(s.lease, i, j);
    }
  }

  lemma OthersAreIdle(s: State, i: nat)
    requires OneAtATime(s) && Lease.Timely(s.lease) && i < |s.running| && s.running[i].Some?
    ensures forall j | 0 <= j < |s.running| && j != i :: s.running[j].None?
  {
    forall j | 0 <= j < |s.running| && j != i
      ensures s.running[j].None?
    {
      if s.running[j].Some? {
        OnlyOneRuns(s, i, j);
      }
    }
  }

  lemma UndisturbedPass(c: Current, start: Table)
    requires Undisturbed(c, start) && PassAsFound(c)
    ensures PassTrace(c.tree, start, c.trace)
  {
    if c.tree.Some? {
      var n: nat :| n <= |c.trace| && SplitAsFound(Listed(c.tree.value), c, n);
      assert PassSplit(Listed(c.tree.value), start, c.trace, n);
    }
  }

  lemma ReplaySnoc(table: Table, trace: seq<Event>, e: Event)
    ensures ReplayAll(table, trace + [e]) == Replay(ReplayAll(table, trace), e)
  {
    assert (trace + [e])[..|trace|] == trace;
  }

  lemma {:induction false} RunOfPassesSnoc(table: Table, passes: seq<PassRun>, last: PassRun)
    requires RunOfPasses(table, passes) && PassTrace(last.tree, ReplayAll(table, Journal(passes)), last.trace)
    ensures RunOfPasses(table, passes + [last]) && Journal(passes + [last]) == Journal(passes) + last.trace
    decreases |passes|
  {
    hide PassTrace, ReplayAll;
    var longer := passes + [last];
    if passes == [] {
      assert longer[1..] == [];
      NothingReplayed(table);
      NothingReplayed(ReplayAll(table, last.trace));
    } else {
      assert longer[0] == passes[0] && longer[1..] == passes[1..] + [last];
      ReplayConcat(table, passes[0].trace, Journal(passes[1..]));
      RunOfPassesSnoc(ReplayAll(table, passes[0].trace), passes[1..], last);
    }
  }

  lemma StepKeepsOneAtATime(s: State, a: Action)
    requires OneAtATime(s) && Lease.Timely(s.lease) && Enabled(s, a)
    ensures OneAtATime(Step(s, a))
  {
    if !a.Call? {
      var step := if a.Protocol? then a.step else if a.Begin? then Lease.StartPass(a.i) else Lease.EndPass(a.i);
      Lease.StepKeepsLease(s.lease, step);
      Lease.StepRenews(s.lease, step);
      UpdatingExactly(s.lease, step);
    }
    hide Lease.Step, Lease.Enabled, Lease.LeaseInv, Lease.Renewed, Lease.Timely;
  }

  /** A tracker is inside a pass from its StartPass to its EndPass. */
  lemma UpdatingExactly(s: Lease.State, a: Lease.Action)
    requires Lease.Enabled(s, a)
    ensures |Lease.Step(s, a).trackers| == |s.trackers|
    ensures forall i | 0 <= i < |s.trackers| :: Lease.Step(s, a).trackers[i].phase.Updating? <==>
              a == Lease.StartPass(i) || (s.trackers[i].phase.Updating? && a != Lease.EndPass(i))
  {
    hide Lease.SetKey;
  }

  lemma UndisturbedCall(c: Current, start: Table, table: Table, e: Event)
    requires Undisturbed(c, start) && table == ReplayAll(start, c.trace)
    ensures Undisturbed(After(c, table, e), start)
  {
    var c' := After(c, table, e);
    forall k | 0 <= k < |c'.found|
      ensures c'.found[k] == ReplayAll(start, c'.trace[..k])
    {
      assert c'.trace[..k] == c.trace[..k];
    }
  }

  lemma CallKeepsInv(s: State, table: Table, i: nat, e: Event)
    requires Inv(s, table) && Lease.Timely(s.lease) && Enabled(s, Call(i, e))
    ensures Inv(Step(s, Call(i, e)), table)
  {
    hide RunOfPasses, Journal, ReplayAll, Replay, OneAtATime, Completable, Undisturbed, Lease.Timely, Follows;
    StepKeepsOneAtATime(s, Call(i, e));
    CallKeepsTable(s, table, i, e);
    OthersAreIdle(s, i);
    assert Step(s, Call(i, e)).running[i].Some?;
  }

  lemma CallKeepsTable(s: State, table: Table, i: nat, e: Event)
    requires Inv(s, table) && Enabled(s, Call(i, e))
    ensures var s' := Step(s, Call(i, e));
            s'.table == ReplayAll(table, s'.journal) && Follows(s', table, s'.running[i].value)
  {
    hide RunOfPasses, Journal, ReplayAll, Replay, OneAtATime, Completable, Undisturbed;
    var c := s.running[i].value;
    assert Follows(s, table, c);
    ReplaySnoc(table, s.journal, e);
    ReplayConcat(table, Journal(s.passes), c.trace);
    UndisturbedCall(c, ReplayAll(table, Journal(s.passes)), s.table, e);
    assert s.journal + [e] == Journal(s.passes) + (c.trace + [e]);
  }

  lemma EndKeepsInv(s: State, table: Table, i: nat)
    requires Inv(s, table) && Lease.Timely(s.lease) && Enabled(s, End(i))
    ensures Inv(Step(s, End(i)), table)
  {
    StepKeepsOneAtATime(s, End(i));
    var s', c := Step(s, End(i)), s.running[i].value;
    assert Follows(s, table, c);
    UndisturbedPass(c, ReplayAll(table, Journal(s.passes)));
    RunOfPassesSnoc(table, s.passes, PassRun(c.tree, c.trace));
    OthersAreIdle(s, i);
  }

  lemma BeginKeepsInv(s: State, table: Table, i: nat, tree: Option<seq<CustNode>>)
    requires Inv(s, table) && Lease.Timely(s.lease) && Enabled(s, Begin(i, tree))
    ensures Inv(Step(s, Begin(i, tree)), table)
  {
    StepKeepsOneAtATime(s, Begin(i, tree));
    var s' := Step(s, Begin(i, tree));
    assert s'.running[i].Some? && Lease.Timely(s'.lease);
    forall j | 0 <= j < |s.running|
      ensures s.running[j].None?
    {
      if s.running[j].Some? {
        assert s.lease.trackers[j].phase.Updating? && s'.running[j].Some?;
        OnlyOneRuns(s', i, j);
      }
    }
    assert Follows(s', table, Current(tree, [], []));
  }

  lemma StepKeepsInv(s: State, table: Table, a: Action)
    requires Inv(s, table) && Lease.Timely(s.lease) && Enabled(s, a)
    ensures Inv(Step(s, a), table)
  {
    match a
    case Call(i, e) => CallKeepsInv(s, table, i, e);
    case Begin(i, tree) => BeginKeepsInv(s, table, i, tree);
    case End(i) => EndKeepsInv(s, table, i);
    case Protocol(_) =>
      StepKeepsOneAtATime(s, a);
      var s' := Step(s, a);
      forall i | 0 <= i < |s'.running| && s'.running[i].Some?
        ensures Follows(s', table, s'.running[i].value)
      {
        assert Follows(s, table, s.running[i].value);
      }
  }

  lemma {:induction false} RunKeepsInv(s: State, table: Table, acts: seq<Action>)
    requires Inv(s, table) && Runs(s, acts) && TimelyRun(s, acts)
    ensures Inv(Exec(s, acts), table)
    decreases |acts|
  {
    if acts == [] {
    } else {
      StepKeepsInv(s, table, acts[0]);
      RunKeepsInv(Step(s, acts[0]), table, acts[1..]);
    }
  }

  /** The calls of a pass in progress flip what they find, since those of its completion do. */
  lemma UndisturbedFlips(c: Current, start: Table)
    requires Undisturbed(c, start) && (c.trace == [] || Completable(c))
    ensures NotifiedFirst(c.trace) && WritesFlip(start, c.trace)
  {
    hide PassAsFound, SplitAsFound, Undisturbed, PassTrace, ReplayAll;
    if c.trace != [] {
      CompletableNotifiesFirst(c);
      var d :| CompletedBy(c, d);
      if m :| 0 <= m < |c.trace| && c.trace[m].Wrote? {
        CompletionIsAPass(c, d, start, m);
        PassNotifiesFirstAndFlips(d.tree, start, d.trace);
        PrefixFlips(start, c.trace, d.trace);
      }
    }
  }

  /** A pass that has begun to write has made its query, so its completion is a pass on the same table. */
  lemma CompletionIsAPass(c: Current, d: Current, start: Table, m: nat)
    requires CompletedBy(c, d) && Undisturbed(c, start) && m < |c.trace| && c.trace[m].Wrote?
    ensures PassTrace(d.tree, start, d.trace)
  {
    hide Transitions, Listed, Enumerates, ReplayAll;
    assert c.trace[m] == d.trace[m];
    var n: nat :| n <= |d.trace| && SplitAsFound(Listed(d.tree.value), d, n);
    assert forall l | 0 <= l < n :: d.trace[..n][l] == d.trace[l];
    assert n < m;
    assert d.trace[..n] == c.trace[..n] && d.found[n] == c.found[n];
    assert PassSplit(Listed(d.tree.value), start, d.trace, n);
  }

  lemma PrefixFlips(table: Table, a: seq<Event>, b: seq<Event>)
    requires a <= b && WritesFlip(table, b)
    ensures WritesFlip(table, a)
  {
    forall k | 0 <= k < |a| && a[k].Wrote? && a[k].stored
      ensures HasStatus(ReplayAll(table, a[..k]), a[k].bastion, StatusFor(!a[k].up))
    {
      assert a[..k] == b[..k] && a[k] == b[k];
    }
  }

  lemma TimelyRunKeepsInv(n: nat, table: Table, acts: seq<Action>)
    requires Runs(Init(n, table), acts) && TimelyRun(Init(n, table), acts)
    ensures Inv(Exec(Init(n, table), acts), table)
  {
    Lease.InitHoldsLease(n);
    assert Inv(Init(n, table), table);
    RunKeepsInv(Init(n, table), table, acts);
  }

  /** In every timely run of any number of trackers, the finished passes of all of them, in the order in which they
      began and ended, are a run of passes by one writer, and the journal is their calls followed by those of the one
      pass that may be in progress. */
  lemma FleetIsOneWriter(n: nat, table: Table, acts: seq<Action>)
    requires Runs(Init(n, table), acts) && TimelyRun(Init(n, table), acts)
    ensures var s := Exec(Init(n, table), acts);
            && RunOfPasses(table, s.passes)
            && Journal(s.passes) <= s.journal && s.table == ReplayAll(table, s.journal)
            && ((forall i | 0 <= i < |s.running| :: s.running[i].None?) ==> s.journal == Journal(s.passes))
  {
    TimelyRunKeepsInv(n, table, acts);
    var s := Exec(Init(n, table), acts);
    if i :| 0 <= i < |s.running| && s.running[i].Some? {
      assert Follows(s, table, s.running[i].value);
    }
  }

  /** So in timely runs, over all trackers and including a pass in progress, each status write directly follows its own
      successful notification, and each write that reaches the table changes the status. */
  lemma FleetWritesFlip(n: nat, table: Table, acts: seq<Action>)
    requires Runs(Init(n, table), acts) && TimelyRun(Init(n, table), acts)
    ensures var journal := Exec(Init(n, table), acts).journal; NotifiedFirst(journal) && WritesFlip(table, journal)
  {
    hide RunOfPasses, NotifiedFirst, WritesFlip;
    TimelyRunKeepsInv(n, table, acts);
    var s := Exec(Init(n, table), acts);
    RunNotifiesFirst(table, s.passes);
    if i :| 0 <= i < |s.running| && s.running[i].Some? {
      var c := s.running[i].value;
      assert Follows(s, table, c);
      UndisturbedFlips(c, ReplayAll(table, Journal(s.passes)));
      FlipConcat(table, Journal(s.passes), c.trace);
      NotifiedFirstConcat(Journal(s.passes), c.trace);
    }
  }

  lemma NotifiedFirstConcat(a: seq<Event>, b: seq<Event>)
    requires NotifiedFirst(a) && NotifiedFirst(b)
    ensures NotifiedFirst(a + b)
  {
  }

  /** And successive status changes of one bastion alternate, whichever trackers make them. */
  lemma FleetChangesAlternate(n: nat, table: Table, acts: seq<Action>, i: nat, k: nat, id: string)
    requires Runs(Init(n, table), acts) && TimelyRun(Init(n, table), acts)
    requires var journal := Exec(Init(n, table), acts).journal;
             && i < k < |journal| && ChangesStatus(journal[i], id) && ChangesStatus(journal[k], id)
             && forall m | i < m < k :: !ChangesStatus(journal[m], id)
    ensures var journal := Exec(Init(n, table), acts).journal;
            journal[k].up == !journal[i].up
  {
    FleetWritesFlip(n, table, acts);
    FlipsAlternate(table, Exec(Init(n, table), acts).journal, i, k, id);
  }
}
