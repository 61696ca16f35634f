/** Leadership of the bastion tracker: any number of trackers compete for one etcd key.

    A tracker offers itself by setting the key only if it is absent, and renews by compare-and-swap on its own id.
    Every Set that etcd stores lasts SERVICE_TTL. A request, its processing by etcd and the client's view of the
    result are three separate steps, so a request can be stored while the client sees an error. The client may send the
    same request again to another endpoint, and one that it gave up on can still be stored later (a stray). */
module Lease {
  import opened Options

  const SECOND: nat := 1_000_000_000
  const SERVICE_TTL: nat := 60 * SECOND
  const MIN_UPDATE_DELAY: nat := 180 * SECOND

  // The etcd key

  datatype Register = Vacant | Held(owner: nat, expires: nat)

  datatype SetOptions = PrevNoExist | PrevValue(value: nat)

  datatype Reply = Stored | NodeExist | TestFailed | KeyNotFound

  /** etcd's answer to one Set of the key to `self`, and the key afterwards. */
  function SetKey(reg: Register, opts: SetOptions, self: nat, now: nat): (Register, Reply) {
    match opts
    case PrevNoExist =>
      if reg.Held? then (reg, NodeExist) else (Held(self, now + SERVICE_TTL), Stored)
    case PrevValue(v) =>
      if reg.Vacant? then (reg, KeyNotFound)
      else if reg.owner != v then (reg, TestFailed)
      else (Held(self, now + SERVICE_TTL), Stored)
  }

  /** The options of the next offer: renew when serving, otherwise claim. */
  function OfferOptions(serving: bool, self: nat): SetOptions {
    if serving then PrevValue(self) else PrevNoExist
  }

  // The trackers

  datatype Phase =
    | Resting                             // waiting for the leader ticker
    | Waiting(opts: SetOptions)           // a Set is on its way to etcd
    | Answered(reply: Reply, at: nat)     // etcd processed the Set, the reply is on its way back
    | Decided                             // offerService returned
    | Updating                            // inside updateSeen

  /** `stored` is when etcd last stored a Set of this tracker, whether or not the tracker learned of it; `granted` is
      when etcd stored the last Set that the tracker saw succeed. */
  datatype Tracker = Tracker(
    serving: bool, phase: Phase, stored: Option<nat>, granted: Option<nat>, lastUpdate: Option<nat>)

  datatype Event =
    | OfferOk(who: nat, at: nat)
    | OfferFailed(who: nat)
    | PassStarted(who: nat, at: nat)
    | PassEnded(who: nat, at: nat)

  datatype State = State(
    now: nat, register: Register, trackers: seq<Tracker>, strays: multiset<(nat, SetOptions)>, history: seq<Event>)

  datatype Action =
    | Pass(d: nat)                            // time passes
    | Expire                                  // etcd sweeps the key once its TTL has run out
    | Offer(i: nat)                           // the tracker sends its Set
    | Resend(i: nat)                          // the client sends it again, to the next etcd endpoint
    | Serve(i: nat)                           // etcd processes it
    | Return(i: nat)                          // the tracker reads etcd's reply
    | Fail(i: nat)                            // the tracker sees any other error
    | ServeStray(i: nat, opts: SetOptions)    // etcd processes a Set whose sender has given up
    | StartPass(i: nat)
    | SkipPass(i: nat)
    | EndPass(i: nat)

  predicate TimeToUpdate(lastUpdate: Option<nat>, now: nat) {
    lastUpdate.None? || now - lastUpdate.value >= MIN_UPDATE_DELAY
  }

  predicate Enabled(s: State, a: Action) {
    match a
    case Pass(_) => true
    case Expire => s.register.Held? && s.now >= s.register.expires
    case ServeStray(i, opts) => i < |s.trackers| && (i, opts) in s.strays
    case Offer(i) => i < |s.trackers| && s.trackers[i].phase.Resting?
    case Resend(i) => i < |s.trackers| && s.trackers[i].phase.Waiting?
    case Serve(i) => i < |s.trackers| && s.trackers[i].phase.Waiting?
    case Return(i) => i < |s.trackers| && s.trackers[i].phase.Answered?
    case Fail(i) => i < |s.trackers| && (s.trackers[i].phase.Waiting? || s.trackers[i].phase.Answered?)
    case StartPass(i) =>
      i < |s.trackers| && s.trackers[i].phase.Decided? &&
      s.trackers[i].serving && TimeToUpdate(s.trackers[i].lastUpdate, s.now)
    case SkipPass(i) =>
      i < |s.trackers| && s.trackers[i].phase.Decided? &&
      !(s.trackers[i].serving && TimeToUpdate(s.trackers[i].lastUpdate, s.now))
    case EndPass(i) => i < |s.trackers| && s.trackers[i].phase.Updating?
  }

  function Step(s: State, a: Action): State
    requires Enabled(s, a)
  {
    match a
    case Pass(d) => s.(now := s.now + d)
    case Expire => s.(register := Vacant)
    case ServeStray(i, opts) =>
      var t := s.trackers[i];
      var (reg, reply) := SetKey(s.register, opts, i, s.now);
      s.(register := reg, strays := s.strays - multiset{(i, opts)},
         trackers := s.trackers[i := t.(stored := if reply.Stored? then Some(s.now) else t.stored)])
    case Offer(i) =>
      var t := s.trackers[i];
      s.(trackers := s.trackers[i := t.(phase := Waiting(OfferOptions(t.serving, i)))])
    case Resend(i) => s.(strays := s.strays + multiset{(i, s.trackers[i].phase.opts)})
    case Serve(i) =>
      var t := s.trackers[i];
      var (reg, reply) := SetKey(s.register, t.phase.opts, i, s.now);
      s.(register := reg,
         trackers := s.trackers[i := t.(phase := Answered(reply, s.now),
                                        stored := if reply.Stored? then Some(s.now) else t.stored)])
    case Return(i) =>
      var t := s.trackers[i];
      var ok := t.phase.reply.Stored?;
      s.(trackers := s.trackers[i := t.(phase := Decided, serving := ok,
                                        granted := if ok then Some(t.phase.at) else t.granted)],
         history := s.history + [if ok then OfferOk(i, t.phase.at) else OfferFailed(i)])
    case Fail(i) =>
      var t := s.trackers[i];
      s.(trackers := s.trackers[i := t.(phase := Decided, serving := false)],
         strays := if t.phase.Waiting? then s.strays + multiset{(i, t.phase.opts)} else s.strays,
         history := s.history + [OfferFailed(i)])
    case StartPass(i) =>
      s.(trackers := s.trackers[i := s.trackers[i].(phase := Updating)],
         history := s.history + [PassStarted(i, s.now)])
    case SkipPass(i) =>
      s.(trackers := s.trackers[i := s.trackers[i].(phase := Resting)])
    case EndPass(i) =>
      s.(trackers := s.trackers[i := s.trackers[i].(phase := Resting, lastUpdate := Some(s.now))],
         history := s.history + [PassEnded(i, s.now)])
  }

  // Runs

  function Init(n: nat): State {
    State(0, Vacant, seq(n, i => Tracker(false, Resting, None, None, None)), multiset{}, [])
  }

  predicate Runs(s: State, acts: seq<Action>)
    decreases |acts|
  {
    acts == [] || (Enabled(s, acts[0]) && Runs(Step(s, acts[0]), acts[1..]))
  }

  function Exec(s: State, acts: seq<Action>): State
    requires Runs(s, acts)
    decreases |acts|
  {
    if acts == [] then s else Exec(Step(s, acts[0]), acts[1..])
  }

  // Lease exclusion

  /** Less than one TTL has passed since `t`. */
  predicate Unexpired(t: Option<nat>, now: nat) {
    t.Some? && now < t.value + SERVICE_TTL
  }

  /** What every step keeps: the key is exactly the youngest Set still within its TTL, and what a tracker believes
      it was granted was stored. */
  ghost predicate LeaseInv(s: State) {
    && (s.register.Held? ==> s.register.owner < |s.trackers|)
    && (forall i | 0 <= i < |s.trackers| :: KnownToRegister(s, i))
    && (forall i | 0 <= i < |s.trackers| :: GrantWasStored(s.trackers[i], s.now))
    && (forall i | 0 <= i < |s.trackers| :: OwnRequest(s.trackers[i], i))
    && (forall r | r in s.strays :: r.1 == PrevNoExist || r.1 == PrevValue(r.0))
  }

  predicate KnownToRegister(s: State, i: nat)
    requires i < |s.trackers|
  {
    var stored := s.trackers[i].stored;
    && (Unexpired(stored, s.now) ==> s.register == Held(i, stored.value + SERVICE_TTL))
    && (s.register.Held? && s.register.owner == i ==> stored == Some(s.register.expires - SERVICE_TTL))
    && (stored.Some? ==> stored.value <= s.now)
  }

  predicate GrantWasStored(t: Tracker, now: nat) {
    && (t.granted.Some? ==> t.stored.Some? && t.granted.value <= t.stored.value)
    && (t.serving ==> t.granted.Some?)
    && (t.phase.Answered? && t.phase.reply.Stored? ==> t.stored.Some? && t.phase.at <= t.stored.value)
  }

  predicate OwnRequest(t: Tracker, i: nat) {
    && (t.phase.Waiting? ==> t.phase.opts == OfferOptions(t.serving, i))
    && (t.phase.Updating? ==> t.serving)
  }

  lemma StepKeepsLease(s: State, a: Action)
    requires LeaseInv(s) && Enabled(s, a)
    ensures LeaseInv(Step(s, a))
  {
    StraysStayOwn(s, a);
    if a.Serve? || a.ServeStray? {
      ServeKeepsLease(s, a);
    } else {
      OtherStepKeepsLease(s, a);
    }
  }

  lemma StraysStayOwn(s: State, a: Action)
    requires LeaseInv(s) && Enabled(s, a)
    ensures forall r | r in Step(s, a).strays :: r.1 == PrevNoExist || r.1 == PrevValue(r.0)
  {
    forall r | r in Step(s, a).strays
      ensures r.1 == PrevNoExist || r.1 == PrevValue(r.0)
    {
      if r !in s.strays {
        assert (a.Fail? || a.Resend?) && r == (a.i, s.trackers[a.i].phase.opts);
        assert OwnRequest(s.trackers[a.i], a.i);
      }
    }
  }

  lemma ServeKeepsLease(s: State, a: Action)
    requires LeaseInv(s) && Enabled(s, a) && (a.Serve? || a.ServeStray?)
    requires forall r | r in Step(s, a).strays :: r.1 == PrevNoExist || r.1 == PrevValue(r.0)
    ensures LeaseInv(Step(s, a))
  {
    var s' := Step(s, a);
    var opts := if a.Serve? then s.trackers[a.i].phase.opts else a.opts;
    assert OwnRequest(s.trackers[a.i], a.i) && KnownToRegister(s, a.i);
    if SetKey(s.register, opts, a.i, s.now).1.Stored? {
      SetKeepsLease(s, a.i, opts);
    }
    forall i | 0 <= i < |s'.trackers|
      ensures KnownToRegister(s', i) && GrantWasStored(s'.trackers[i], s'.now) && OwnRequest(s'.trackers[i], i)
    {
      assert KnownToRegister(s, i) && GrantWasStored(s.trackers[i], s.now) && OwnRequest(s.trackers[i], i);
    }
  }

  lemma OtherStepKeepsLease(s: State, a: Action)
    requires LeaseInv(s) && Enabled(s, a) && !a.Serve? && !a.ServeStray?
    requires forall r | r in Step(s, a).strays :: r.1 == PrevNoExist || r.1 == PrevValue(r.0)
    ensures LeaseInv(Step(s, a))
  {
    var s' := Step(s, a);
    forall i | 0 <= i < |s'.trackers|
      ensures KnownToRegister(s', i) && GrantWasStored(s'.trackers[i], s'.now) && OwnRequest(s'.trackers[i], i)
    {
      assert KnownToRegister(s, i) && GrantWasStored(s.trackers[i], s.now) && OwnRequest(s.trackers[i], i);
    }
  }

  /** etcd stores a Set only when the key is vacant or already the sender's, so nobody else is within its TTL. */
  lemma SetKeepsLease(s: State, i: nat, opts: SetOptions)
    requires LeaseInv(s) && i < |s.trackers| && opts in {PrevNoExist, PrevValue(i)}
    requires SetKey(s.register, opts, i, s.now).1.Stored?
    ensures forall j | 0 <= j < |s.trackers| && j != i :: !Unexpired(s.trackers[j].stored, s.now)
  {
    forall j | 0 <= j < |s.trackers| && j != i
      ensures !Unexpired(s.trackers[j].stored, s.now)
    {
      assert KnownToRegister(s, j);
    }
  }

  lemma {:induction false} RunKeepsLease(s: State, acts: seq<Action>)
    requires LeaseInv(s) && Runs(s, acts)
    ensures LeaseInv(Exec(s, acts))
    decreases |acts|
  {
    if acts == [] {
    } else {
      StepKeepsLease(s, acts[0]);
      RunKeepsLease(Step(s, acts[0]), acts[1..]);
    }
  }

  lemma InitHoldsLease(n: nat)
    ensures LeaseInv(Init(n))
  {
  }

  /** For any number of trackers and any interleaving, two different trackers never both have a Set less than one TTL
      old: neither Sets they know succeeded, nor Sets etcd stored while they saw an error. */
  lemma LeaseExclusion(n: nat, acts: seq<Action>, i: nat, j: nat)
    requires Runs(Init(n), acts) && i < j < n
    ensures var s := Exec(Init(n), acts);
            && |s.trackers| == n
            && !(Unexpired(s.trackers[i].stored, s.now) && Unexpired(s.trackers[j].stored, s.now))
            && !(Unexpired(s.trackers[i].granted, s.now) && Unexpired(s.trackers[j].granted, s.now))
            && (s.trackers[i].stored.Some? && s.trackers[j].stored.Some? ==>
                  s.now >= s.trackers[i].stored.value + 60_000_000_000 ||
                  s.now >= s.trackers[j].stored.value + 60_000_000_000)
  {
    InitHoldsLease(n);
    RunKeepsLease(Init(n), acts);
    RunKeepsTrackers(Init(n), acts);
    var s := Exec(Init(n), acts);
    assert KnownToRegister(s, i) && KnownToRegister(s, j);
    assert GrantWasStored(s.trackers[i], s.now) && GrantWasStored(s.trackers[j], s.now);
  }

  lemma {:induction false} RunKeepsTrackers(s: State, acts: seq<Action>)
    requires Runs(s, acts)
    ensures |Exec(s, acts).trackers| == |s.trackers|
    decreases |acts|
  {
    if acts == [] {
    } else {
      RunKeepsTrackers(Step(s, acts[0]), acts[1..]);
    }
  }

  // Every pass starts right after a grant

  /** The last event of tracker `i`. */
  function Last(h: seq<Event>, i: nat): Option<Event> {
    if h == [] then None
    else if h[|h| - 1].who == i then Some(h[|h| - 1])
    else Last(h[..|h| - 1], i)
  }

  predicate LastIsGrant(h: seq<Event>, i: nat) {
    Last(h, i).Some? && Last(h, i).value.OfferOk?
  }

  ghost predicate PassInv(s: State) {
    && (forall i | 0 <= i < |s.trackers| && s.trackers[i].phase.Decided? && s.trackers[i].serving ::
          LastIsGrant(s.history, i))
    && (forall k | 0 <= k < |s.history| && s.history[k].PassStarted? ::
          LastIsGrant(s.history[..k], s.history[k].who))
    && (forall k | 0 <= k < |s.history| && s.history[k].PassEnded? :: EndIsRemembered(s, s.history[k]))
    && Spaced(s.history)
  }

  predicate EndIsRemembered(s: State, e: Event)
    requires e.PassEnded?
  {
    e.who < |s.trackers| && s.trackers[e.who].lastUpdate.Some? &&
    e.at <= s.trackers[e.who].lastUpdate.value <= s.now
  }

  /** A tracker's pass starts at least MIN_UPDATE_DELAY after each of its earlier passes ended. */
  ghost predicate Spaced(h: seq<Event>) {
    forall e, k | 0 <= e < k < |h| && h[e].PassEnded? && h[k].PassStarted? && h[e].who == h[k].who ::
      h[k].at >= h[e].at + MIN_UPDATE_DELAY
  }

  lemma StepKeepsPasses(s: State, a: Action)
    requires PassInv(s) && Enabled(s, a)
    ensures PassInv(Step(s, a))
  {
    StepKeepsEnds(s, a);
    var s' := Step(s, a);
    if s'.history != s.history {
      var e := s'.history[|s.history|];
      assert s'.history == s.history + [e] && s'.history[..|s.history|] == s.history;
      forall k | 0 <= k < |s'.history| && s'.history[k].PassStarted?
        ensures LastIsGrant(s'.history[..k], s'.history[k].who)
      {
        if k < |s.history| {
          assert s'.history[..k] == s.history[..k];
        }
      }
    }
  }

  lemma StepKeepsEnds(s: State, a: Action)
    requires PassInv(s) && Enabled(s, a)
    ensures var s' := Step(s, a);
            && (forall k | 0 <= k < |s'.history| && s'.history[k].PassEnded? :: EndIsRemembered(s', s'.history[k]))
            && Spaced(s'.history)
  {
    hide LastIsGrant;
    var s' := Step(s, a);
    forall k | 0 <= k < |s'.history| && s'.history[k].PassEnded?
      ensures EndIsRemembered(s', s'.history[k])
    {
      if k < |s.history| {
        assert EndIsRemembered(s, s.history[k]);
      }
    }
  }

  lemma {:induction false} RunKeepsPasses(s: State, acts: seq<Action>)
    requires PassInv(s) && Runs(s, acts)
    ensures PassInv(Exec(s, acts))
    decreases |acts|
  {
    if acts == [] {
    } else {
      StepKeepsPasses(s, acts[0]);
      RunKeepsPasses(Step(s, acts[0]), acts[1..]);
    }
  }

  lemma {:induction false} LastHasPlace(h: seq<Event>, i: nat) returns (m: nat)
    requires Last(h, i).Some?
    ensures m < |h| && h[m] == Last(h, i).value && h[m].who == i
    ensures forall l | m < l < |h| :: h[l].who != i
  {
    if h[|h| - 1].who == i {
      m := |h| - 1;
    } else {
      m := LastHasPlace(h[..|h| - 1], i);
    }
  }

  /** In every run, a tracker starts a pass only when the last thing that happened to it was a successful offer, and
      at least MIN_UPDATE_DELAY after the end of each of its earlier passes. */
  lemma PassesFollowGrants(n: nat, acts: seq<Action>, k: nat) returns (m: nat)
    requires Runs(Init(n), acts) && k < |Exec(Init(n), acts).history|
    requires Exec(Init(n), acts).history[k].PassStarted?
    ensures var h := Exec(Init(n), acts).history;
            && m < k && h[m].OfferOk? && h[m].who == h[k].who
            && (forall l | m < l < k :: h[l].who != h[k].who)
            && (forall e | 0 <= e < k && h[e].PassEnded? && h[e].who == h[k].who ::
                  h[k].at >= h[e].at + 180_000_000_000)
  {
    RunKeepsPasses(Init(n), acts);
    var h := Exec(Init(n), acts).history;
    assert LastIsGrant(h[..k], h[k].who);
    m := LastHasPlace(h[..k], h[k].who);
  }

  // When a pass is due

  /** What a tracker remembers is when its latest pass ended. */
  ghost predicate RemembersEnd(s: State, i: nat)
    requires i < |s.trackers|
  {
    s.trackers[i].lastUpdate.Some? ==> PassEnded(i, s.trackers[i].lastUpdate.value) in s.history
  }

  ghost predicate EndInv(s: State) {
    PassInv(s) && forall i | 0 <= i < |s.trackers| :: RemembersEnd(s, i)
  }

  lemma StepKeepsEndInv(s: State, a: Action)
    requires EndInv(s) && Enabled(s, a)
    ensures EndInv(Step(s, a))
  {
    StepKeepsPasses(s, a);
    hide PassInv;
    var s' := Step(s, a);
    assert forall e | e in s.history :: e in s'.history;
    forall i | 0 <= i < |s'.trackers|
      ensures RemembersEnd(s', i)
    {
      assert RemembersEnd(s, i);
      if a == EndPass(i) {
        assert s'.history[|s.history|] == PassEnded(i, s.now);
      }
    }
  }

  lemma {:induction false} RunKeepsEndInv(s: State, acts: seq<Action>)
    requires EndInv(s) && Runs(s, acts)
    ensures EndInv(Exec(s, acts))
    decreases |acts|
  {
    if acts == [] {
    } else {
      StepKeepsEndInv(s, acts[0]);
      RunKeepsEndInv(Step(s, acts[0]), acts[1..]);
    }
  }

  /** In every reachable state, a tracker whose offer has just succeeded starts a pass if and only if 180 seconds have
      gone by since each of its earlier passes ended; otherwise it rests. */
  lemma PassIsDueExactly(n: nat, acts: seq<Action>, i: nat)
    requires Runs(Init(n), acts)
    requires var s := Exec(Init(n), acts);
             i < |s.trackers| && s.trackers[i].phase.Decided? && s.trackers[i].serving
    ensures var s := Exec(Init(n), acts);
            && (Enabled(s, StartPass(i)) <==>
                  forall e | e in s.history && e.PassEnded? && e.who == i :: s.now >= e.at + 180_000_000_000)
            && (Enabled(s, SkipPass(i)) <==> !Enabled(s, StartPass(i)))
  {
    RunKeepsEndInv(Init(n), acts);
    var s := Exec(Init(n), acts);
    assert RemembersEnd(s, i);
    forall e | e in s.history && e.PassEnded? && e.who == i
      ensures EndIsRemembered(s, e)
    {
      var k :| 0 <= k < |s.history| && s.history[k] == e;
    }
  }

  // Leadership when every serving tracker renews in time

  /** No tracker serves when its last stored Set has run out: each renewal of a serving tracker is stored within the
      TTL of the one before it, whenever the tracker learns of that. */
  ghost predicate Timely(s: State) {
    forall i | 0 <= i < |s.trackers| && s.trackers[i].serving :: Unexpired(s.trackers[i].stored, s.now)
  }

  ghost predicate TimelyRun(s: State, acts: seq<Action>)
    decreases |acts|
  {
    Timely(s) && (acts == [] || (Enabled(s, acts[0]) && TimelyRun(Step(s, acts[0]), acts[1..])))
  }

  /** etcd never refused the renewal of a serving tracker. */
  ghost predicate Renewed(s: State) {
    forall i | 0 <= i < |s.trackers| && s.trackers[i].serving && s.trackers[i].phase.Answered? ::
      s.trackers[i].phase.reply.Stored?
  }

  lemma ServingHoldsKey(s: State, i: nat)
    requires LeaseInv(s) && Timely(s) && i < |s.trackers| && s.trackers[i].serving
    ensures s.register.Held? && s.register.owner == i && s.now < s.register.expires
    ensures SetKey(s.register, OfferOptions(true, i), i, s.now).1.Stored?
  {
    assert KnownToRegister(s, i) && GrantWasStored(s.trackers[i], s.now);
  }

  lemma StepRenews(s: State, a: Action)
    requires LeaseInv(s) && Timely(s) && Renewed(s) && Enabled(s, a)
    ensures Renewed(Step(s, a))
    ensures forall i | 0 <= i < |s.trackers| && s.trackers[i].serving && a != Fail(i) :: Step(s, a).trackers[i].serving
  {
    if a.Serve? && s.trackers[a.i].serving {
      assert OwnRequest(s.trackers[a.i], a.i);
      ServingHoldsKey(s, a.i);
    }
  }

  lemma {:induction false} TimelyRunRenews(s: State, acts: seq<Action>)
    requires LeaseInv(s) && Renewed(s) && TimelyRun(s, acts)
    ensures Runs(s, acts)
    ensures var s' := Exec(s, acts); LeaseInv(s') && Timely(s') && Renewed(s')
    ensures forall i | 0 <= i < |s.trackers| && s.trackers[i].serving && Fail(i) !in acts ::
              i < |Exec(s, acts).trackers| && Exec(s, acts).trackers[i].serving
    decreases |acts|
  {
    if acts == [] {
    } else {
      StepRenews(s, acts[0]);
      StepKeepsLease(s, acts[0]);
      TimelyRunRenews(Step(s, acts[0]), acts[1..]);
    }
  }

  /** Under timely ticks at most one tracker serves in any reachable state. A tracker that serves goes on serving, and
      nobody else ever does, until one of its own offers fails for a reason other than etcd's refusal. */
  lemma LeaderIsNotDisplaced(n: nat, before: seq<Action>, after: seq<Action>, i: nat, j: nat)
    requires TimelyRun(Init(n), before) && Runs(Init(n), before)
    requires TimelyRun(Exec(Init(n), before), after) && Runs(Exec(Init(n), before), after)
    requires i < n && j < n && i != j && |Exec(Init(n), before).trackers| == n
    ensures var s := Exec(Init(n), before);
            var s' := Exec(s, after);
            && |s'.trackers| == n
            && !(s.trackers[i].serving && s.trackers[j].serving)
            && (s.trackers[i].serving && Fail(i) !in after ==> s'.trackers[i].serving && !s'.trackers[j].serving)
  {
    InitHoldsLease(n);
    TimelyRunRenews(Init(n), before);
    var s := Exec(Init(n), before);
    TimelyRunRenews(s, after);
    RunKeepsTrackers(s, after);
    OneLeader(s, i, j);
    OneLeader(Exec(s, after), i, j);
  }

  /** Under timely ticks no two tracking passes ever overlap: the table has one writer at a time. */
  lemma PassesDoNotOverlap(n: nat, acts: seq<Action>, i: nat, j: nat)
    requires TimelyRun(Init(n), acts) && Runs(Init(n), acts)
    requires i < |Exec(Init(n), acts).trackers| && j < |Exec(Init(n), acts).trackers| && i != j
    ensures !(Exec(Init(n), acts).trackers[i].phase.Updating? && Exec(Init(n), acts).trackers[j].phase.Updating?)
  {
    InitHoldsLease(n);
    TimelyRunRenews(Init(n), acts);
    var s := Exec(Init(n), acts);
    OneLeader(s, i, j);
    assert OwnRequest(s.trackers[i], i) && OwnRequest(s.trackers[j], j);
  }

  lemma OneLeader(s: State, i: nat, j: nat)
    requires LeaseInv(s) && Timely(s) && i < |s.trackers| && j < |s.trackers| && i != j
    ensures !(s.trackers[i].serving && s.trackers[j].serving)
  {
    if s.trackers[i].serving && s.trackers[j].serving {
      ServingHoldsKey(s, i);
      ServingHoldsKey(s, j);
    }
  }

  // offerService as one call

  /** What can go wrong with one Set besides etcd refusing it. */
  datatype Fault = NoFault | RequestLost | ReplyLost

  /** The key and the tracker's flag after one call of offerService. */
  function OfferService(reg: Register, serving: bool, self: nat, now: nat, fault: Fault): (Register, bool) {
    if fault.RequestLost? then (reg, false)
    else
      var (reg', reply) := SetKey(reg, OfferOptions(serving, self), self, now);
      (reg', fault.NoFault? && reply.Stored?)
  }

  /** What an undisturbed offer comes to: a serving tracker goes on exactly when the key is still its own, so one whose
      key has lapsed steps down and claims it only in a later offer; any other serves exactly when the key is vacant.
      The key then lasts 60 seconds, and is otherwise left as it was. */
  lemma OfferExactly(reg: Register, serving: bool, self: nat, now: nat, fault: Fault)
    ensures var (reg', serves) := OfferService(reg, serving, self, now, fault);
            var granted := if serving then reg.Held? && reg.owner == self else reg.Vacant?;
            && (serves <==> granted && fault.NoFault?)
            && reg' == if granted && !fault.RequestLost? then Held(self, now + 60_000_000_000) else reg
  {
  }

  function OfferActions(i: nat, fault: Fault): seq<Action> {
    match fault
    case NoFault => [Offer(i), Serve(i), Return(i)]
    case RequestLost => [Offer(i), Fail(i)]
    case ReplyLost => [Offer(i), Serve(i), Fail(i)]
  }

  lemma {:induction false} ExecConcat(s: State, a: seq<Action>, b: seq<Action>)
    requires Runs(s, a) && Runs(Exec(s, a), b)
    ensures Runs(s, a + b) && Exec(s, a + b) == Exec(Exec(s, a), b)
    decreases |a|
  {
    if a == [] {
      assert a + b == b;
    } else {
      ExecConcat(Step(s, a[0]), a[1..], b);
      assert (a + b)[0] == a[0] && (a + b)[1..] == a[1..] + b;
    }
  }

  lemma Unroll(s: State, acts: seq<Action>, k: nat)
    requires k < |acts| && Enabled(s, acts[k]) && Runs(Step(s, acts[k]), acts[k + 1..])
    ensures Runs(s, acts[k..]) && Exec(s, acts[k..]) == Exec(Step(s, acts[k]), acts[k + 1..])
  {
    assert acts[k..][0] == acts[k] && acts[k..][1..] == acts[k + 1..];
  }

  /** One call of offerService is a run of the protocol's steps. */
  lemma OfferServiceIsARun(s: State, i: nat, fault: Fault)
    requires i < |s.trackers| && s.trackers[i].phase.Resting?
    ensures var acts := OfferActions(i, fault);
            var effect := OfferService(s.register, s.trackers[i].serving, i, s.now, fault);
            && Runs(s, acts)
            && |Exec(s, acts).trackers| == |s.trackers|
            && Exec(s, acts).register == effect.0
            && Exec(s, acts).trackers[i].serving == effect.1
            && Exec(s, acts).trackers[i].phase == Decided
            && Exec(s, acts).now == s.now
            && (forall j | 0 <= j < |s.trackers| && j != i :: Exec(s, acts).trackers[j] == s.trackers[j])
  {
    var acts := OfferActions(i, fault);
    var s1 := Step(s, acts[0]);
    var s2 := Step(s1, acts[1]);
    if fault.RequestLost? {
      assert Exec(s2, acts[2..]) == s2;
    } else {
      var s3 := Step(s2, acts[2]);
      assert Exec(s3, acts[3..]) == s3;
      Unroll(s2, acts, 2);
    }
    Unroll(s1, acts, 1);
    Unroll(s, acts, 0);
    assert acts[0..] == acts;
  }

  /** Without timely ticks two trackers can believe they serve: the first stalls for one TTL after its grant. */
  lemma StalledTrackerKeepsItsFlag() returns (acts: seq<Action>)
    ensures Runs(Init(2), acts)
    ensures var s := Exec(Init(2), acts); |s.trackers| == 2 && s.trackers[0].serving && s.trackers[1].serving
    ensures !TimelyRun(Init(2), acts)
  {
    var claim0, claim1 := OfferActions(0, NoFault), OfferActions(1, NoFault);
    OfferServiceIsARun(Init(2), 0, NoFault);
    var s1 := Exec(Init(2), claim0);
    var stall := [Pass(SERVICE_TTL), Expire];
    var s2 := Step(Step(s1, stall[0]), stall[1]);
    assert Exec(s2, stall[2..]) == s2;
    Unroll(Step(s1, stall[0]), stall, 1);
    Unroll(s1, stall, 0);
    assert stall[0..] == stall;
    OfferServiceIsARun(s2, 1, NoFault);
    ExecConcat(s1, stall, claim1);
    ExecConcat(Init(2), claim0, stall + claim1);
    acts := claim0 + (stall + claim1);
    hide Step, Enabled, Runs, Exec, Timely;
    InitHoldsLease(2);
    if TimelyRun(Init(2), acts) {
      TimelyRunRenews(Init(2), acts);
      OneLeader(Exec(Init(2), acts), 0, 1);
    }
  }

  // When two trackers can serve at once

  /** The tracker itself does something; what etcd does with its requests does not count. */
  predicate IsStepOf(a: Action, i: nat) {
    || a == Offer(i) || a == Resend(i) || a == Return(i) || a == Fail(i)
    || a == StartPass(i) || a == SkipPass(i) || a == EndPass(i)
  }

  predicate ServesBeside(s: State, i: nat) {
    exists j | 0 <= j < |s.trackers| :: j != i && s.trackers[j].serving
  }

  /** While `i` does nothing for `d`, another tracker comes to serve beside it. */
  ghost predicate Overtakes(s: State, i: nat, d: nat, acts: seq<Action>)
    requires i < |s.trackers|
  {
    && Runs(s, acts) && (forall a | a in acts :: !IsStepOf(a, i))
    && Exec(s, acts).now == s.now + d
    && i < |Exec(s, acts).trackers| && Exec(s, acts).trackers[i].serving && ServesBeside(Exec(s, acts), i)
  }

  predicate ReplyInFlight(s: State, j: nat)
    requires j < |s.trackers|
  {
    s.trackers[j].phase.Answered? && s.trackers[j].phase.reply.Stored?
  }

  predicate RivalReplyInFlight(s: State, i: nat) {
    exists j | 0 <= j < |s.trackers| :: j != i && ReplyInFlight(s, j)
  }

  /** The key is free within `d`, or a rival has yet to read that it was granted. */
  predicate CanBeOvertaken(s: State, i: nat, d: nat) {
    s.register.Vacant? || s.register.expires <= s.now + d || RivalReplyInFlight(s, i)
  }

  /** Nobody but `i` serves or is about to, and the key stays held until after `end`. */
  ghost predicate Blocked(s: State, i: nat, end: nat) {
    && LeaseInv(s) && i < |s.trackers|
    && s.register.Held? && s.register.expires > end
    && !ServesBeside(s, i) && !RivalReplyInFlight(s, i)
  }

  lemma StepKeepsBlocked(s: State, a: Action, i: nat, end: nat)
    requires Blocked(s, i, end) && Enabled(s, a) && !IsStepOf(a, i) && s.now <= end
    ensures Blocked(Step(s, a), i, end)
  {
    StepKeepsLease(s, a);
    var s' := Step(s, a);
    assert KnownToRegister(s, s.register.owner);
    forall j | 0 <= j < |s'.trackers| && j != i
      ensures !s'.trackers[j].serving && !ReplyInFlight(s', j)
    {
      assert !s.trackers[j].serving && !ReplyInFlight(s, j) && OwnRequest(s.trackers[j], j);
    }
  }

  lemma {:induction false} RunKeepsBlocked(s: State, acts: seq<Action>, i: nat, end: nat)
    requires Blocked(s, i, end) && Runs(s, acts) && (forall a | a in acts :: !IsStepOf(a, i))
    requires Exec(s, acts).now <= end
    ensures Blocked(Exec(s, acts), i, end)
    decreases |acts|
  {
    if acts == [] {
    } else {
      TimeGrows(s, acts);
      assert acts[0] in acts;
      StepKeepsBlocked(s, acts[0], i, end);
      RunKeepsBlocked(Step(s, acts[0]), acts[1..], i, end);
    }
  }

  lemma {:induction false} TimeGrows(s: State, acts: seq<Action>)
    requires Runs(s, acts)
    ensures s.now <= Exec(s, acts).now
    decreases |acts|
  {
    if acts == [] {
    } else {
      TimeGrows(Step(s, acts[0]), acts[1..]);
    }
  }

  lemma Prepend(s: State, a: Action, acts: seq<Action>) returns (longer: seq<Action>)
    requires Enabled(s, a) && Runs(Step(s, a), acts)
    ensures Runs(s, longer) && Exec(s, longer) == Exec(Step(s, a), acts) && longer == [a] + acts
  {
    longer := [a] + acts;
    assert longer[1..] == acts;
  }

  /** A rival reads a grant that etcd stored some time ago. */
  lemma LateReplyOvertakes(s: State, i: nat, j: nat, d: nat) returns (acts: seq<Action>)
    requires i < |s.trackers| && s.trackers[i].serving && j < |s.trackers| && j != i && ReplyInFlight(s, j)
    ensures Overtakes(s, i, d, acts)
  {
    var s1 := Step(s, Pass(d));
    acts := Prepend(s1, Return(j), []);
    assert Step(s1, Return(j)).trackers[j].serving;
    acts := Prepend(s, Pass(d), acts);
  }

  /** A rival that is not serving can give up what it is doing and rest, and nothing else changes but strays. */
  lemma ComesToRest(s: State, j: nat) returns (acts: seq<Action>)
    requires LeaseInv(s) && j < |s.trackers| && !s.trackers[j].serving
    ensures Runs(s, acts) && forall a | a in acts :: a == Fail(j) || a == SkipPass(j)
    ensures var s' := Exec(s, acts);
            && s'.now == s.now && s'.register == s.register && |s'.trackers| == |s.trackers|
            && s'.trackers[j].phase.Resting? && !s'.trackers[j].serving
            && forall k | 0 <= k < |s.trackers| && k != j :: s'.trackers[k] == s.trackers[k]
  {
    assert OwnRequest(s.trackers[j], j);
    if s.trackers[j].phase.Resting? {
      acts := [];
    } else if s.trackers[j].phase.Decided? {
      acts := Prepend(s, SkipPass(j), []);
    } else {
      acts := Prepend(Step(s, Fail(j)), SkipPass(j), []);
      acts := Prepend(s, Fail(j), acts);
    }
  }

  /** A resting rival waits until the key is free, and claims it. */
  lemma ClaimOvertakes(s: State, i: nat, j: nat, d: nat) returns (acts: seq<Action>)
    requires i < |s.trackers| && s.trackers[i].serving
    requires j < |s.trackers| && j != i && s.trackers[j].phase.Resting? && !s.trackers[j].serving
    requires s.register.Vacant? || s.register.expires <= s.now + d
    ensures Overtakes(s, i, d, acts)
  {
    var s1 := Step(s, Pass(d));
    var s2 := if s.register.Held? then Step(s1, Expire) else s1;
    acts := OfferActions(j, NoFault);
    OfferServiceIsARun(s2, j, NoFault);
    assert forall a | a in acts :: !IsStepOf(a, i);
    assert Exec(s2, acts).trackers[j].serving && Exec(s2, acts).trackers[i].serving;
    hide Exec, Runs, Step, Enabled;
    if s.register.Held? {
      acts := Prepend(s1, Expire, acts);
    }
    acts := Prepend(s, Pass(d), acts);
  }

  /** Two flags at once, exactly. Let one tracker serve alone and then do nothing for `d`. Another tracker can come to
      serve beside it in that time if and only if the key is free by then, or a rival has yet to read an earlier grant
      of its own. */
  lemma OvertakenExactly(n: nat, before: seq<Action>, i: nat, d: nat)
    requires n >= 2 && i < n && Runs(Init(n), before)
    requires var s := Exec(Init(n), before);
             i < |s.trackers| && s.trackers[i].serving && !ServesBeside(s, i)
    ensures var s := Exec(Init(n), before);
            (exists acts :: Overtakes(s, i, d, acts)) <==> CanBeOvertaken(s, i, d)
  {
    InitHoldsLease(n);
    RunKeepsLease(Init(n), before);
    RunKeepsTrackers(Init(n), before);
    var s := Exec(Init(n), before);
    if CanBeOvertaken(s, i, d) {
      var acts := Overtaking(s, i, d);
    } else if acts :| Overtakes(s, i, d, acts) {
      RunKeepsBlocked(s, acts, i, s.now + d);
    }
  }

  lemma Overtaking(s: State, i: nat, d: nat) returns (acts: seq<Action>)
    requires LeaseInv(s) && i < |s.trackers| && |s.trackers| >= 2
    requires s.trackers[i].serving && !ServesBeside(s, i) && CanBeOvertaken(s, i, d)
    ensures Overtakes(s, i, d, acts)
  {
    if RivalReplyInFlight(s, i) {
      var j :| 0 <= j < |s.trackers| && j != i && ReplyInFlight(s, j);
      acts := LateReplyOvertakes(s, i, j, d);
    } else {
      var j := if i == 0 then 1 else 0;
      var rest := ComesToRest(s, j);
      var claim := ClaimOvertakes(Exec(s, rest), i, j, d);
      hide Exec, Runs;
      ExecConcat(s, rest, claim);
      acts := rest + claim;
    }
  }

  /** In particular, while no rival's grant is in flight and no rival holds the key, a stalled tracker can be overtaken
      within `d` if and only if its own last stored Set runs out in that time. */
  lemma StallExactly(n: nat, before: seq<Action>, i: nat, d: nat)
    requires n >= 2 && i < n && Runs(Init(n), before)
    requires var s := Exec(Init(n), before);
             && i < |s.trackers| && s.trackers[i].serving && !ServesBeside(s, i) && !RivalReplyInFlight(s, i)
             && (s.register.Held? ==> s.register.owner == i)
    ensures var s := Exec(Init(n), before);
            && s.trackers[i].stored.Some?
            && ((exists acts :: Overtakes(s, i, d, acts)) <==>
                s.trackers[i].stored.value + SERVICE_TTL <= s.now + d)
  {
    OvertakenExactly(n, before, i, d);
    InitHoldsLease(n);
    RunKeepsLease(Init(n), before);
    var s := Exec(Init(n), before);
    assert KnownToRegister(s, i) && GrantWasStored(s.trackers[i], s.now);
  }

  /** A late reply alone is enough: a tracker granted the key just now is joined at once by one that reads an earlier
      grant of its own, long run out. */
  lemma LateReplyJoinsFreshLeader() returns (acts: seq<Action>)
    ensures Runs(Init(2), acts)
    ensures var s := Exec(Init(2), acts);
            && |s.trackers| == 2 && s.trackers[0].serving && s.trackers[1].serving
            && s.trackers[0].granted == Some(s.now)
  {
    var s0 := Init(2);
    var s1 := Step(Step(s0, Offer(1)), Serve(1));
    var s2 := Step(Step(s1, Pass(SERVICE_TTL)), Expire);
    var s3 := Step(Step(Step(s2, Offer(0)), Serve(0)), Return(0));
    assert s3.trackers[0] == Tracker(true, Decided, Some(SERVICE_TTL), Some(SERVICE_TTL), None);
    assert s3.trackers[1].phase == Answered(Stored, 0);
    acts := Prepend(s3, Return(1), []);
    assert Exec(s3, acts).trackers ==
           [s3.trackers[0], s3.trackers[1].(phase := Decided, serving := true, granted := Some(0))];
    hide Exec, Runs;
    acts := Prepend(Step(Step(s2, Offer(0)), Serve(0)), Return(0), acts);
    acts := Prepend(Step(s2, Offer(0)), Serve(0), acts);
    acts := Prepend(s2, Offer(0), acts);
    acts := Prepend(Step(s1, Pass(SERVICE_TTL)), Expire, acts);
    acts := Prepend(s1, Pass(SERVICE_TTL), acts);
    acts := Prepend(Step(s0, Offer(1)), Serve(1), acts);
    acts := Prepend(s0, Offer(1), acts);
  }
}
