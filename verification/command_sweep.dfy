/** What the timeout sweep takes and retries, and what the server counts over whole runs. */
module CommandSweep {
  import opened Wrappers
  import opened Commands
  import opened CommandInvariants
  import opened CommandTheorems

  // ---------------------------------------------------------------- what a sweep takes

  /** The command was sent at least the acknowledgement timeout ago. */
  predicate Late(cfg: Config, p: Pending, now: int) { p.sentAt + cfg.ackTimeout <= now }

  lemma {:induction false} SweptPending(cfg: Config, s: State, entries: seq<Pending>, now: int, p: Pending)
    requires Inv(cfg, s) && Increasing(entries) && forall e :: e in entries ==> e in s.pending
    ensures forall e :: e in entries ==> e.player < |s.players|
    ensures p in ReapAll(cfg, s, entries, now).pending <==> p in s.pending && !(p in entries && Late(cfg, p, now))
    decreases |entries|
  {
    ReapAllInv(cfg, s, entries, now);
    if entries != [] {
      var e, t := entries[0], ReapOne(cfg, s, entries[0], now);
      assert entries == [e] + entries[1..];
      ReapOneInv(cfg, s, e, now);
      RestPending(cfg, s, entries, now);
      OneSwept(cfg, s, e, now, p);
      hide Inv, ReapOne, Increasing, Late;
      SweptPending(cfg, t, entries[1..], now, p);
    }
  }

  lemma {:induction false} OneSwept(cfg: Config, s: State, entry: Pending, now: int, p: Pending)
    requires Inv(cfg, s) && entry in s.pending && entry.player < |s.players|
    ensures p in ReapOne(cfg, s, entry, now).pending <==> p in s.pending && !(p == entry && Late(cfg, p, now))
  {
    WithoutMembers(s.pending, entry.id);
    if p in s.pending && p.id == entry.id {
      SameId(s.pending, p, entry);
    }
    hide Without;
  }

  /** The retries a sweep sets timers for: of the late commands those whose player is connected, spawned and
      present and that have an attempt left, one each, in the order of sending. */
  function Retries(cfg: Config, s: State, entries: seq<Pending>, now: int): seq<Timer>
    requires forall e :: e in entries ==> e.player < |s.players|
  {
    if entries == [] then []
    else
      var e := entries[0];
      var p := s.players[e.player];
      (if Late(cfg, e, now) && p.registered && p.spawned && e.player in s.entities && e.attempt + 1 < cfg.maxAttempts
       then [Flush(e.player, e.attempt + 1)] else [])
      + Retries(cfg, s, entries[1..], now)
  }

  /** The two states agree on who is connected, spawned and present. */
  ghost predicate SamePresence(s: State, t: State) {
    && |s.players| == |t.players| && s.entities == t.entities
    && forall i :: 0 <= i < |s.players| ==>
         s.players[i].registered == t.players[i].registered && s.players[i].spawned == t.players[i].spawned
  }

  lemma {:induction false} RetriesSame(cfg: Config, s: State, t: State, entries: seq<Pending>, now: int)
    requires SamePresence(s, t) && forall e :: e in entries ==> e.player < |s.players|
    ensures Retries(cfg, s, entries, now) == Retries(cfg, t, entries, now)
  {
    if entries != [] {
      RetriesSame(cfg, s, t, entries[1..], now);
    }
  }

  lemma {:induction false} OneRetried(cfg: Config, s: State, e: Pending, now: int)
    requires e.player < |s.players|
    ensures SamePresence(s, ReapOne(cfg, s, e, now))
    ensures ReapOne(cfg, s, e, now).timers == s.timers + Retries(cfg, s, [e], now)
  {
    assert Retries(cfg, s, [e][1..], now) == [];
  }

  lemma {:induction false} SweptTimers(cfg: Config, s: State, entries: seq<Pending>, now: int)
    requires forall e :: e in entries ==> e.player < |s.players|
    ensures ReapAll(cfg, s, entries, now).timers == s.timers + Retries(cfg, s, entries, now)
    decreases |entries|
  {
    if entries != [] {
      var e, t := entries[0], ReapOne(cfg, s, entries[0], now);
      hide ReapOne, SamePresence, Retries;
      OneRetried(cfg, s, e, now);
      PresenceSizes(s, t);
      RetriesSplit(cfg, s, entries, now);
      RetriesSame(cfg, s, t, entries[1..], now);
      SweptTimers(cfg, t, entries[1..], now);
      Regroup(s.timers, Retries(cfg, s, [e], now), Retries(cfg, s, entries[1..], now));
    } else {
      hide SamePresence;
    }
  }

  lemma {:induction false} RetriesSplit(cfg: Config, s: State, entries: seq<Pending>, now: int)
    requires entries != [] && forall e :: e in entries ==> e.player < |s.players|
    ensures Retries(cfg, s, entries, now) == Retries(cfg, s, [entries[0]], now) + Retries(cfg, s, entries[1..], now)
  {
    assert Retries(cfg, s, [entries[0]][1..], now) == [];
  }

  lemma {:induction false} Regroup<T>(a: seq<T>, b: seq<T>, c: seq<T>)
    ensures (a + b) + c == a + (b + c)
  {}

  lemma {:induction false} PresenceSizes(s: State, t: State)
    requires SamePresence(s, t)
    ensures |t.players| == |s.players|
  {}

  /** A sweep takes exactly the late commands off the pending map, and retries exactly those of them whose
      player can send and that have an attempt left. */
  lemma {:induction false} SweepTakesLate(cfg: Config, s: State, now: int)
    requires Inv(cfg, s)
    ensures WellFormed(s) && Enabled(s, Reap(now))
    ensures forall p :: p in Step(cfg, s, Reap(now)).pending <==> p in s.pending && now - p.sentAt < cfg.ackTimeout
    ensures Step(cfg, s, Reap(now)).timers == s.timers + Retries(cfg, s, s.pending, now)
  {
    InvWellFormed(cfg, s);
    forall p ensures p in Step(cfg, s, Reap(now)).pending <==> p in s.pending && now - p.sentAt < cfg.ackTimeout {
      SweptPending(cfg, s, s.pending, now, p);
    }
    SweptTimers(cfg, s, s.pending, now);
    hide ReapAll, Inv, Retries;
  }

  // ---------------------------------------------------------------- who is there

  /** Only a disconnect takes a player off the table, only its spawning makes it spawned, only the broker's
      announcements bring and take entities, and only a connection adds a player, who has sent nothing. */
  ghost predicate PresenceMoves(s: State, t: State, e: Event) {
    && |t.players| == |s.players| + (if e == Connect then 1 else 0)
    && (e == Connect ==> t.players[|s.players|] == Player(true, false, None, None, None))
    && (forall i :: 0 <= i < |s.players| ==>
          && (t.players[i].registered <==> s.players[i].registered && e != Disconnect(i))
          && (t.players[i].spawned <==> s.players[i].spawned || e == Spawned(i)))
    && (forall x :: x in t.entities <==> if x in s.entities then e != EntityRemoved(x) else e == EntityAdded(x))
  }

  lemma {:induction false} SamePresenceMoves(s: State, t: State, e: Event)
    requires SamePresence(s, t) && (e.Input? || e.Responded? || e.Reap? || e.OwnerChanged? || e.Fire?)
    ensures PresenceMoves(s, t, e)
  {}

  lemma {:induction false} SweepPresence(cfg: Config, s: State, entries: seq<Pending>, now: int)
    requires forall e :: e in entries ==> e.player < |s.players|
    ensures SamePresence(s, ReapAll(cfg, s, entries, now))
    decreases |entries|
  {
    if entries != [] {
      OneRetried(cfg, s, entries[0], now);
      SweepPresence(cfg, ReapOne(cfg, s, entries[0], now), entries[1..], now);
      hide ReapOne, ReapAll, Retries;
    }
  }

  lemma {:induction false} SendPresence(s: State, i: nat, target: Target, attempt: nat, now: int)
    requires i < |s.players|
    ensures SamePresence(s, SendTarget(s, i, target, attempt, now))
    ensures SamePresence(s, FlushQueued(s, i, attempt, now))
  {}

  lemma {:induction false} FirePresence(s: State, k: nat, now: int)
    requires k < |s.timers| && s.timers[k].player < |s.players|
    ensures SamePresence(s, FireTimer(s, k, now))
  {
    hide SendTarget, FlushQueued;
    var t := s.(timers := s.timers[..k] + s.timers[k + 1..]);
    match s.timers[k] {
      case Flush(i, attempt) => SendPresence(t, i, Target(0.0, 0.0), attempt, now);
      case Send(i, target) => SendPresence(t, i, target, 0, now);
    }
  }

  lemma {:induction false} ResponsePresence(s: State, id: int, success: bool, retryReason: bool)
    requires WellFormed(s)
    ensures SamePresence(s, Response(s, id, success, retryReason))
  {
    hide Lookup, Without, RejectRetryable, Ids, Overflow;
  }

  lemma {:induction false} OwnerPresence(s: State, entity: int, before: string, after: string, fallback: Target)
    ensures SamePresence(s, OwnerChange(s, entity, before, after, fallback))
  {}

  lemma {:induction false} TablePresence(cfg: Config, s: State, e: Event)
    requires WellFormed(s) && Enabled(s, e)
    requires e.Connect? || e.Spawned? || e.Disconnect? || e.EntityAdded? || e.EntityRemoved?
    ensures PresenceMoves(s, Step(cfg, s, e), e)
  {
    hide WellFormed;
  }

  /** Who is connected, spawned and present changes with these events alone. */
  lemma {:induction false} PresenceFollows(cfg: Config, s: State, e: Event)
    requires WellFormed(s) && Enabled(s, e)
    ensures PresenceMoves(s, Step(cfg, s, e), e)
  {
    hide SendTarget, FireTimer, ReapAll, Response, OwnerChange, PresenceMoves, SamePresence;
    match e
    case Input(i, target, now) =>
      SendPresence(s, i, target, 0, now);
      SamePresenceMoves(s, Step(cfg, s, e), e);
    case Responded(id, success, retryReason) =>
      ResponsePresence(s, id, success, retryReason);
      SamePresenceMoves(s, Step(cfg, s, e), e);
    case Reap(now) =>
      SweepPresence(cfg, s, s.pending, now);
      SamePresenceMoves(s, Step(cfg, s, e), e);
    case OwnerChanged(x, before, after, fallback) =>
      OwnerPresence(s, x, before, after, fallback);
      SamePresenceMoves(s, Step(cfg, s, e), e);
    case Fire(k, now) =>
      assert s.timers[k] in s.timers;
      FirePresence(s, k, now);
      SamePresenceMoves(s, Step(cfg, s, e), e);
    case _ => TablePresence(cfg, s, e);
  }

  // ---------------------------------------------------------------- what is counted

  predicate IsResponse(e: Event) { e.Responded? }

  predicate IsReject(e: Event) { e.Responded? && !e.success }

  function Responses(es: seq<Event>): nat {
    if es == [] then 0 else (if IsResponse(es[0]) then 1 else 0) + Responses(es[1..])
  }

  function Rejects(es: seq<Event>): nat {
    if es == [] then 0 else (if IsReject(es[0]) then 1 else 0) + Rejects(es[1..])
  }

  /** Every command that timed out was counted once, as retried or as given up. */
  ghost predicate TimeoutsBooked(s: State) { s.counters.timeouts + s.counters.timeoutRetries == |s.timedOut| }

  /** One step's entries in the books. */
  ghost predicate Booked(s: State, t: State, e: Event) {
    && TimeoutsBooked(t)
    && t.counters.responses == s.counters.responses + (if IsResponse(e) then 1 else 0)
    && t.counters.rejects + t.counters.transientRejects
         == s.counters.rejects + s.counters.transientRejects + (if IsReject(e) then 1 else 0)
  }

  lemma {:induction false} NotYetTimedOut(cfg: Config, s: State, entry: Pending)
    requires Inv(cfg, s) && entry in s.pending
    ensures entry.id !in s.timedOut
  {
    assert entry.id in Ids(s.pending);
    hide Tables, Ids;
  }

  lemma {:induction false} OneBooked(cfg: Config, s: State, entry: Pending, now: int)
    requires Inv(cfg, s) && TimeoutsBooked(s) && entry in s.pending && entry.player < |s.players|
    ensures var t := ReapOne(cfg, s, entry, now);
      && TimeoutsBooked(t) && t.counters.responses == s.counters.responses && t.counters.rejects == s.counters.rejects
      && t.counters.transientRejects == s.counters.transientRejects
  {
    hide Inv, Without, Release;
    NotYetTimedOut(cfg, s, entry);
  }

  lemma {:induction false} SweepBooked(cfg: Config, s: State, entries: seq<Pending>, now: int)
    requires Inv(cfg, s) && TimeoutsBooked(s) && Increasing(entries) && forall e :: e in entries ==> e in s.pending
    ensures forall e :: e in entries ==> e.player < |s.players|
    ensures var t := ReapAll(cfg, s, entries, now);
      && TimeoutsBooked(t) && t.counters.responses == s.counters.responses && t.counters.rejects == s.counters.rejects
      && t.counters.transientRejects == s.counters.transientRejects
    decreases |entries|
  {
    ReapAllInv(cfg, s, entries, now);
    if entries != [] {
      ReapOneInv(cfg, s, entries[0], now);
      RestPending(cfg, s, entries, now);
      OneBooked(cfg, s, entries[0], now);
      hide Inv, ReapOne, Increasing, TimeoutsBooked;
      SweepBooked(cfg, ReapOne(cfg, s, entries[0], now), entries[1..], now);
    }
  }

  lemma {:induction false} ResponseBooked(cfg: Config, s: State, id: int, success: bool, retryReason: bool)
    requires WellFormed(s) && TimeoutsBooked(s)
    ensures Booked(s, Response(s, id, success, retryReason), Responded(id, success, retryReason))
  {
    hide Lookup, Without, Release, RejectRetryable, Ids, Overflow;
  }

  lemma {:induction false} SendBooks(s: State, i: nat, target: Target, attempt: nat, now: int)
    requires i < |s.players|
    ensures SendTarget(s, i, target, attempt, now).counters == s.counters
    ensures SendTarget(s, i, target, attempt, now).timedOut == s.timedOut
    ensures FlushQueued(s, i, attempt, now).counters == s.counters
    ensures FlushQueued(s, i, attempt, now).timedOut == s.timedOut
  {}

  lemma {:induction false} FireBooked(s: State, k: nat, now: int)
    requires TimeoutsBooked(s) && k < |s.timers| && s.timers[k].player < |s.players|
    ensures Booked(s, FireTimer(s, k, now), Fire(k, now))
  {
    hide SendTarget, FlushQueued;
    var t := s.(timers := s.timers[..k] + s.timers[k + 1..]);
    match s.timers[k] {
      case Flush(i, attempt) => SendBooks(t, i, Target(0.0, 0.0), attempt, now);
      case Send(i, target) => SendBooks(t, i, target, 0, now);
    }
  }

  lemma {:induction false} InputBooked(s: State, i: nat, target: Target, now: int)
    requires TimeoutsBooked(s) && i < |s.players|
    ensures Booked(s, SendTarget(s, i, target, 0, now), Input(i, target, now))
  {
    hide SendTarget, FlushQueued;
    SendBooks(s, i, target, 0, now);
  }

  lemma {:induction false} SweepIsBooked(cfg: Config, s: State, now: int)
    requires Inv(cfg, s) && TimeoutsBooked(s)
    ensures WellFormed(s) && Booked(s, ReapAll(cfg, s, s.pending, now), Reap(now))
  {
    hide Inv, ReapAll, TimeoutsBooked, Increasing;
    InvWellFormed(cfg, s);
    InvIncreasing(cfg, s);
    SweepBooked(cfg, s, s.pending, now);
  }

  lemma {:induction false} QuietBooked(cfg: Config, s: State, e: Event)
    requires WellFormed(s) && TimeoutsBooked(s) && Enabled(s, e)
    requires !e.Input? && !e.Responded? && !e.Reap? && !e.Fire?
    ensures Booked(s, Step(cfg, s, e), e)
  {
    hide WellFormed, OwnerMoved;
  }

  lemma {:induction false} StepBooked(cfg: Config, s: State, e: Event)
    requires Inv(cfg, s) && TimeoutsBooked(s) && Enabled(s, e)
    ensures WellFormed(s) && Booked(s, Step(cfg, s, e), e)
  {
    hide Inv, SendTarget, FireTimer, ReapAll, Response, OwnerChange, Booked, TimeoutsBooked;
    InvWellFormed(cfg, s);
    match e
    case Input(i, target, now) => InputBooked(s, i, target, now);
    case Responded(id, success, retryReason) => ResponseBooked(cfg, s, id, success, retryReason);
    case Reap(now) => SweepIsBooked(cfg, s, now);
    case Fire(k, now) =>
      assert s.timers[k] in s.timers;
      FireBooked(s, k, now);
    case _ => QuietBooked(cfg, s, e);
  }

  lemma {:induction false} RunBooked(cfg: Config, s: State, es: seq<Event>)
    requires Inv(cfg, s) && TimeoutsBooked(s)
    ensures var t := Run(cfg, s, es);
      && TimeoutsBooked(t) && t.counters.responses == s.counters.responses + Responses(es)
      && t.counters.rejects + t.counters.transientRejects
           == s.counters.rejects + s.counters.transientRejects + Rejects(es)
    decreases |es|
  {
    if es != [] {
      NextIs(cfg, s, es[0]);
      hide Inv, Next, Step, TimeoutsBooked;
      if Enabled(s, es[0]) {
        StepBooked(cfg, s, es[0]);
      }
      RunBooked(cfg, Next(cfg, s, es[0]), es[1..]);
    }
  }

  lemma {:induction false} InitBooked()
    ensures TimeoutsBooked(INIT) && INIT.counters == Counters(0, 0, 0, 0, 0, 0)
  {}

  lemma {:induction false} BookedTimeouts(s: State)
    requires TimeoutsBooked(s)
    ensures s.counters.timeouts + s.counters.timeoutRetries == |s.timedOut|
  {}

  /** In every run the server has counted every response once, every reject once, as transient or as final,
      and every command that timed out once, as retried or as given up. */
  lemma {:induction false} CountersAddUp(cfg: Config, es: seq<Event>)
    ensures var t := Reached(cfg, es);
      && t.counters.responses == Responses(es)
      && t.counters.rejects + t.counters.transientRejects == Rejects(es)
      && t.counters.timeouts + t.counters.timeoutRetries == |t.timedOut|
  {
    hide Inv, Run, Responses, Rejects, TimeoutsBooked, INIT;
    InitInv(cfg);
    InitBooked();
    RunBooked(cfg, INIT, es);
    BookedTimeouts(Reached(cfg, es));
  }
}
