/** Runs from the initial state in which the command protocol does less than one might expect. */
module CommandWitnesses {
  import opened Wrappers
  import opened Commands
  import opened CommandInvariants
  import opened CommandTheorems
  import opened CommandQueue

  const NO_COUNTS := Counters(0, 0, 0, 0, 0, 0)

  lemma {:induction false} RunSnoc(cfg: Config, s: State, es: seq<Event>, e: Event)
    requires Inv(cfg, s)
    ensures Run(cfg, s, es + [e]) == Next(cfg, Run(cfg, s, es), e)
    decreases |es|
  {
    hide Inv, Next;
    if es == [] {
      assert [] + [e] == [e] && [e][1..] == [];
    } else {
      assert (es + [e])[0] == es[0] && (es + [e])[1..] == es[1..] + [e];
      RunSnoc(cfg, Next(cfg, s, es[0]), es[1..], e);
    }
  }

  /** The run led to the state. */
  ghost predicate Leads(cfg: Config, es: seq<Event>, s: State) { Reached(cfg, es) == s }

  lemma {:induction false} Then(cfg: Config, es: seq<Event>, s: State, e: Event, t: State)
    requires Leads(cfg, es, s) && WellFormed(s) && Enabled(s, e) && Step(cfg, s, e) == t
    ensures Leads(cfg, es + [e], t)
  {
    hide Run, Step, Enabled, WellFormed, Inv;
    InitInv(cfg);
    RunSnoc(cfg, INIT, es, e);
  }

  lemma {:induction false} ThenResponded(cfg: Config, es: seq<Event>, s: State, id: int, success: bool,
                                         retryReason: bool)
    requires Leads(cfg, es, s) && WellFormed(s)
    ensures Leads(cfg, es + [Responded(id, success, retryReason)], Response(s, id, success, retryReason))
  {
    hide Leads, Response;
    Then(cfg, es, s, Responded(id, success, retryReason), Response(s, id, success, retryReason));
  }

  // ---------------------------------------------------------------- one player

  /** A player connects, its entity appears, and it moves once. */
  function Moved(target: Target): seq<Event> {
    [] + [Connect] + [Spawned(0)] + [EntityAdded(0)] + [Input(0, target, 0)]
  }

  function One(p: Player, pending: seq<Pending>, n: nat): State {
    State([p], pending, [], {0}, n, NO_COUNTS, {}, {}, {})
  }

  lemma {:induction false} MovedLeads(cfg: Config, a: Target)
    ensures Leads(cfg, Moved(a), One(Player(true, true, Some(0), None, Some(a)), [Pending(0, 0, a, 0, 0)], 1))
  {
    var joined := Player(true, false, None, None, None);
    var s1 := State([joined], [], [], {}, 0, NO_COUNTS, {}, {}, {});
    var s2 := s1.(players := [joined.(spawned := true)]);
    assert Leads(cfg, [], INIT);
    Then(cfg, [], INIT, Connect, s1);
    Then(cfg, [] + [Connect], s1, Spawned(0), s2);
    Then(cfg, [] + [Connect] + [Spawned(0)], s2, EntityAdded(0), s2.(entities := {0}));
    Then(cfg, [] + [Connect] + [Spawned(0)] + [EntityAdded(0)], s2.(entities := {0}), Input(0, a, 0),
         One(Player(true, true, Some(0), None, Some(a)), [Pending(0, 0, a, 0, 0)], 1));
  }

  /** It moves again while the first command is in flight. */
  function MovedTwice(a: Target, q: Target): seq<Event> { Moved(a) + [Input(0, q, 0)] }

  lemma {:induction false} MovedTwiceLeads(cfg: Config, a: Target, q: Target)
    ensures Leads(cfg, MovedTwice(a, q),
                  One(Player(true, true, Some(0), Some(q), Some(q)), [Pending(0, 0, a, 0, 0)], 1))
  {
    MovedLeads(cfg, a);
    hide Moved;
    Then(cfg, Moved(a), One(Player(true, true, Some(0), None, Some(a)), [Pending(0, 0, a, 0, 0)], 1), Input(0, q, 0),
         One(Player(true, true, Some(0), Some(q), Some(q)), [Pending(0, 0, a, 0, 0)], 1));
  }

  /** A retryable reject puts the older target back in place of the newer one. */
  lemma {:induction false} RejectOverwritesExample(cfg: Config, a: Target, q: Target)
    ensures var s := Reached(cfg, MovedTwice(a, q) + [Responded(0, false, true)]);
            |s.players| == 1 && s.players[0].queued == Some(a) && s.players[0].lastWorld == Some(q)
  {
    MovedTwiceLeads(cfg, a, q);
    hide MovedTwice;
    var s := One(Player(true, true, Some(0), Some(q), Some(q)), [Pending(0, 0, a, 0, 0)], 1);
    Then(cfg, MovedTwice(a, q), s, Responded(0, false, true), Response(s, 0, false, true));
  }

  /** A final reject leaves the newer target with nothing to send it. */
  lemma {:induction false} FinalRejectExample(cfg: Config, a: Target, q: Target)
    ensures Stranded(Reached(cfg, MovedTwice(a, q) + [Responded(0, false, false)]), 0, q)
  {
    MovedTwiceLeads(cfg, a, q);
    hide MovedTwice;
    var s := One(Player(true, true, Some(0), Some(q), Some(q)), [Pending(0, 0, a, 0, 0)], 1);
    Then(cfg, MovedTwice(a, q), s, Responded(0, false, false), Response(s, 0, false, false));
  }

  /** The stranded target outlives a later move: it is sent after the command of that move. */
  lemma {:induction false} StrandedTargetSentLateExample(cfg: Config, a: Target, q: Target, c: Target)
    ensures
      var es := MovedTwice(a, q) + [Responded(0, false, false)] + [Input(0, c, 0)];
      var s, t := Reached(cfg, es), Reached(cfg, es + [Responded(1, true, false)] + [Fire(0, 1)]);
      s.pending == [Pending(1, 0, c, 0, 0)] && t.pending == [Pending(2, 0, q, 0, 1)]
  {
    MovedTwiceLeads(cfg, a, q);
    hide MovedTwice;
    var s := One(Player(true, true, Some(0), Some(q), Some(q)), [Pending(0, 0, a, 0, 0)], 1);
    var es0 := MovedTwice(a, q) + [Responded(0, false, false)];
    var s0 := s.(players := [Player(true, true, None, Some(q), Some(q))], pending := [],
                 counters := NO_COUNTS.(responses := 1, rejects := 1), answered := {0});
    Then(cfg, MovedTwice(a, q), s, Responded(0, false, false), s0);
    var s1 := s0.(players := [Player(true, true, Some(1), Some(q), Some(c))], pending := [Pending(1, 0, c, 0, 0)],
                  requestSeq := 2);
    Then(cfg, es0, s0, Input(0, c, 0), s1);
    var t := LateSend(cfg, es0 + [Input(0, c, 0)], s1, q, c);
    hide Run;
  }

  lemma {:induction false} LateSend(cfg: Config, es: seq<Event>, s: State, q: Target, c: Target)
    returns (u: State)
    requires Leads(cfg, es, s) && WellFormed(s)
    requires s.players == [Player(true, true, Some(1), Some(q), Some(c))] && s.pending == [Pending(1, 0, c, 0, 0)]
    requires s.requestSeq == 2 && s.entities == {0} && s.timers == []
    ensures Leads(cfg, es + [Responded(1, true, false)] + [Fire(0, 1)], u) && u.pending == [Pending(2, 0, q, 0, 1)]
  {
    hide Leads;
    var t := s.(players := [Player(true, true, None, Some(q), Some(c))], pending := [], timers := [Flush(0, 0)],
                counters := s.counters.(responses := s.counters.responses + 1), answered := s.answered + {1});
    Then(cfg, es, s, Responded(1, true, false), t);
    u := t.(players := [Player(true, true, Some(2), None, Some(q))], pending := [Pending(2, 0, q, 0, 1)],
            timers := [], requestSeq := 3);
    Then(cfg, es + [Responded(1, true, false)], t, Fire(0, 1), u);
  }

  /** The command succeeds, the entity is gone when the queued target is to be sent: it is lost. */
  lemma {:induction false} MissingEntityDropsExample(cfg: Config, a: Target, q: Target)
    ensures var s := Reached(cfg, MovedTwice(a, q) + [Responded(0, true, false)] + [EntityRemoved(0)] + [Fire(0, 1)]);
            |s.players| == 1 && s.players[0].queued == None && s.pending == [] && s.timers == [] && s.requestSeq == 1
  {
    MovedTwiceLeads(cfg, a, q);
    hide MovedTwice;
    var s := One(Player(true, true, Some(0), Some(q), Some(q)), [Pending(0, 0, a, 0, 0)], 1);
    var t := s.(players := [s.players[0].(inFlight := None)], pending := [], timers := [Flush(0, 0)],
                counters := NO_COUNTS.(responses := 1), answered := {0});
    Then(cfg, MovedTwice(a, q), s, Responded(0, true, false), t);
    Then(cfg, MovedTwice(a, q) + [Responded(0, true, false)], t, EntityRemoved(0), t.(entities := {}));
    Then(cfg, MovedTwice(a, q) + [Responded(0, true, false)] + [EntityRemoved(0)], t.(entities := {}), Fire(0, 1),
         t.(entities := {}, timers := [], players := [t.players[0].(queued := None)]));
  }

  /** An owner change sets a timer with the target of that moment. */
  function OwnerChangedRun(a: Target, fallback: Target): seq<Event> {
    Moved(a) + [Responded(0, true, false)] + [OwnerChanged(0, "A", "B", fallback)]
  }

  function AfterOwnerChange(a: Target): State {
    State([Player(true, true, None, None, Some(a))], [], [Send(0, a)], {0}, 1,
          NO_COUNTS.(responses := 1, ownerResends := 1), {0}, {}, {})
  }

  lemma {:induction false} OwnerChangedLeads(cfg: Config, a: Target, fallback: Target)
    ensures Leads(cfg, OwnerChangedRun(a, fallback), AfterOwnerChange(a))
  {
    MovedLeads(cfg, a);
    hide Moved, Leads;
    var s := One(Player(true, true, Some(0), None, Some(a)), [Pending(0, 0, a, 0, 0)], 1);
    var t := s.(players := [s.players[0].(inFlight := None)], pending := [],
                counters := NO_COUNTS.(responses := 1), answered := {0});
    Then(cfg, Moved(a), s, Responded(0, true, false), t);
    Then(cfg, Moved(a) + [Responded(0, true, false)], t, OwnerChanged(0, "A", "B", fallback), AfterOwnerChange(a));
  }

  /** The player moves twice before that timer fires: the newer of its targets is replaced by the old one. */
  lemma {:induction false} OwnerChangeOverwritesExample(cfg: Config, a: Target, b: Target, c: Target, fallback: Target)
    ensures
      var s := Reached(cfg, OwnerChangedRun(a, fallback) + [Input(0, b, 0)] + [Input(0, c, 0)] + [Fire(0, 0)]);
      |s.players| == 1 && s.players[0].queued == Some(a) && s.players[0].inFlight == Some(1)
  {
    OwnerChangedLeads(cfg, a, fallback);
    hide OwnerChangedRun;
    var es, s := OwnerChangedRun(a, fallback), AfterOwnerChange(a);
    var t := s.(players := [Player(true, true, Some(1), None, Some(b))], pending := [Pending(1, 0, b, 0, 0)],
                requestSeq := 2);
    var u := t.(players := [Player(true, true, Some(1), Some(c), Some(c))]);
    Then(cfg, es, s, Input(0, b, 0), t);
    Then(cfg, es + [Input(0, b, 0)], t, Input(0, c, 0), u);
    Then(cfg, es + [Input(0, b, 0)] + [Input(0, c, 0)], u, Fire(0, 0),
         u.(players := [Player(true, true, Some(1), Some(a), Some(a))], timers := []));
  }

  // ---------------------------------------------------------------- timeouts to the end

  /** After n timeouts, each followed by the retry and a further move of the player. */
  function TimedOut(cfg: Config, a: Target, q: Target, n: nat): seq<Event> {
    if n == 0 then MovedTwice(a, q)
    else TimedOut(cfg, a, q, n - 1) + [Reap(cfg.ackTimeout)] + [Fire(0, 0)] + [Input(0, q, 0)]
  }

  function AfterTimeouts(a: Target, q: Target, n: nat): State {
    State([Player(true, true, Some(n), Some(q), Some(q))], [Pending(n, 0, if n == 0 then a else q, n, 0)], [], {0},
          n + 1, NO_COUNTS.(timeoutRetries := n), {}, Issued(n), {})
  }

  lemma {:induction false} TimedOutLeads(cfg: Config, a: Target, q: Target, n: nat)
    requires n < cfg.maxAttempts || n == 0
    ensures Leads(cfg, TimedOut(cfg, a, q, n), AfterTimeouts(a, q, n))
  {
    if n == 0 {
      hide MovedTwice;
      MovedTwiceLeads(cfg, a, q);
    } else {
      hide Leads, AfterTimeouts;
      TimedOutLeads(cfg, a, q, n - 1);
      OneMoreTimeout(cfg, TimedOut(cfg, a, q, n - 1), a, q, n - 1);
    }
  }

  /** The sweep retries the command, the timer sends the queued target, the player moves again. */
  lemma {:induction false} OneMoreTimeout(cfg: Config, es: seq<Event>, a: Target, q: Target, n: nat)
    requires n + 1 < cfg.maxAttempts && Leads(cfg, es, AfterTimeouts(a, q, n))
    ensures Leads(cfg, es + [Reap(cfg.ackTimeout)] + [Fire(0, 0)] + [Input(0, q, 0)], AfterTimeouts(a, q, n + 1))
  {
    hide Leads;
    var s := AfterTimeouts(a, q, n);
    var t := s.(players := [Player(true, true, None, Some(q), Some(q))], pending := [], timers := [Flush(0, n + 1)],
                counters := NO_COUNTS.(timeoutRetries := n + 1), timedOut := Issued(n + 1));
    SweepStep(cfg, s, n, q);
    Then(cfg, es, s, Reap(cfg.ackTimeout), t);
    var u := t.(players := [Player(true, true, Some(n + 1), None, Some(q))], timers := [],
                pending := [Pending(n + 1, 0, q, n + 1, 0)], requestSeq := n + 2);
    Then(cfg, es + [Reap(cfg.ackTimeout)], t, Fire(0, 0), u);
    Then(cfg, es + [Reap(cfg.ackTimeout)] + [Fire(0, 0)], u, Input(0, q, 0), AfterTimeouts(a, q, n + 1));
  }

  /** A sweep of a single entry. */
  lemma {:induction false} SweepStep(cfg: Config, s: State, n: nat, q: Target)
    requires |s.pending| == 1 && s.pending[0].player < |s.players|
    ensures ReapAll(cfg, s, s.pending, cfg.ackTimeout) == ReapOne(cfg, s, s.pending[0], cfg.ackTimeout)
  {
    assert s.pending[1..] == [];
  }

  /** Whatever the limit on attempts, the last sweep of a run strands the newer target. */
  lemma {:induction false} LastSweepExample(cfg: Config, a: Target, q: Target)
    ensures var n: nat := if cfg.maxAttempts > 0 then cfg.maxAttempts - 1 else 0;
            Stranded(Reached(cfg, TimedOut(cfg, a, q, n) + [Reap(cfg.ackTimeout)]), 0, q)
  {
    var n: nat := if cfg.maxAttempts > 0 then cfg.maxAttempts - 1 else 0;
    TimedOutLeads(cfg, a, q, n);
    var s := AfterTimeouts(a, q, n);
    SweepStep(cfg, s, n, q);
    Then(cfg, TimedOut(cfg, a, q, n), s, Reap(cfg.ackTimeout), ReapOne(cfg, s, s.pending[0], cfg.ackTimeout));
    hide TimedOut;
  }

  // ---------------------------------------------------------------- a crowd

  /** Connection k joins, its entity appears and it moves. */
  function Joins(es: seq<Event>, a: Target, k: nat): seq<Event> {
    es + [Connect] + [Spawned(k)] + [EntityAdded(k)] + [Input(k, a, 0)]
  }

  function Joined(a: Target, n: nat): seq<Event> {
    if n == 0 then [] else Joins(Joined(a, n - 1), a, n - 1)
  }

  function Larger(s: State, a: Target, k: nat): State {
    s.(players := s.players + [Player(true, true, Some(k), None, Some(a))],
       pending := s.pending + [Pending(k, k, a, 0, 0)], entities := s.entities + {k}, requestSeq := k + 1)
  }

  function Crowd(a: Target, n: nat): State {
    if n == 0 then INIT else Larger(Crowd(a, n - 1), a, n - 1)
  }

  /** Everybody has one command in flight, and it is pending. */
  ghost predicate AllInFlight(s: State, a: Target, n: nat) {
    && |s.players| == |s.pending| == s.requestSeq == n && s.timers == [] && s.evicted == {}
    && (forall k :: 0 <= k < n ==> s.players[k] == Player(true, true, Some(k), None, Some(a)))
    && (forall k :: 0 <= k < n ==> s.pending[k] == Pending(k, k, a, 0, 0))
  }

  lemma {:induction false} CrowdShape(a: Target, n: nat)
    ensures AllInFlight(Crowd(a, n), a, n) && WellFormed(Crowd(a, n))
  {
    if n > 0 {
      CrowdShape(a, n - 1);
    }
  }

  lemma {:induction false} JoinedLeads(cfg: Config, a: Target, n: nat)
    ensures Leads(cfg, Joined(a, n), Crowd(a, n))
  {
    hide Leads, Larger, Joins;
    if n == 0 {
      NothingLeads(cfg);
    } else {
      JoinedLeads(cfg, a, n - 1);
      CrowdShape(a, n - 1);
      JoinOne(cfg, Joined(a, n - 1), Crowd(a, n - 1), a, n - 1);
    }
  }

  lemma {:induction false} NothingLeads(cfg: Config)
    ensures Leads(cfg, [], INIT)
  {}

  lemma {:induction false} JoinOne(cfg: Config, es: seq<Event>, s: State, a: Target, k: nat)
    requires Leads(cfg, es, s) && WellFormed(s) && |s.players| == k && s.requestSeq == k
    ensures Leads(cfg, Joins(es, a, k), Larger(s, a, k))
  {
    hide Leads;
    var p := Player(true, false, None, None, None);
    var s1 := s.(players := s.players + [p]);
    var s2 := s.(players := s.players + [p.(spawned := true)]);
    var s3 := s2.(entities := s.entities + {k});
    Then(cfg, es, s, Connect, s1);
    assert s1.players[k := p.(spawned := true)] == s2.players;
    Then(cfg, es + [Connect], s1, Spawned(k), s2);
    Then(cfg, es + [Connect] + [Spawned(k)], s2, EntityAdded(k), s3);
    var t := Larger(s, a, k);
    assert s3.players[k := t.players[k]] == t.players;
    Then(cfg, es + [Connect] + [Spawned(k)] + [EntityAdded(k)], s3, Input(k, a, 0), t);
  }

  /** One connection more than 1024 is enough: any response then evicts the oldest commands,
      and the first player, still connected, is stuck for good. */
  lemma {:induction false} CrowdEvicts(cfg: Config, a: Target, n: nat)
    requires n > 1024
    ensures var s := Reached(cfg, Joined(a, n) + [Responded(-1, true, false)]);
            && |s.players| == n && s.evicted == Issued(n - 1024)
            && s.players[0].registered && s.players[0].inFlight == Some(0) && 0 !in Ids(s.pending)
            && forall es :: |Run(cfg, s, es).players| > 0 && Run(cfg, s, es).players[0].inFlight == Some(0)
  {
    CrowdAnswered(cfg, a, n);
    hide *;
    FirstStuck(cfg, Joined(a, n) + [Responded(-1, true, false)], Response(Crowd(a, n), -1, true, false));
  }

  lemma {:induction false} CrowdAnswered(cfg: Config, a: Target, n: nat)
    requires n > 1024
    ensures WellFormed(Crowd(a, n))
    ensures var t := Response(Crowd(a, n), -1, true, false);
            && Leads(cfg, Joined(a, n) + [Responded(-1, true, false)], t)
            && |t.players| == n && t.evicted == Issued(n - 1024)
            && t.players[0].registered && t.players[0].inFlight == Some(0) && 0 !in Ids(t.pending)
  {
    hide *;
    JoinedLeads(cfg, a, n);
    CrowdShape(a, n);
    CrowdResponse(Crowd(a, n), n, a);
    ThenResponded(cfg, Joined(a, n), Crowd(a, n), -1, true, false);
  }

  lemma {:induction false} FirstStuck(cfg: Config, es: seq<Event>, s: State)
    requires Leads(cfg, es, s) && |s.players| > 0 && s.players[0].registered && s.players[0].inFlight == Some(0)
    requires 0 !in Ids(s.pending)
    ensures Reached(cfg, es) == s && Inv(cfg, s)
    ensures forall fs :: |Run(cfg, s, fs).players| > 0 && Run(cfg, s, fs).players[0].inFlight == Some(0)
  {
    hide Inv, Run;
    StuckIffNotPending(cfg, s, 0);
  }

  lemma {:induction false} CrowdResponse(s: State, n: nat, a: Target)
    requires n > 1024 && WellFormed(s) && AllInFlight(s, a, n)
    ensures var t := Response(s, -1, true, false);
            && |t.players| == n && t.players[0].registered && t.players[0].inFlight == Some(0)
            && t.evicted == Issued(n - 1024) && 0 !in Ids(t.pending)
  {
    CrowdEvicted(s, n - 1024, a);
    hide Lookup, Ids, WellFormed;
  }

  lemma {:induction false} CrowdEvicted(s: State, k: nat, a: Target)
    requires k <= |s.pending| && forall j :: 0 <= j < |s.pending| ==> s.pending[j] == Pending(j, j, a, 0, 0)
    ensures Ids(s.pending[..k]) == Issued(k) && (forall x :: x in Ids(s.pending[k..]) ==> x >= k)
    ensures Lookup(s.pending, -1).None?
  {
    forall x | x in Issued(k) ensures x in Ids(s.pending[..k]) {
      assert s.pending[..k][x] in s.pending[..k];
    }
  }
}
