/** Safety of the command protocol over whole runs, and where the obvious claims stop holding. */
module CommandTheorems {
  import opened Wrappers
  import opened Commands
  import opened CommandInvariants

  // ---------------------------------------------------------------- one command at a time

  /** In every reachable state a player has at most one pending command, every pending command is
      the one its player has in flight, and a connected player whose in-flight command was not
      evicted has exactly that command pending. */
  lemma {:induction false} InFlightIsPending(cfg: Config, es: seq<Event>, i: nat)
    requires i < |Reached(cfg, es).players|
    ensures var s := Reached(cfg, es);
            && (forall p, q :: p in s.pending && q in s.pending && p.player == q.player ==> p == q)
            && (forall p :: p in s.pending && p.player == i ==> s.players[i].inFlight == Some(p.id))
            && (s.players[i].registered && s.players[i].inFlight.Some? && s.players[i].inFlight.value !in s.evicted ==>
                  exists p :: p in s.pending && p.player == i && p.id == s.players[i].inFlight.value)
  {
    hide Run;
    var s := Reached(cfg, es);
    forall p, q | p in s.pending && q in s.pending && p.player == q.player
      ensures p == q
    {
      SameId(s.pending, p, q);
    }
    if s.players[i].registered && s.players[i].inFlight.Some? && s.players[i].inFlight.value !in s.evicted {
      var x := s.players[i].inFlight.value;
      assert x in Ids(s.pending);
      var p :| p in s.pending && p.id == x;
      assert p.player == i;
    }
  }

  /** Every issued id is pending, answered, timed out or evicted, and only one of these. */
  lemma {:induction false} EveryIdAccounted(cfg: Config, es: seq<Event>, id: int)
    ensures var s := Reached(cfg, es);
            && (0 <= id < s.requestSeq <==>
                  id in Ids(s.pending) || id in s.answered || id in s.timedOut || id in s.evicted)
            && !(id in Ids(s.pending) && id in s.answered + s.timedOut + s.evicted)
            && !(id in s.answered && id in s.timedOut + s.evicted) && !(id in s.timedOut && id in s.evicted)
  {
    hide Run;
    var s := Reached(cfg, es);
    var all := s.answered + s.timedOut + s.evicted + Ids(s.pending);
    assert id in all <==> id in Issued(s.requestSeq);
  }

  /** A response clears the in-flight mark of the connected player that sent this very command, and
      no other: late and duplicate responses leave newer commands alone. */
  lemma {:induction false} LateResponseHarmless(cfg: Config, s: State, id: int, success: bool, retryReason: bool,
                                                i: nat)
    requires Inv(cfg, s) && i < |s.players|
    ensures WellFormed(s)
    ensures var before, after := s.players[i].inFlight, Response(s, id, success, retryReason).players[i].inFlight;
            after == if before == Some(id) && s.players[i].registered && id in Ids(s.pending) then None else before
  {
    var found := Lookup(s.pending, id);
    if found.Some? {
      IdsIn(s.pending, found.value);
    } else {
      assert id !in Ids(s.pending);
    }
  }

  // ---------------------------------------------------------------- eviction

  lemma {:induction false} PlayersOfPending(ps: seq<Pending>, players: set<int>)
    requires forall p :: p in ps ==> p.player in players
    requires forall i, j :: 0 <= i < j < |ps| ==> ps[i].player != ps[j].player
    ensures |ps| <= |players|
    decreases |ps|
  {
    if ps != [] {
      assert forall i, j :: 0 <= i < j < |ps[1..]| ==> ps[1..][i] == ps[i + 1] && ps[1..][j] == ps[j + 1];
      forall p | p in ps[1..]
        ensures p.player in players - {ps[0].player}
      {
        var k :| 0 <= k < |ps[1..]| && ps[1..][k] == p;
        assert ps[0].player != ps[k + 1].player;
      }
      PlayersOfPending(ps[1..], players - {ps[0].player});
    }
  }

  lemma {:induction false} IssuedSize(n: nat)
    ensures |Issued(n)| == n
  {
    if n == 0 {
      assert Issued(0) == {};
    } else {
      IssuedSize(n - 1);
      OneMoreMember(Issued(n - 1), n - 1);
    }
  }

  lemma {:induction false} OneMoreMember(s: set<int>, x: int)
    requires x !in s
    ensures |s + {x}| == |s| + 1
  {}

  lemma {:induction false} PendingFewerThanPlayers(cfg: Config, s: State)
    requires Inv(cfg, s)
    ensures |s.pending| <= |s.players|
  {
    PlayersOfPending(s.pending, Issued(|s.players|));
    IssuedSize(|s.players|);
  }

  ghost predicate Sparse(s: State) { s.evicted == {} }

  lemma {:induction false} ResponseKeepsSparse(cfg: Config, s: State, id: int, success: bool, retryReason: bool)
    requires Inv(cfg, s) && Sparse(s) && |s.players| <= MAX_PENDING
    ensures WellFormed(s) && Sparse(Response(s, id, success, retryReason))
  {
    RespondInv(cfg, s, id, success, retryReason);
    PendingFewerThanPlayers(cfg, Respond(s, id, success, retryReason));
    assert Ids([]) == {};
  }

  lemma {:induction false} StepKeepsSparse(cfg: Config, s: State, e: Event)
    requires Inv(cfg, s) && Sparse(s) && |s.players| <= MAX_PENDING
    ensures Sparse(Next(cfg, s, e))
  {
    if e.Responded? {
      ResponseKeepsSparse(cfg, s, e.id, e.success, e.retryReason);
    } else {
      EvictedKept(cfg, s, e);
    }
  }

  /** No command is evicted while there have been at most 1024 connections. */
  lemma {:induction false} NoEvictionWhileSmall(cfg: Config, s: State, es: seq<Event>)
    requires Inv(cfg, s) && Sparse(s) && |Run(cfg, s, es).players| <= 1024
    ensures Sparse(Run(cfg, s, es))
    decreases |es|
  {
    hide Inv, Next, Sparse;
    if es != [] {
      var t := Next(cfg, s, es[0]);
      PlayersGrow(cfg, s, es[0]);
      PlayersGrowRun(cfg, t, es[1..]);
      StepKeepsSparse(cfg, s, es[0]);
      NoEvictionWhileSmall(cfg, t, es[1..]);
    }
  }

  lemma {:induction false} ReapKeeps(cfg: Config, s: State, entries: seq<Pending>, now: int)
    requires forall e :: e in entries ==> e.player < |s.players|
    ensures var t := ReapAll(cfg, s, entries, now);
            && |t.players| == |s.players| && t.evicted == s.evicted && t.requestSeq == s.requestSeq
            && forall i :: 0 <= i < |s.players| ==>
                 && t.players[i].registered == s.players[i].registered
                 && (t.players[i].inFlight == s.players[i].inFlight || t.players[i].inFlight.None?)
    decreases |entries|
  {
    if entries != [] {
      ReapKeeps(cfg, ReapOne(cfg, s, entries[0], now), entries[1..], now);
    }
  }

  lemma {:induction false} StepGrows(cfg: Config, s: State, e: Event)
    requires WellFormed(s) && Enabled(s, e) && !e.Reap?
    ensures |s.players| <= |Step(cfg, s, e).players|
    ensures !e.Responded? ==> Step(cfg, s, e).evicted == s.evicted
  {
    hide Lookup, Without, CanSend, RejectRetryable, Release, Overflow, Ids;
  }

  /** A passed-over event changes nothing; an enabled one takes its step. */
  lemma {:induction false} NextIs(cfg: Config, s: State, e: Event)
    requires Inv(cfg, s)
    ensures WellFormed(s) && Next(cfg, s, e) == if Enabled(s, e) then Step(cfg, s, e) else s
  {
    InvWellFormed(cfg, s);
    hide Inv, Step, Enabled, WellFormed;
  }

  lemma {:induction false} PlayersGrow(cfg: Config, s: State, e: Event)
    requires Inv(cfg, s)
    ensures |s.players| <= |Next(cfg, s, e).players|
  {
    hide Inv, Next, WellFormed, ReapAll, Step, Enabled;
    NextIs(cfg, s, e);
    if e.Reap? {
      ReapStep(cfg, s, e.now);
    } else if Enabled(s, e) {
      StepGrows(cfg, s, e);
    }
  }

  lemma {:induction false} ReapStep(cfg: Config, s: State, now: int)
    requires WellFormed(s)
    ensures Enabled(s, Reap(now))
    ensures |Step(cfg, s, Reap(now)).players| == |s.players| && Step(cfg, s, Reap(now)).evicted == s.evicted
  {
    hide ReapAll;
    ReapKeeps(cfg, s, s.pending, now);
  }

  lemma {:induction false} PlayersGrowRun(cfg: Config, s: State, es: seq<Event>)
    requires Inv(cfg, s)
    ensures |s.players| <= |Run(cfg, s, es).players|
    decreases |es|
  {
    if es != [] {
      PlayersGrow(cfg, s, es[0]);
      PlayersGrowRun(cfg, Next(cfg, s, es[0]), es[1..]);
    }
  }

  lemma {:induction false} EvictedKept(cfg: Config, s: State, e: Event)
    requires Inv(cfg, s) && !e.Responded?
    ensures Next(cfg, s, e).evicted == s.evicted
  {
    hide Inv, Next, WellFormed, ReapAll, Step, Enabled;
    NextIs(cfg, s, e);
    if e.Reap? {
      ReapStep(cfg, s, e.now);
    } else if Enabled(s, e) {
      StepGrows(cfg, s, e);
    }
  }

  // ---------------------------------------------------------------- a command that is no longer pending

  /** Issued long ago and neither pending now nor ever again. */
  ghost predicate Gone(s: State, i: nat, x: int) {
    i < |s.players| && s.players[i].inFlight == Some(x) && x !in Ids(s.pending) && x < s.requestSeq
  }

  lemma {:induction false} SendKeepsGone(s: State, j: nat, target: Target, attempt: nat, now: int, i: nat, x: int)
    requires Gone(s, i, x) && j < |s.players|
    ensures Gone(SendTarget(s, j, target, attempt, now), i, x)
  {
    var t := SendTarget(s, j, target, attempt, now);
    if CanSend(s, j) && s.players[j].inFlight.None? {
      assert Ids(t.pending) <= Ids(s.pending) + {s.requestSeq};
    }
  }

  lemma {:induction false} ReapKeepsGone(cfg: Config, s: State, entries: seq<Pending>, now: int, i: nat, x: int)
    requires Increasing(s.pending) && Gone(s, i, x)
    requires forall e :: e in entries ==> e.player < |s.players| && e.id != x
    ensures Gone(ReapAll(cfg, s, entries, now), i, x)
    decreases |entries|
  {
    if entries != [] {
      WithoutFacts(s.pending, entries[0].id);
      ReapKeepsGone(cfg, ReapOne(cfg, s, entries[0], now), entries[1..], now, i, x);
    }
  }

  lemma {:induction false} ResponseKeepsGone(cfg: Config, s: State, id: int, success: bool, retryReason: bool, i: nat,
                                             x: int)
    requires Inv(cfg, s) && Gone(s, i, x)
    ensures WellFormed(s) && Gone(Response(s, id, success, retryReason), i, x)
  {
    LateResponseHarmless(cfg, s, id, success, retryReason, i);
    WithoutFacts(s.pending, id);
    var t := Respond(s, id, success, retryReason);
    assert forall p :: p in t.pending[Overflow(t.pending)..] ==> p in t.pending;
  }

  lemma {:induction false} StepKeepsGone(cfg: Config, s: State, e: Event, i: nat, x: int)
    requires Inv(cfg, s) && Gone(s, i, x)
    ensures Gone(Next(cfg, s, e), i, x)
  {
    InvWellFormed(cfg, s);
    if Enabled(s, e) {
      match e {
        case Input(j, target, now) => SendKeepsGone(s, j, target, 0, now, i, x);
        case Responded(id, success, retryReason) => ResponseKeepsGone(cfg, s, id, success, retryReason, i, x);
        case Reap(now) =>
          forall p | p in s.pending ensures p.id != x { IdsIn(s.pending, p); }
          ReapKeepsGone(cfg, s, s.pending, now, i, x);
        case Fire(k, now) =>
          var t := s.(timers := s.timers[..k] + s.timers[k + 1..]);
          assert Gone(t, i, x);
          match s.timers[k] {
            case Flush(j, attempt) =>
              var p := t.players[j];
              if p.queued.Some? && p.inFlight.None? {
                SendKeepsGone(t.(players := t.players[j := p.(queued := None)]), j, p.queued.value, attempt, now, i, x);
              }
            case Send(j, target) => SendKeepsGone(t, j, target, 0, now, i, x);
          }
        case _ =>
      }
    }
  }

  lemma {:induction false} GoneForever(cfg: Config, s: State, es: seq<Event>, i: nat, x: int)
    requires Inv(cfg, s) && Gone(s, i, x)
    ensures Gone(Run(cfg, s, es), i, x)
    decreases |es|
  {
    if es != [] {
      StepKeepsGone(cfg, s, es[0], i, x);
      GoneForever(cfg, Next(cfg, s, es[0]), es[1..], i, x);
    }
  }

  lemma {:induction false} ReapOneReleases(cfg: Config, s: State, entry: Pending, now: int)
    requires PendingOwned(cfg, s) && entry in s.pending && s.players[entry.player].registered
    requires now - entry.sentAt >= cfg.ackTimeout
    ensures ReapOne(cfg, s, entry, now).players[entry.player].inFlight.None?
  {}

  lemma {:induction false} ReapOneOther(cfg: Config, s: State, entry: Pending, now: int, i: nat)
    requires PendingOwned(cfg, s) && entry in s.pending && i < |s.players| && s.players[i].inFlight != Some(entry.id)
    ensures i < |ReapOne(cfg, s, entry, now).players| && ReapOne(cfg, s, entry, now).players[i] == s.players[i]
  {}

  lemma {:induction false} ReapReleases(cfg: Config, s: State, entries: seq<Pending>, now: int, i: nat, k: nat)
    requires Inv(cfg, s) && Increasing(entries) && forall e :: e in entries ==> e in s.pending
    requires k < |entries| && entries[k].player == i < |s.players|
    requires s.players[i].registered && s.players[i].inFlight == Some(entries[k].id)
    requires now - entries[k].sentAt >= cfg.ackTimeout
    ensures i < |ReapAll(cfg, s, entries, now).players| && ReapAll(cfg, s, entries, now).players[i].inFlight.None?
    decreases |entries|
  {
    var t := ReapOne(cfg, s, entries[0], now);
    ReapOneInv(cfg, s, entries[0], now);
    InvWellFormed(cfg, t);
    if k == 0 {
      ReapOneReleases(cfg, s, entries[0], now);
      hide ReapOne, Inv;
      ReapKeeps(cfg, t, entries[1..], now);
    } else {
      ReapOneOther(cfg, s, entries[0], now, i);
      RestPending(cfg, s, entries, now);
      assert entries[1..][k - 1] == entries[k];
      hide Inv, ReapOne, Increasing;
      ReapReleases(cfg, t, entries[1..], now, i, k - 1);
    }
  }

  lemma {:induction false} FlightIndex(s: State, i: nat) returns (k: nat)
    requires FlightOwned(s) && i < |s.players| && s.players[i].inFlight.Some?
    requires s.players[i].inFlight.value in Ids(s.pending)
    ensures k < |s.pending| && s.pending[k].player == i && s.players[i].inFlight == Some(s.pending[k].id)
  {
    k :| 0 <= k < |s.pending| && s.pending[k].id == s.players[i].inFlight.value;
    assert s.pending[k] in s.pending;
  }

  /** The sweep, run late enough, frees a player whose command is still pending. */
  lemma {:induction false} SweepFrees(cfg: Config, s: State, i: nat) returns (es: seq<Event>)
    requires Inv(cfg, s) && i < |s.players| && s.players[i].registered && s.players[i].inFlight.Some?
    requires s.players[i].inFlight.value in Ids(s.pending)
    ensures i < |Run(cfg, s, es).players| && Run(cfg, s, es).players[i].inFlight.None?
  {
    InvWellFormed(cfg, s);
    InvIncreasing(cfg, s);
    var k := FlightIndex(s, i);
    var now := s.pending[k].sentAt + cfg.ackTimeout;
    hide Inv, ReapAll, Increasing, FlightOwned, WellFormed, Ids;
    ReapReleases(cfg, s, s.pending, now, i, k);
    es := [Reap(now)];
    RunOne(cfg, s, Reap(now));
  }

  lemma {:induction false} RunOne(cfg: Config, s: State, e: Event)
    requires Inv(cfg, s)
    ensures Run(cfg, s, [e]) == Next(cfg, s, e)
  {
    hide Inv, Next;
    assert [e][1..] == [];
  }

  lemma {:induction false} InvIncreasing(cfg: Config, s: State)
    requires Inv(cfg, s)
    ensures Increasing(s.pending)
  {}

  /** A connected player's in-flight command blocks it for good, whatever happens later, exactly
      when the command is no longer pending; otherwise the timeout sweep frees the player. */
  lemma {:induction false} StuckIffNotPending(cfg: Config, s: State, i: nat)
    requires Inv(cfg, s) && i < |s.players| && s.players[i].registered && s.players[i].inFlight.Some?
    ensures var x := s.players[i].inFlight.value;
            x !in Ids(s.pending) <==>
            forall es :: i < |Run(cfg, s, es).players| && Run(cfg, s, es).players[i].inFlight == Some(x)
  {
    var x := s.players[i].inFlight.value;
    if x !in Ids(s.pending) {
      forall es
        ensures i < |Run(cfg, s, es).players| && Run(cfg, s, es).players[i].inFlight == Some(x)
      {
        GoneForever(cfg, s, es, i, x);
      }
    } else {
      var es := SweepFrees(cfg, s, i);
    }
  }

  /** For a connected player the command in flight stopped being pending by eviction, and only so. */
  lemma {:induction false} OrphansAreEvicted(cfg: Config, s: State, i: nat)
    requires Inv(cfg, s) && i < |s.players| && s.players[i].registered && s.players[i].inFlight.Some?
    ensures var x := s.players[i].inFlight.value; x !in Ids(s.pending) <==> x in s.evicted
  {
    assert s.evicted !! Ids(s.pending);
  }

  /** While its command is orphaned a player has nothing pending: it never sends again. */
  lemma {:induction false} OrphanNeverSends(cfg: Config, s: State, es: seq<Event>, i: nat)
    requires Inv(cfg, s) && i < |s.players| && s.players[i].inFlight.Some?
    requires s.players[i].inFlight.value !in Ids(s.pending)
    ensures forall p :: p in Run(cfg, s, es).pending ==> p.player != i
  {
    var x := s.players[i].inFlight.value;
    GoneForever(cfg, s, es, i, x);
    var t := Run(cfg, s, es);
    forall p | p in t.pending
      ensures p.player != i
    {
      IdsIn(t.pending, p);
    }
  }
}
