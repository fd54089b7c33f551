/**
 The per-peer rate limiter: a counter that is reset lazily once a second of the peer's own
 session has passed, and an eviction of idle peers that forgets their sessions.
 */
module RateLimiter {
  type Peer = string

  datatype PeerData = PeerData(sessionStartTime: int, lastActivityTime: int, lastCounterReset: int, transactionCount: nat)

  datatype Config = Config(maxTransactionsPerSecond: nat, cleanupIntervalMs: int, connectionTimeoutMs: int)

  datatype Limiter = Limiter(peers: map<Peer, PeerData>, lastCleanup: int)

  // ---------- one call, on values ----------

  /** The second of the session that a time falls into. */
  function Second(sessionStart: int, time: int): int {
    (time - sessionStart) / 1000
  }

  predicate Expired(c: Config, d: PeerData, now: int) {
    now - d.lastActivityTime >= c.connectionTimeoutMs
  }

  function CleanUp(c: Config, s: Limiter, now: int): Limiter {
    if now - s.lastCleanup < c.cleanupIntervalMs then s
    else Limiter(map p | p in s.peers && !Expired(c, s.peers[p], now) :: s.peers[p], now)
  }

  function Initialize(s: Limiter, p: Peer, now: int): Limiter {
    if p in s.peers then s else s.(peers := s.peers[p := PeerData(now, now, now, 0)])
  }

  /** The counter starts again in a later second than that of the last reset. */
  function Reset(d: PeerData, now: int): PeerData {
    if Second(d.sessionStartTime, now) > Second(d.sessionStartTime, d.lastCounterReset) then
      d.(transactionCount := 0, lastCounterReset := now)
    else d
  }

  datatype Decision = Decision(limited: bool, after: Limiter)

  function Handle(c: Config, s: Limiter, p: Peer, now: int): (r: Decision)
    ensures p in r.after.peers
  {
    var t := Initialize(CleanUp(c, s, now), p, now);
    var d := Reset(t.peers[p], now);
    if d.transactionCount >= c.maxTransactionsPerSecond then Decision(true, t.(peers := t.peers[p := d]))
    else
      Decision(false, t.(peers := t.peers[p := d.(lastActivityTime := now, transactionCount := d.transactionCount + 1)]))
  }

  // ---------- the service ----------

  class Service {
    const config: Config
    var lastCleanup: int
    var connectionsStatistics: map<Peer, PeerData>

    function State(): Limiter
      reads this
    {
      Limiter(connectionsStatistics, lastCleanup)
    }

    constructor (config: Config, now: int)
      ensures State() == Limiter(map[], now) && this.config == config
    {
      this.config := config;
      lastCleanup := now;
      connectionsStatistics := map[];
    }

    method CleanUpOldConnections(currentTime: int)
      modifies this
      ensures State() == CleanUp(config, old(State()), currentTime)
    {
      if currentTime - lastCleanup < config.cleanupIntervalMs { return; }
      ghost var before := connectionsStatistics;
      var pending := connectionsStatistics.Keys;
      while pending != {}
        invariant pending <= connectionsStatistics.Keys <= before.Keys
        invariant forall p {:trigger p in before} {:trigger p in connectionsStatistics} :: p in before && p !in pending ==>
                    (p in connectionsStatistics <==> !Expired(config, before[p], currentTime))
        invariant forall p {:trigger connectionsStatistics[p]} :: p in connectionsStatistics ==>
                    connectionsStatistics[p] == before[p]
        invariant lastCleanup == old(lastCleanup)
        decreases |pending|
      {
        var peer :| peer in pending;
        pending := pending - {peer};
        if Expired(config, connectionsStatistics[peer], currentTime) {
          connectionsStatistics := connectionsStatistics - {peer};
        }
      }
      lastCleanup := currentTime;
    }

    method HasExceededRateLimit(peer: Peer, currentTime: int) returns (exceeded: bool)
      requires peer in connectionsStatistics
      modifies this`connectionsStatistics
      ensures connectionsStatistics == old(connectionsStatistics)[peer := Reset(old(connectionsStatistics)[peer], currentTime)]
      ensures exceeded <==> connectionsStatistics[peer].transactionCount >= config.maxTransactionsPerSecond
    {
      var peerData := connectionsStatistics[peer];
      var currentSecond := (currentTime - peerData.sessionStartTime) / 1000;
      var lastResetSecond := (peerData.lastCounterReset - peerData.sessionStartTime) / 1000;
      if currentSecond > lastResetSecond {
        peerData := peerData.(transactionCount := 0, lastCounterReset := currentTime);
        connectionsStatistics := connectionsStatistics[peer := peerData];
      }
      exceeded := peerData.transactionCount >= config.maxTransactionsPerSecond;
    }

    /** Shared by the two entry points: the legacy one ends the connection, the other throws RATE_LIMITED. */
    method HandleRateLimit(peer: Peer, currentTime: int) returns (limited: bool)
      modifies this
      ensures Handle(config, old(State()), peer, currentTime) == Decision(limited, State())
    {
      CleanUpOldConnections(currentTime);
      if peer !in connectionsStatistics {
        connectionsStatistics := connectionsStatistics[peer := PeerData(currentTime, currentTime, currentTime, 0)];
      }
      limited := HasExceededRateLimit(peer, currentTime);
      if limited { return; }
      var peerData := connectionsStatistics[peer];
      connectionsStatistics := connectionsStatistics[peer :=
        peerData.(lastActivityTime := currentTime, transactionCount := peerData.transactionCount + 1)];
    }
  }

  // ---------- runs ----------

  datatype Call = Call(peer: Peer, time: int)

  /** An accepted call and the session it was counted in. */
  datatype Accepted = Accepted(time: int, session: int)

  /** The clock never goes back. */
  ghost predicate Monotone(calls: seq<Call>, start: int) {
    forall i {:trigger calls[i]} :: 0 <= i < |calls| ==> start <= calls[i].time && (i > 0 ==> calls[i - 1].time <= calls[i].time)
  }

  function After(c: Config, start: int, calls: seq<Call>): Limiter {
    if calls == [] then Limiter(map[], start)
    else
      var last := calls[|calls| - 1];
      Handle(c, After(c, start, calls[..|calls| - 1]), last.peer, last.time).after
  }

  /** The accepted calls of a peer, in order. */
  function History(c: Config, start: int, calls: seq<Call>, p: Peer): seq<Accepted> {
    if calls == [] then []
    else
      var before, last := calls[..|calls| - 1], calls[|calls| - 1];
      var r := Handle(c, After(c, start, before), last.peer, last.time);
      if last.peer == p && !r.limited then
        History(c, start, before, p) + [Accepted(last.time, r.after.peers[p].sessionStartTime)]
      else History(c, start, before, p)
  }

  /** Accepted calls in one second of one session. */
  function InSecond(h: seq<Accepted>, session: int, second: int): nat {
    if h == [] then 0
    else
      var last := h[|h| - 1];
      InSecond(h[..|h| - 1], session, second)
      + if last.session == session && Second(session, last.time) == second then 1 else 0
  }

  /** Accepted calls in the half-open interval of one second that begins at a time. */
  function InWindow(h: seq<Accepted>, from: int): nat {
    if h == [] then 0
    else InWindow(h[..|h| - 1], from) + if from <= h[|h| - 1].time < from + 1000 then 1 else 0
  }

  // ---------- what every run keeps ----------

  /** The entry of a peer agrees with the calls accepted so far. */
  ghost predicate Tracks(c: Config, d: PeerData, h: seq<Accepted>, clock: int) {
    var second := Second(d.sessionStartTime, d.lastCounterReset);
    && d.sessionStartTime <= d.lastCounterReset <= clock
    && InSecond(h, d.sessionStartTime, second) == d.transactionCount <= c.maxTransactionsPerSecond
    && forall i {:trigger h[i]} :: 0 <= i < |h| ==>
         if h[i].session == d.sessionStartTime then
           h[i].time <= d.lastActivityTime && Second(d.sessionStartTime, h[i].time) <= second
         else h[i].time + c.connectionTimeoutMs <= d.sessionStartTime
  }

  /** A forgotten peer has been idle for the whole timeout. */
  ghost predicate Forgotten(c: Config, h: seq<Accepted>, clock: int) {
    forall i {:trigger h[i]} :: 0 <= i < |h| ==> h[i].time + c.connectionTimeoutMs <= clock
  }

  ghost predicate SessionsApart(c: Config, h: seq<Accepted>) {
    && (forall i {:trigger h[i]} :: 0 <= i < |h| ==> h[i].session <= h[i].time)
    && (forall i, j {:trigger h[i], h[j]} :: 0 <= i < j < |h| && h[i].session != h[j].session ==>
          h[i].time + c.connectionTimeoutMs <= h[j].time)
  }

  ghost predicate Bounded(c: Config, h: seq<Accepted>) {
    forall session, second {:trigger InSecond(h, session, second)} :: InSecond(h, session, second) <= c.maxTransactionsPerSecond
  }

  ghost predicate PeerOk(c: Config, s: Limiter, p: Peer, h: seq<Accepted>, clock: int) {
    && (if p in s.peers then Tracks(c, s.peers[p], h, clock) else Forgotten(c, h, clock))
    && SessionsApart(c, h) && Bounded(c, h)
    && forall i {:trigger h[i]} :: 0 <= i < |h| ==> h[i].session <= clock && h[i].time <= clock
  }

  /** No record of a second that is later than all of a session's. */
  lemma {:induction false} NothingLater(h: seq<Accepted>, session: int, second: int)
    requires forall i {:trigger h[i]} :: 0 <= i < |h| && h[i].session == session ==> Second(session, h[i].time) < second
    ensures InSecond(h, session, second) == 0
  {
    if h != [] { NothingLater(h[..|h| - 1], session, second); }
  }

  /** Time passing, and idle peers being evicted. */
  lemma CleanUpKeeps(c: Config, s: Limiter, p: Peer, h: seq<Accepted>, clock: int, now: int)
    requires PeerOk(c, s, p, h, clock) && clock <= now && c.connectionTimeoutMs >= 1000
    ensures PeerOk(c, CleanUp(c, s, now), p, h, now)
  {
    var t := CleanUp(c, s, now);
    if p in s.peers && p !in t.peers {
      assert Expired(c, s.peers[p], now);
      assert Forgotten(c, h, now);
    }
  }

  lemma InitializeKeeps(c: Config, s: Limiter, p: Peer, h: seq<Accepted>, now: int)
    requires PeerOk(c, s, p, h, now) && c.connectionTimeoutMs >= 1000
    ensures PeerOk(c, Initialize(s, p, now), p, h, now)
  {
    if p !in s.peers {
      assert forall i {:trigger h[i]} :: 0 <= i < |h| ==> h[i].session < now;
      NothingLater(h, now, 0);
    }
  }

  lemma ResetKeeps(c: Config, d: PeerData, h: seq<Accepted>, now: int)
    requires Tracks(c, d, h, now)
    ensures Tracks(c, Reset(d, now), h, now)
    ensures Second(d.sessionStartTime, Reset(d, now).lastCounterReset) == Second(d.sessionStartTime, now)
  {
    if Reset(d, now) != d { NothingLater(h, d.sessionStartTime, Second(d.sessionStartTime, now)); }
  }

  /** Counting one more accepted call. */
  lemma AcceptKeeps(c: Config, s: Limiter, p: Peer, h: seq<Accepted>, now: int)
    requires PeerOk(c, s, p, h, now) && p in s.peers
    requires var d := s.peers[p];
             d.transactionCount < c.maxTransactionsPerSecond && Second(d.sessionStartTime, d.lastCounterReset) == Second(d.sessionStartTime, now)
    ensures var d := s.peers[p];
            PeerOk(c, s.(peers := s.peers[p := d.(lastActivityTime := now, transactionCount := d.transactionCount + 1)]), p,
                   h + [Accepted(now, d.sessionStartTime)], now)
  {
    var d := s.peers[p];
    var h' := h + [Accepted(now, d.sessionStartTime)];
    assert h'[..|h'| - 1] == h;
    forall session, second ensures InSecond(h', session, second) <= c.maxTransactionsPerSecond {
      assert InSecond(h, session, second) <= c.maxTransactionsPerSecond;
    }
    assert SessionsApart(c, h');
    assert forall i {:trigger h'[i]} :: 0 <= i < |h| ==> h'[i] == h[i];
  }

  /** Only the entry of the peer matters. */
  lemma SameEntry(c: Config, s: Limiter, t: Limiter, p: Peer, h: seq<Accepted>, clock: int)
    requires PeerOk(c, s, p, h, clock) && (p in s.peers <==> p in t.peers) && (p in s.peers ==> t.peers[p] == s.peers[p])
    ensures PeerOk(c, t, p, h, clock)
  {
  }

  /** The decision in terms of the entry after its reset. */
  lemma HandleByEntry(c: Config, s: Limiter, p: Peer, now: int)
    ensures var t := Initialize(CleanUp(c, s, now), p, now);
            var d := Reset(t.peers[p], now);
            var u := t.(peers := t.peers[p := d]);
            && p in t.peers
            && Handle(c, s, p, now)
               == if d.transactionCount >= c.maxTransactionsPerSecond then Decision(true, u)
                  else Decision(false, u.(peers := u.peers[p :=
                         d.(lastActivityTime := now, transactionCount := d.transactionCount + 1)]))
  {
    var t := Initialize(CleanUp(c, s, now), p, now);
    var d := Reset(t.peers[p], now);
    var e := d.(lastActivityTime := now, transactionCount := d.transactionCount + 1);
    assert t.peers[p := d][p := e] == t.peers[p := e];
  }

  lemma ResetEntryKeeps(c: Config, t: Limiter, p: Peer, h: seq<Accepted>, now: int)
    requires PeerOk(c, t, p, h, now) && p in t.peers
    ensures var d := Reset(t.peers[p], now);
            PeerOk(c, t.(peers := t.peers[p := d]), p, h, now)
            && Second(d.sessionStartTime, d.lastCounterReset) == Second(d.sessionStartTime, now)
  {
    hide Tracks, Forgotten, SessionsApart, Bounded, Second;
    ResetKeeps(c, t.peers[p], h, now);
  }

  lemma HandleOwnKeeps(c: Config, s: Limiter, p: Peer, h: seq<Accepted>, now: int)
    requires PeerOk(c, CleanUp(c, s, now), p, h, now) && c.connectionTimeoutMs >= 1000
    ensures var r := Handle(c, s, p, now);
            PeerOk(c, r.after, p, if r.limited then h else h + [Accepted(now, r.after.peers[p].sessionStartTime)], now)
  {
    hide PeerOk, Second, Handle;
    InitializeKeeps(c, CleanUp(c, s, now), p, h, now);
    HandleByEntry(c, s, p, now);
    var t := Initialize(CleanUp(c, s, now), p, now);
    ResetEntryKeeps(c, t, p, h, now);
    var d := Reset(t.peers[p], now);
    if d.transactionCount < c.maxTransactionsPerSecond {
      AcceptKeeps(c, t.(peers := t.peers[p := d]), p, h, now);
    }
  }

  lemma HandleKeeps(c: Config, s: Limiter, p: Peer, h: seq<Accepted>, clock: int, call: Call)
    requires PeerOk(c, s, p, h, clock) && clock <= call.time && c.connectionTimeoutMs >= 1000
    ensures var r := Handle(c, s, call.peer, call.time);
            PeerOk(c, r.after, p, if call.peer == p && !r.limited then h + [Accepted(call.time, r.after.peers[p].sessionStartTime)] else h,
                   call.time)
  {
    hide PeerOk;
    CleanUpKeeps(c, s, p, h, clock, call.time);
    if call.peer == p {
      HandleOwnKeeps(c, s, p, h, call.time);
    } else {
      SameEntry(c, CleanUp(c, s, call.time), Handle(c, s, call.peer, call.time).after, p, h, call.time);
    }
  }

  lemma {:induction false} RunKeeps(c: Config, start: int, calls: seq<Call>, p: Peer)
    requires Monotone(calls, start) && c.connectionTimeoutMs >= 1000
    ensures PeerOk(c, After(c, start, calls), p, History(c, start, calls, p),
                   if calls == [] then start else calls[|calls| - 1].time)
  {
    if calls != [] {
      var before, last := calls[..|calls| - 1], calls[|calls| - 1];
      RunKeeps(c, start, before, p);
      var clock := if before == [] then start else before[|before| - 1].time;
      HandleKeeps(c, After(c, start, before), p, History(c, start, before, p), clock, last);
    }
  }

  // ---------- who is remembered, and what is decided ----------

  /** A clean-up is due. */
  predicate Due(c: Config, s: Limiter, now: int) {
    now - s.lastCleanup >= c.cleanupIntervalMs
  }

  /** A clean-up that is due forgets exactly the peers that have been idle for the timeout, changes none that
      stay, and is not repeated before the interval is over; otherwise nothing happens. */
  lemma CleanUpExactly(c: Config, s: Limiter, now: int, p: Peer)
    ensures !Due(c, s, now) ==> CleanUp(c, s, now) == s
    ensures Due(c, s, now) ==>
              var t := CleanUp(c, s, now);
              && t.lastCleanup == now
              && (p in t.peers <==> p in s.peers && now - s.peers[p].lastActivityTime < c.connectionTimeoutMs)
              && (p in t.peers ==> t.peers[p] == s.peers[p])
  {
  }

  /** A call of a peer goes into the session there was, unless there was none or it is forgotten just then. */
  predicate Continues(c: Config, s: Limiter, p: Peer, now: int) {
    p in s.peers && !(Due(c, s, now) && now - s.peers[p].lastActivityTime >= c.connectionTimeoutMs)
  }

  /** What one call does to the entries: its peer's session goes on or begins at the time of the call, a granted
      call is its last activity, and other peers are at most forgotten. */
  lemma CallExactly(c: Config, s: Limiter, p: Peer, now: int, q: Peer)
    ensures var r := Handle(c, s, p, now);
            var d := r.after.peers[p];
            && d.sessionStartTime == (if Continues(c, s, p, now) then s.peers[p].sessionStartTime else now)
            && d.lastActivityTime == (if r.limited && Continues(c, s, p, now) then s.peers[p].lastActivityTime else now)
            && (q != p ==> (q in r.after.peers <==> Continues(c, s, q, now))
                           && (q in r.after.peers ==> r.after.peers[q] == s.peers[q]))
            && r.after.lastCleanup == (if Due(c, s, now) then now else s.lastCleanup)
  {
    CleanUpExactly(c, s, now, p);
    CleanUpExactly(c, s, now, q);
    hide CleanUp, Expired;
  }

  /** The last call granted in a session, or its beginning. */
  function LastGranted(h: seq<Accepted>, session: int): int {
    if h == [] then session
    else if h[|h| - 1].session == session then h[|h| - 1].time
    else LastGranted(h[..|h| - 1], session)
  }

  lemma {:induction false} NothingGranted(h: seq<Accepted>, session: int)
    requires forall i {:trigger h[i]} :: 0 <= i < |h| ==> h[i].session != session
    ensures LastGranted(h, session) == session
  {
    if h != [] { NothingGranted(h[..|h| - 1], session); }
  }

  /** In every run a peer's last activity is the last call it was granted in its session. */
  lemma {:induction false} ActivityIsLastGranted(c: Config, start: int, calls: seq<Call>, p: Peer)
    requires Monotone(calls, start) && c.connectionTimeoutMs >= 1000
    ensures var s := After(c, start, calls);
            p in s.peers ==>
              s.peers[p].lastActivityTime == LastGranted(History(c, start, calls, p), s.peers[p].sessionStartTime)
  {
    if calls != [] {
      var before, last := calls[..|calls| - 1], calls[|calls| - 1];
      ActivityIsLastGranted(c, start, before, p);
      var s, h := After(c, start, before), History(c, start, before, p);
      CallExactly(c, s, last.peer, last.time, p);
      if last.peer == p && !Continues(c, s, p, last.time) { NewSession(c, start, before, p, last.time); }
      hide Handle, Continues, Due;
      assert (h + [Accepted(last.time, 0)])[..|h|] == h;
    }
  }

  /** A session that begins has no calls yet. */
  lemma NewSession(c: Config, start: int, calls: seq<Call>, p: Peer, now: int)
    requires Monotone(calls + [Call(p, now)], start) && c.connectionTimeoutMs >= 1000
    requires !Continues(c, After(c, start, calls), p, now)
    ensures LastGranted(History(c, start, calls, p), now) == now
  {
    var s, h := After(c, start, calls), History(c, start, calls, p);
    var all := calls + [Call(p, now)];
    assert forall i {:trigger calls[i]} :: 0 <= i < |calls| ==> all[i] == calls[i];
    RunKeeps(c, start, calls, p);
    var clock := if calls == [] then start else calls[|calls| - 1].time;
    assert clock <= now by { assert all[|calls|].time == now; }
    CleanUpKeeps(c, s, p, h, clock, now);
    hide Handle;
    assert p !in CleanUp(c, s, now).peers;
    assert Forgotten(c, h, now);
    NothingGranted(h, now);
  }

  /** In every run a call is refused exactly when as many calls as the maximum were granted in the same second
      of the session it falls into. */
  lemma DecisionExactly(c: Config, start: int, calls: seq<Call>, p: Peer, now: int)
    requires Monotone(calls + [Call(p, now)], start) && c.connectionTimeoutMs >= 1000
    ensures var r := Handle(c, After(c, start, calls), p, now);
            var session := r.after.peers[p].sessionStartTime;
            r.limited <==> InSecond(History(c, start, calls, p), session, Second(session, now)) >= c.maxTransactionsPerSecond
  {
    var s, h := After(c, start, calls), History(c, start, calls, p);
    var all := calls + [Call(p, now)];
    assert forall i {:trigger calls[i]} :: 0 <= i < |calls| ==> all[i] == calls[i];
    RunKeeps(c, start, calls, p);
    var clock := if calls == [] then start else calls[|calls| - 1].time;
    assert clock <= now by { assert all[|calls|].time == now; }
    hide Monotone, History, After;
    CleanUpKeeps(c, s, p, h, clock, now);
    InitializeKeeps(c, CleanUp(c, s, now), p, h, now);
    HandleByEntry(c, s, p, now);
    ResetEntryKeeps(c, Initialize(CleanUp(c, s, now), p, now), p, h, now);
    hide CleanUp, Handle, Initialize;
  }

  // ---------- the bounds ----------

  /** Calls of one session in an interval of one second lie in two seconds of the session. */
  lemma {:induction false} WindowInTwoSeconds(h: seq<Accepted>, from: int, session: int)
    requires forall i {:trigger h[i]} :: 0 <= i < |h| && from <= h[i].time < from + 1000 ==> h[i].session == session
    ensures InWindow(h, from) <= InSecond(h, session, Second(session, from)) + InSecond(h, session, Second(session, from) + 1)
  {
    if h != [] {
      WindowInTwoSeconds(h[..|h| - 1], from, session);
    }
  }

  lemma {:induction false} EmptyWindow(h: seq<Accepted>, from: int)
    requires forall i {:trigger h[i]} :: 0 <= i < |h| ==> !(from <= h[i].time < from + 1000)
    ensures InWindow(h, from) == 0
  {
    if h != [] { EmptyWindow(h[..|h| - 1], from); }
  }

  /** A peer is never granted more than the maximum in a second of its session. */
  lemma SessionSecondBound(c: Config, start: int, calls: seq<Call>, p: Peer, session: int, second: int)
    requires Monotone(calls, start) && c.connectionTimeoutMs >= 1000
    ensures InSecond(History(c, start, calls, p), session, second) <= c.maxTransactionsPerSecond
  {
    RunKeeps(c, start, calls, p);
  }

  /** Nor more than twice the maximum in any interval of one second, however sessions are reset,
      evicted and begun again. */
  lemma SlidingWindowBound(c: Config, start: int, calls: seq<Call>, p: Peer, from: int)
    requires Monotone(calls, start) && c.connectionTimeoutMs >= 1000
    ensures InWindow(History(c, start, calls, p), from) <= 2 * c.maxTransactionsPerSecond
  {
    var h := History(c, start, calls, p);
    RunKeeps(c, start, calls, p);
    if k: nat :| k < |h| && from <= h[k].time < from + 1000 {
      forall i {:trigger h[i]} | 0 <= i < |h| && from <= h[i].time < from + 1000 ensures h[i].session == h[k].session {
        assert i < k ==> h[i].session == h[k].session;
        assert k < i ==> h[i].session == h[k].session;
      }
      WindowInTwoSeconds(h, from, h[k].session);
      SessionSecondBound(c, start, calls, p, h[k].session, Second(h[k].session, from));
      SessionSecondBound(c, start, calls, p, h[k].session, Second(h[k].session, from) + 1);
    } else {
      EmptyWindow(h, from);
    }
  }

  /** One more granted call of a peer whose entry is known; no clean-up is due. */
  lemma Granted(c: Config, calls: seq<Call>, p: Peer, now: int, d: PeerData)
    requires After(c, 0, calls).lastCleanup == 0 && now < c.cleanupIntervalMs
    requires d == if p in After(c, 0, calls).peers then Reset(After(c, 0, calls).peers[p], now) else PeerData(now, now, now, 0)
    requires d.transactionCount < c.maxTransactionsPerSecond
    ensures var more := calls + [Call(p, now)];
            && History(c, 0, more, p) == History(c, 0, calls, p) + [Accepted(now, d.sessionStartTime)]
            && After(c, 0, more).lastCleanup == 0 && p in After(c, 0, more).peers
            && After(c, 0, more).peers[p] == d.(lastActivityTime := now, transactionCount := d.transactionCount + 1)
  {
    var more := calls + [Call(p, now)];
    assert more[..|more| - 1] == calls;
  }

  lemma CountMore(h: seq<Accepted>, r: Accepted, from: int)
    ensures InWindow(h + [r], from) == InWindow(h, from) + if from <= r.time < from + 1000 then 1 else 0
  {
    assert (h + [r])[..|h|] == h;
  }

  /** A number of calls at one time. */
  function Burst(p: Peer, time: int, n: nat): (calls: seq<Call>)
    ensures |calls| == n && forall i {:trigger calls[i]} :: 0 <= i < n ==> calls[i] == Call(p, time)
  {
    if n == 0 then [] else Burst(p, time, n - 1) + [Call(p, time)]
  }

  /** In a new second of the session as many calls as the maximum are granted at once. */
  lemma {:induction false} BurstGranted(c: Config, calls: seq<Call>, p: Peer, time: int, n: nat, from: int)
    requires After(c, 0, calls).lastCleanup == 0 && time < c.cleanupIntervalMs && p in After(c, 0, calls).peers
    requires var d := After(c, 0, calls).peers[p]; Second(d.sessionStartTime, time) > Second(d.sessionStartTime, d.lastCounterReset)
    requires n <= c.maxTransactionsPerSecond && from <= time < from + 1000
    ensures var more := calls + Burst(p, time, n);
            && After(c, 0, more).lastCleanup == 0 && p in After(c, 0, more).peers
            && After(c, 0, more).peers[p]
               == (if n == 0 then After(c, 0, calls).peers[p]
                   else PeerData(After(c, 0, calls).peers[p].sessionStartTime, time, time, n))
            && InWindow(History(c, 0, more, p), from) == InWindow(History(c, 0, calls, p), from) + n
  {
    hide After, History, InWindow, Handle, Second;
    if n == 0 {
      assert calls + Burst(p, time, 0) == calls;
    } else {
      var d := After(c, 0, calls).peers[p];
      var before := calls + Burst(p, time, n - 1);
      BurstGranted(c, calls, p, time, n - 1, from);
      var e := Reset(After(c, 0, before).peers[p], time);
      Granted(c, before, p, time, e);
      CountMore(History(c, 0, before, p), Accepted(time, d.sessionStartTime), from);
      assert calls + Burst(p, time, n) == before + [Call(p, time)];
    }
  }

  lemma BurstIsMonotone(calls: seq<Call>, p: Peer, time: int, n: nat)
    requires Monotone(calls, 0) && 0 <= time && (calls != [] ==> calls[|calls| - 1].time <= time)
    ensures Monotone(calls + Burst(p, time, n), 0)
  {
  }

  /** A first call, then n at the end of a second of the session and n at the start of the next. */
  function TwoBursts(p: Peer, n: nat): seq<Call> {
    [Call(p, 0)] + Burst(p, 1999, n) + Burst(p, 2000, n)
  }

  lemma TwoBurstsAreMonotone(p: Peer, n: nat)
    ensures Monotone(TwoBursts(p, n), 0)
  {
    BurstIsMonotone([Call(p, 0)], p, 1999, n);
    BurstIsMonotone([Call(p, 0)] + Burst(p, 1999, n), p, 2000, n);
  }

  lemma FirstCall(c: Config, p: Peer)
    requires c.maxTransactionsPerSecond >= 1 && c.cleanupIntervalMs > 2000
    ensures var s := After(c, 0, [Call(p, 0)]); s.lastCleanup == 0 && p in s.peers && s.peers[p] == PeerData(0, 0, 0, 1)
    ensures InWindow(History(c, 0, [Call(p, 0)], p), 1999) == 0
  {
    Granted(c, [], p, 0, PeerData(0, 0, 0, 0));
    assert [] + [Call(p, 0)] == [Call(p, 0)];
    hide After, History, InWindow, Handle;
    NoCalls(c, p);
    CountNone(1999);
    CountMore([], Accepted(0, 0), 1999);
  }

  /** Whatever the maximum, there is a run that reaches the bound: all its calls are granted, and twice the
      maximum of them lie within a millisecond. */
  lemma BoundIsAttained(c: Config, p: Peer)
    requires c.maxTransactionsPerSecond >= 1 && c.cleanupIntervalMs > 2000
    ensures var n := c.maxTransactionsPerSecond;
            Monotone(TwoBursts(p, n), 0) && InWindow(History(c, 0, TwoBursts(p, n), p), 1999) == 2 * n
  {
    hide After, History, InWindow, Handle, Burst, Monotone;
    var n := c.maxTransactionsPerSecond;
    TwoBurstsAreMonotone(p, n);
    FirstCall(c, p);
    BurstGranted(c, [Call(p, 0)], p, 1999, n, 1999);
    BurstGranted(c, [Call(p, 0)] + Burst(p, 1999, n), p, 2000, n, 1999);
  }

  lemma CountNone(from: int)
    ensures InWindow([], from) == 0
  {
  }

  lemma NoCalls(c: Config, p: Peer)
    ensures History(c, 0, [], p) == []
  {
  }
}
