// Derived keys are final, ephemeral scalars are used once, and rejected messages do no harm.
module SingleUse {
  import opened Wrappers
  import opened Symbols
  import GS = GroundStation
  import U = UavProtocol
  import opened Network
  import opened Invariants
  import opened Preservation
  import opened Runs
  import opened PeerAgreement

  // ---------- derived keys never change until a new session replaces them ----------

  // The event makes the UAV start Phase 2; without a regenerated key it is refused.
  predicate Restarts(c: Config, w: World, e: Event, u: int) {
    && e.Start2? && e.u == u && u in w.uavs
    && U.OnStart2(c.Uav(u), w.uavs[u], true, e.mk, e.now, e.nonce, e.scalar).outcome.Replied?
  }

  // The event makes the ground station accept an M1 as the UAV's.
  predicate Installs(c: Config, w: World, e: Event, id: int) {
    e.GsM1? && var o := GS.OnM1(c.Gs(), w.gs, e.m, e.now, e.nonce, e.scalar).outcome;
    o.Replied? && o.reply.receiver == id
  }

  // The event makes the UAV open an exchange with the peer: its own P1 is sent, or the peer's is accepted.
  predicate Opens(c: Config, w: World, e: Event, u: int, p: int) {
    if e.Start3? then
      && e.u == u && e.peer == p && u in w.uavs
      && U.OnStart3(c.Uav(u), w.uavs[u], p, e.now, e.nonce, e.scalar).outcome.Replied?
    else
      && e.UavP1? && e.u == u && u in w.uavs
      && var o := U.OnP1(c.Uav(u), w.uavs[u], e.m, e.now, e.nonce, e.scalar).outcome;
         o.Replied? && o.reply.receiver == p
  }

  lemma Phase2KeyStep(c: Config, w: World, e: Event, u: int)
    requires Inv(c, w) && Enabled(c, w, e) && u in w.uavs && !Restarts(c, w, e, u)
    requires w.uavs[u].phase2.sessionKey != Empty
    ensures u in Next(c, w, e).uavs && Next(c, w, e).uavs[u].phase2.sessionKey == w.uavs[u].phase2.sessionKey
  {
    hide Inv, UavOk, Deliverable, Regenerates,
      GS.OnM1, GS.OnM3, U.OnStart2, U.OnM2, U.OnM4, U.OnStart3, U.OnP1, U.OnP2, U.OnP3;
    Parts(c, w, u);
    match e {
      case GsM1(_, _, _, _) =>
      case GsM3(_) =>
      case Start2(v, mk, now, nonce, scalar) => if v == u { RefusedStart2(c.Uav(u), w.uavs[u], mk, now, nonce, scalar); }
      case UavM2(v, m, now) => if v == u { M2Final(c.Uav(u), c.ids, w.uavs[u], m, now); }
      case UavM4(v, m) => if v == u { M4Final(w.uavs[u], m); }
      case Start3(v, peer, now, nonce, scalar) => if v == u { Start3Final(c.Uav(u), w.uavs[u], peer, now, nonce, scalar); }
      case UavP1(v, m, now, nonce, scalar) => if v == u { OnP1Effect(c.Uav(u), w.uavs[u], m, now, nonce, scalar); }
      case UavP2(v, m) => if v == u { P2Final(w.uavs[u], m); }
      case UavP3(v, m) => if v == u { P3Final(w.uavs[u], m); }
    }
  }

  lemma RefusedStart2(c: U.Config, u: U.State, mk: Option<Term>, now: nat, n1: nat, scalar: nat)
    requires !U.OnStart2(c, u, true, mk, now, n1, scalar).outcome.Replied?
    ensures U.OnStart2(c, u, true, mk, now, n1, scalar).next == u
  {
    hide U.M1;
  }

  lemma M2Final(c: U.Config, ids: set<int>, u: U.State, m: Message, now: nat)
    requires UavOk(ids, c.id, u) && u.phase2.sessionKey != Empty
    ensures U.OnM2(c, u, m, now).next.phase2.sessionKey == u.phase2.sessionKey
    ensures !U.OnM2(c, u, m, now).outcome.Replied?
  {
    hide U.OnM2, PairCredential, ExchangeOk;
    OnM2Effect(c, u, m, now);
  }

  lemma M4Final(u: U.State, m: Message)
    ensures U.OnM4(u, m).next.phase2.sessionKey == u.phase2.sessionKey
    ensures U.OnM4(u, m).next.peers == u.peers
  {
    hide U.Opens;
  }

  lemma Start3Final(c: U.Config, u: U.State, peer: int, now: nat, nonce: nat, scalar: nat)
    ensures U.OnStart3(c, u, peer, now, nonce, scalar).next.phase2 == u.phase2
  {
    hide U.P1, U.Opening;
  }

  lemma P2Final(u: U.State, m: Message)
    ensures U.OnP2(u, m).next.phase2.sessionKey == u.phase2.sessionKey
  {
    hide U.P2Received, U.P3, Derive, Size;
  }

  lemma P3Final(u: U.State, m: Message)
    ensures U.OnP3(u, m).next.phase2.sessionKey == u.phase2.sessionKey
  {
    hide Derive;
  }

  lemma GsKeyStep(c: Config, w: World, e: Event, id: int)
    requires Inv(c, w) && Enabled(c, w, e) && id in w.gs.sessions && !Installs(c, w, e, id)
    requires w.gs.sessions[id].sessionKey != Empty
    ensures id in Next(c, w, e).gs.sessions
    ensures Next(c, w, e).gs.sessions[id].sessionKey == w.gs.sessions[id].sessionKey
  {
    hide Inv, UavOk, Deliverable, Regenerates, SessionOk, DeviceOk, Answered, GS.M4, GS.M2, GS.NewSession,
      GS.OnM1, GS.OnM3, U.OnStart2, U.OnM2, U.OnM4, U.OnStart3, U.OnP1, U.OnP2, U.OnP3;
    GsIs(c, w, id);
    match e {
      case GsM1(m, now, nonce, scalar) =>
        OnM1Effect(c.Gs(), w.gs, m, now, nonce, scalar);
      case GsM3(m) =>
        OnM3Effect(w.gs, m);
        if GS.OnM3(w.gs, m).outcome.Replied? {
          AnsweredHasNoSecret(id, w.gs.sessions[id]);
        }
      case _ =>
    }
  }

  lemma GsIs(c: Config, w: World, id: int)
    requires Inv(c, w) && id in w.gs.sessions
    ensures SessionOk(id, w.gs.sessions[id])
  {
    hide UavOk, CompletionOk, ResponseOk, ConfirmedOk, AnswerOk, IsRotation, SentOk, TidsOk, SessionOk, DeviceOk;
  }

  lemma AnsweredHasNoSecret(id: int, s: GS.Session)
    requires SessionOk(id, s) && s.sessionKey != Empty
    ensures Derive(s.ephemeral.secret, s.epkA).None?
  {
    hide TranscriptOk;
  }

  lemma PeerKeyStep(c: Config, w: World, e: Event, u: int, p: int)
    requires Inv(c, w) && Enabled(c, w, e) && u in w.uavs && p in w.uavs[u].peers && !Opens(c, w, e, u, p)
    requires !Open(w.uavs[u].peers[p])
    ensures u in Next(c, w, e).uavs && p in Next(c, w, e).uavs[u].peers
    ensures Next(c, w, e).uavs[u].peers[p].sessionKey == w.uavs[u].peers[p].sessionKey
    ensures !Open(Next(c, w, e).uavs[u].peers[p])
  {
    hide Inv, UavOk, Deliverable, Regenerates, ExchangeOk,
      GS.OnM1, GS.OnM3, U.OnStart2, U.OnM2, U.OnM4, U.OnStart3, U.OnP1, U.OnP2, U.OnP3;
    Parts(c, w, u);
    match e {
      case GsM1(_, _, _, _) =>
      case GsM3(_) =>
      case Start2(v, mk, now, nonce, scalar) =>
        if v == u { Start2Peers(c.Uav(u), w.uavs[u], mk, now, nonce, scalar); }
      case UavM2(v, m, now) => if v == u { OnM2Effect(c.Uav(u), w.uavs[u], m, now); }
      case UavM4(v, m) => if v == u { M4Final(w.uavs[u], m); }
      case Start3(v, peer, now, nonce, scalar) => if v == u { Start3Peers(c.Uav(u), w.uavs[u], peer, now, nonce, scalar, p); }
      case UavP1(v, m, now, nonce, scalar) =>
        if v == u { P1Peers(c.Uav(u), w.uavs[u], m, now, nonce, scalar, p); }
      case UavP2(v, m) => if v == u { PeerIds(c.ids, u, w.uavs[u]); P2Silent(w.uavs[u], m, p); }
      case UavP3(v, m) => if v == u { PeerIds(c.ids, u, w.uavs[u]); P3Silent(w.uavs[u], m, p); }
    }
  }

  lemma Start2Peers(c: U.Config, u: U.State, mk: Option<Term>, now: nat, n1: nat, scalar: nat)
    ensures U.OnStart2(c, u, true, mk, now, n1, scalar).next.peers == u.peers
  {
    hide U.M1;
  }

  lemma Start3Peers(c: U.Config, u: U.State, peer: int, now: nat, nonce: nat, scalar: nat, p: int)
    requires p in u.peers && (peer == p ==> !U.OnStart3(c, u, peer, now, nonce, scalar).outcome.Replied?)
    ensures var v := U.OnStart3(c, u, peer, now, nonce, scalar).next;
            p in v.peers && v.peers[p] == u.peers[p]
  {
    hide U.P1, U.Opening;
  }

  lemma P1Peers(c: U.Config, u: U.State, m: Message, now: nat, nonce: nat, scalar: nat, p: int)
    requires p in u.peers
    requires var o := U.OnP1(c, u, m, now, nonce, scalar).outcome; o.Replied? ==> o.reply.receiver != p
    ensures var v := U.OnP1(c, u, m, now, nonce, scalar).next;
            p in v.peers && v.peers[p] == u.peers[p]
  {
    hide U.OnP1, DecodeId, U.Answering, U.P2Answered;
    OnP1Effect(c, u, m, now, nonce, scalar);
  }

  // Once an exchange has derived its key, neither P2 nor P3 makes it derive again.
  lemma P2Silent(u: U.State, m: Message, p: int)
    requires p in u.peers && !Open(u.peers[p]) && forall q :: q in u.peers ==> u.peers[q].peerId == q
    ensures var s := U.OnP2(u, m);
            p in s.next.peers && s.next.peers[p].sessionKey == u.peers[p].sessionKey && !Open(s.next.peers[p])
    ensures m.sender == p ==> U.OnP2(u, m).outcome.Aborted?
  {
    hide U.P2Received, U.P3, Size;
  }

  lemma P3Silent(u: U.State, m: Message, p: int)
    requires p in u.peers && !Open(u.peers[p]) && forall q :: q in u.peers ==> u.peers[q].peerId == q
    ensures var s := U.OnP3(u, m);
            p in s.next.peers && s.next.peers[p].sessionKey == u.peers[p].sessionKey && !Open(s.next.peers[p])
    ensures m.sender == p ==> U.OnP3(u, m).outcome.Aborted?
  {}

  // No event of the run makes the UAV start Phase 2.
  predicate Unrestarted(c: Config, w: World, events: seq<Event>, u: int)
    requires Run(c, w, events).Some?
    decreases |events|
  {
    |events| > 0 ==>
      var n := |events| - 1;
      Unrestarted(c, w, events[..n], u) && !Restarts(c, Run(c, w, events[..n]).value, events[n], u)
  }

  // No event of the run makes the UAV open an exchange with the peer.
  predicate Unopened(c: Config, w: World, events: seq<Event>, u: int, p: int)
    requires Run(c, w, events).Some?
    decreases |events|
  {
    |events| > 0 ==>
      var n := |events| - 1;
      Unopened(c, w, events[..n], u, p) && !Opens(c, Run(c, w, events[..n]).value, events[n], u, p)
  }

  lemma {:induction false} Phase2KeyStays(c: Config, w: World, more: seq<Event>, u: int)
    requires Inv(c, w) && Run(c, w, more).Some? && u in w.uavs && w.uavs[u].phase2.sessionKey != Empty
    requires Unrestarted(c, w, more, u)
    ensures var v := Run(c, w, more).value;
            Inv(c, v) && u in v.uavs && v.uavs[u].phase2.sessionKey == w.uavs[u].phase2.sessionKey
    decreases |more|
  {
    hide Inv, Next, Enabled, Restarts;
    if |more| > 0 {
      var n := |more| - 1;
      Phase2KeyStays(c, w, more[..n], u);
      var v := Run(c, w, more[..n]).value;
      NextKeeps(c, v, more[n]);
      Phase2KeyStep(c, v, more[n], u);
    }
  }

  // A UAV's Phase 2 key, once derived, stays whatever arrives until the UAV starts Phase 2 again.
  lemma Phase2KeyFinal(c: Config, w0: World, events: seq<Event>, more: seq<Event>, u: int)
    requires c.Valid() && Initial(c, w0) && Run(c, w0, events).Some? && Run(c, Run(c, w0, events).value, more).Some?
    requires var w := Run(c, w0, events).value;
             Unrestarted(c, w, more, u) && u in w.uavs && w.uavs[u].phase2.sessionKey != Empty
    ensures var w := Run(c, w0, events).value;
            var v := Run(c, w, more).value;
            u in v.uavs && v.uavs[u].phase2.sessionKey == w.uavs[u].phase2.sessionKey
  {
    hide *;
    RunInv(c, w0, events);
    Phase2KeyStays(c, Run(c, w0, events).value, more, u);
  }

  // No event of the run installs a new session for the UAV.
  predicate Undisturbed(c: Config, w: World, events: seq<Event>, id: int)
    requires Run(c, w, events).Some?
    decreases |events|
  {
    |events| > 0 ==>
      var n := |events| - 1;
      Undisturbed(c, w, events[..n], id) && !Installs(c, Run(c, w, events[..n]).value, events[n], id)
  }

  lemma {:induction false} GsKeyStays(c: Config, w: World, more: seq<Event>, id: int)
    requires Inv(c, w) && Run(c, w, more).Some? && Undisturbed(c, w, more, id)
    requires id in w.gs.sessions && w.gs.sessions[id].sessionKey != Empty
    ensures var v := Run(c, w, more).value;
            Inv(c, v) && id in v.gs.sessions && v.gs.sessions[id].sessionKey == w.gs.sessions[id].sessionKey
    decreases |more|
  {
    hide Inv, Next, Enabled, Installs;
    if |more| > 0 {
      var n := |more| - 1;
      GsKeyStays(c, w, more[..n], id);
      var v := Run(c, w, more[..n]).value;
      NextKeeps(c, v, more[n]);
      GsKeyStep(c, v, more[n], id);
    }
  }

  // The ground station's key for a UAV, once derived, stays whatever arrives until a new M1 from that UAV is accepted.
  lemma GsKeyFinal(c: Config, w0: World, events: seq<Event>, more: seq<Event>, id: int)
    requires c.Valid() && Initial(c, w0) && Run(c, w0, events).Some? && Run(c, Run(c, w0, events).value, more).Some?
    requires var w := Run(c, w0, events).value;
             Undisturbed(c, w, more, id) && id in w.gs.sessions && w.gs.sessions[id].sessionKey != Empty
    ensures var w := Run(c, w0, events).value;
            var v := Run(c, w, more).value;
            id in v.gs.sessions && v.gs.sessions[id].sessionKey == w.gs.sessions[id].sessionKey
  {
    hide *;
    RunInv(c, w0, events);
    GsKeyStays(c, Run(c, w0, events).value, more, id);
  }

  lemma {:induction false} PeerKeyStays(c: Config, w: World, more: seq<Event>, u: int, p: int)
    requires Inv(c, w) && Run(c, w, more).Some? && u in w.uavs && p in w.uavs[u].peers && !Open(w.uavs[u].peers[p])
    requires Unopened(c, w, more, u, p)
    ensures var v := Run(c, w, more).value;
            && Inv(c, v) && u in v.uavs && p in v.uavs[u].peers && !Open(v.uavs[u].peers[p])
            && v.uavs[u].peers[p].sessionKey == w.uavs[u].peers[p].sessionKey
    decreases |more|
  {
    hide Inv, Next, Enabled, Opens, Open;
    if |more| > 0 {
      var n := |more| - 1;
      PeerKeyStays(c, w, more[..n], u, p);
      var v := Run(c, w, more[..n]).value;
      NextKeeps(c, v, more[n]);
      PeerKeyStep(c, v, more[n], u, p);
    }
  }

  // A peer key, once derived, stays whatever arrives until a new exchange with that peer is opened.
  lemma PeerKeyFinal(c: Config, w0: World, events: seq<Event>, more: seq<Event>, u: int, p: int)
    requires c.Valid() && Initial(c, w0) && Run(c, w0, events).Some? && Run(c, Run(c, w0, events).value, more).Some?
    requires var w := Run(c, w0, events).value;
             Unopened(c, w, more, u, p) && u in w.uavs && p in w.uavs[u].peers && !Open(w.uavs[u].peers[p])
    ensures var w := Run(c, w0, events).value;
            var v := Run(c, w, more).value;
            u in v.uavs && p in v.uavs[u].peers && v.uavs[u].peers[p].sessionKey == w.uavs[u].peers[p].sessionKey
  {
    hide *;
    RunInv(c, w0, events);
    PeerKeyStays(c, Run(c, w0, events).value, more, u, p);
  }

  // ---------- each ground-station session answers at most one M3 ----------

  function AnswersFor(answers: seq<Answer>, id: int): nat {
    if |answers| == 0 then 0 else
      AnswersFor(answers[..|answers| - 1], id) + if answers[|answers| - 1].uav == id then 1 else 0
  }

  predicate Done(w: World, id: int) { id in w.gs.sessions ==> w.gs.sessions[id].sessionKey != Empty }

  lemma {:induction false} AnsweredOnceMore(c: Config, w: World, events: seq<Event>, id: int)
    requires Inv(c, w) && Run(c, w, events).Some? && Undisturbed(c, w, events, id)
    ensures var v := Run(c, w, events).value;
            && Inv(c, v)
            && AnswersFor(v.answers, id) <= AnswersFor(w.answers, id) + (if Done(w, id) then 0 else 1)
            && (Done(w, id) || AnswersFor(v.answers, id) > AnswersFor(w.answers, id) ==> Done(v, id))
    decreases |events|
  {
    hide Inv, Next, Enabled, AnswersFor, Installs, Done;
    if |events| > 0 {
      var n := |events| - 1;
      AnsweredOnceMore(c, w, events[..n], id);
      var v := Run(c, w, events[..n]).value;
      NextKeeps(c, v, events[n]);
      AnswersOnce(c, v, events[n], id);
    }
  }

  // Continuing a reachable run without a new session for it, a UAV's session is answered at most once, and not at all
  // if it had been answered before.
  lemma AnsweredAtMostOnce(c: Config, w0: World, events: seq<Event>, more: seq<Event>, id: int)
    requires c.Valid() && Initial(c, w0) && Run(c, w0, events).Some? && Run(c, Run(c, w0, events).value, more).Some?
    requires Undisturbed(c, Run(c, w0, events).value, more, id)
    ensures var w := Run(c, w0, events).value;
            var v := Run(c, w, more).value;
            AnswersFor(v.answers, id) <= AnswersFor(w.answers, id) + (if Done(w, id) then 0 else 1)
  {
    hide *;
    RunInv(c, w0, events);
    AnsweredOnceMore(c, Run(c, w0, events).value, more, id);
  }

  lemma AnswersForSnoc(answers: seq<Answer>, a: Answer, id: int)
    ensures AnswersFor(answers + [a], id) == AnswersFor(answers, id) + if a.uav == id then 1 else 0
  {
    assert (answers + [a])[..|answers|] == answers;
  }

  lemma AnswersOnce(c: Config, w: World, e: Event, id: int)
    requires Inv(c, w) && Enabled(c, w, e) && !Installs(c, w, e, id)
    ensures var v := Next(c, w, e);
            && AnswersFor(v.answers, id) <= AnswersFor(w.answers, id) + (if Done(w, id) then 0 else 1)
            && (Done(w, id) || AnswersFor(v.answers, id) > AnswersFor(w.answers, id) ==> Done(v, id))
            && AnswersFor(v.answers, id) >= AnswersFor(w.answers, id)
  {
    hide Inv, UavOk, Deliverable, Regenerates, AnswersFor, GS.NewSession, GS.M2,
      GS.OnM1, GS.OnM3, U.OnStart2, U.OnM2, U.OnM4, U.OnStart3, U.OnP1, U.OnP2, U.OnP3, Answers, AnswerOf;
    if id in w.gs.sessions && w.gs.sessions[id].sessionKey != Empty { GsKeyStep(c, w, e, id); }
    match e {
      case GsM1(m, now, nonce, scalar) =>
        OnM1Effect(c.Gs(), w.gs, m, now, nonce, scalar);
      case GsM3(m) =>
        M3Once(c, w, m, id);
      case _ =>
    }
  }

  lemma M3Once(c: Config, w: World, m: Message, id: int)
    requires Inv(c, w) && Enabled(c, w, GsM3(m))
    ensures var v := Next(c, w, GsM3(m));
            && AnswersFor(w.answers, id) <= AnswersFor(v.answers, id) <= AnswersFor(w.answers, id) + (if Done(w, id) then 0 else 1)
            && (AnswersFor(v.answers, id) > AnswersFor(w.answers, id) || Done(w, id) ==> Done(v, id))
  {
    hide Inv, Deliverable, AnswersFor, GS.OnM3, SessionOk, GS.PackageFor, GS.Rotated, Derive;
    var s := GS.OnM3(w.gs, m);
    OnM3Effect(w.gs, m);
    if Answers(s) { AnswersForSnoc(w.answers, AnswerOf(s), id); }
    if id in w.gs.sessions {
      GsIs(c, w, id);
      if w.gs.sessions[id].sessionKey != Empty { AnsweredHasNoSecret(id, w.gs.sessions[id]); }
    }
  }

  // ---------- rejected messages do no harm ----------

  // The state after a sequence of M3 messages.
  function Feed(g: GS.State, ms: seq<Message>): GS.State
    decreases |ms|
  {
    if |ms| == 0 then g else GS.OnM3(Feed(g, ms[..|ms| - 1]), ms[|ms| - 1]).next
  }

  predicate AllRejected(g: GS.State, ms: seq<Message>)
    decreases |ms|
  {
    |ms| > 0 ==> AllRejected(g, ms[..|ms| - 1])
                 && GS.OnM3(Feed(g, ms[..|ms| - 1]), ms[|ms| - 1]).outcome.Aborted?
  }

  // Sessions differ at most in a mark on those that can no longer derive a key.
  predicate SameButMarks(g: GS.State, h: GS.State) {
    && h.devices == g.devices && h.sessions.Keys == g.sessions.Keys
    && forall id :: id in g.sessions ==>
         h.sessions[id] == g.sessions[id]
         || (Derive(g.sessions[id].ephemeral.secret, g.sessions[id].epkA).None?
             && h.sessions[id] == g.sessions[id].(m3Verified := true))
  }

  lemma RejectedOnce(g: GS.State, h: GS.State, m: Message)
    requires SameButMarks(g, h) && GS.OnM3(h, m).outcome.Aborted?
    ensures SameButMarks(g, GS.OnM3(h, m).next)
  {
    hide GS.OnM3, Derive, GS.M4;
    OnM3Effect(h, m);
  }

  lemma {:induction false} RejectedMany(g: GS.State, ms: seq<Message>)
    requires AllRejected(g, ms)
    ensures SameButMarks(g, Feed(g, ms))
    decreases |ms|
  {
    hide GS.OnM3, SameButMarks;
    if |ms| > 0 {
      RejectedMany(g, ms[..|ms| - 1]);
      RejectedOnce(g, Feed(g, ms[..|ms| - 1]), ms[|ms| - 1]);
    } else {
      SameAsItself(g);
    }
  }

  lemma SameAsItself(g: GS.State) ensures SameButMarks(g, g) {}

  // An M3 that would be answered is answered in the same way after any number of rejected ones.
  lemma RejectedM3Harmless(g: GS.State, ms: seq<Message>, m: Message)
    requires AllRejected(g, ms) && GS.OnM3(g, m).outcome.Replied?
    ensures GS.OnM3(Feed(g, ms), m).outcome == GS.OnM3(g, m).outcome
  {
    hide AllRejected, Feed, GS.DeviceWith, GS.PackageFor;
    RejectedMany(g, ms);
  }

  // Handling the messages into which no clock and no draw enters; any other kind is refused by each of the three.
  function OnReply(u: U.State, m: Message): U.Step {
    match m.kind
    case M4GsConfirm => U.OnM4(u, m)
    case P2PeerResponse => U.OnP2(u, m)
    case P3PeerComplete => U.OnP3(u, m)
    case _ => U.Step(u, Aborted(UnexpectedMessage))
  }

  // The state after a sequence of M4, P2 and P3 messages, in any order and from anybody.
  function FeedReplies(u: U.State, ms: seq<Message>): U.State
    decreases |ms|
  {
    if |ms| == 0 then u else OnReply(FeedReplies(u, ms[..|ms| - 1]), ms[|ms| - 1]).next
  }

  predicate AllRefused(u: U.State, ms: seq<Message>)
    decreases |ms|
  {
    |ms| > 0 ==> AllRefused(u, ms[..|ms| - 1])
                 && OnReply(FeedReplies(u, ms[..|ms| - 1]), ms[|ms| - 1]).outcome.Aborted?
  }

  // A rejected M4 or P3 changes nothing at all.
  lemma RejectedM4(u: U.State, m: Message)
    requires U.OnM4(u, m).outcome.Aborted?
    ensures U.OnM4(u, m).next == u
  {
    hide U.Opens;
  }

  lemma RejectedP3(u: U.State, m: Message)
    requires U.OnP3(u, m).outcome.Aborted?
    ensures U.OnP3(u, m).next == u
  {
    hide Derive, U.WithCredential;
  }

  // Exchanges differ at most in what handling P2 stores before it has verified, or derived, anything.
  predicate SameUpToNotes(x: U.Exchange, y: U.Exchange) {
    y == if x.initiator then x.(nonceRemote := y.nonceRemote, epkRemote := y.epkRemote, p2 := y.p2) else x
  }

  predicate SameButNotes(u: U.State, h: U.State) {
    && h.phase2 == u.phase2 && h.tid == u.tid && h.recent == u.recent && h.peers.Keys == u.peers.Keys
    && forall p :: p in u.peers ==> SameUpToNotes(u.peers[p], h.peers[p])
  }

  lemma NotesOnly(x: U.Exchange, y: U.Exchange, m: Message)
    requires SameUpToNotes(x, y) && y.initiator && m.Has({NONCE_2, EPK_B})
    ensures SameUpToNotes(x, Noted(y, m)) && SameUpToNotes(x, Confirmed(y, m))
    ensures Confirmed(y, m) == Confirmed(x, m)
  {
    hide EncodeId;
  }

  predicate PeersKnown(u: U.State) { forall p :: p in u.peers ==> u.peers[p].peerId == p }

  lemma RejectedP2(u: U.State, h: U.State, m: Message)
    requires SameButNotes(u, h) && PeersKnown(h) && U.OnP2(h, m).outcome.Aborted?
    ensures SameButNotes(u, U.OnP2(h, m).next) && PeersKnown(U.OnP2(h, m).next)
  {
    hide U.OnP2, SameUpToNotes, Noted, Confirmed, U.P3, U.WithCredential, Derive, Finished;
    OnP2Effect(h, m);
    if U.OnP2(h, m).next != h {
      NotesOnly(u.peers[m.sender], h.peers[m.sender], m);
      NotesKeepPeer(h.peers[m.sender], m);
    }
  }

  lemma NotesKeepPeer(x: U.Exchange, m: Message)
    requires m.Has({NONCE_2, EPK_B})
    ensures Noted(x, m).peerId == x.peerId && Confirmed(x, m).peerId == x.peerId
  {
    hide U.P2Received;
  }

  lemma {:induction false} RefusedMany(u: U.State, ms: seq<Message>)
    requires AllRefused(u, ms) && PeersKnown(u)
    ensures SameButNotes(u, FeedReplies(u, ms)) && PeersKnown(FeedReplies(u, ms))
    decreases |ms|
  {
    hide U.OnM4, U.OnP2, U.OnP3, SameButNotes, PeersKnown;
    if |ms| > 0 {
      var h, m := FeedReplies(u, ms[..|ms| - 1]), ms[|ms| - 1];
      RefusedMany(u, ms[..|ms| - 1]);
      match m.kind {
        case M4GsConfirm => RejectedM4(h, m);
        case P2PeerResponse => RejectedP2(u, h, m);
        case P3PeerComplete => RejectedP3(h, m);
        case _ =>
      }
    } else {
      NoNotes(u);
    }
  }

  lemma NoNotes(u: U.State) ensures SameButNotes(u, u) {}

  // Whatever rejected M4s, P2s and P3s have stored, in any order: an M4, P2 or P3 that would have succeeded before them
  // gets the same reply, and leaves the same identity, Phase 2 session and exchange, keys included.
  lemma RejectedHarmless(u: U.State, ms: seq<Message>, m: Message)
    requires PeersKnown(u) && AllRefused(u, ms) && !OnReply(u, m).outcome.Aborted?
    ensures OnReply(FeedReplies(u, ms), m).outcome == OnReply(u, m).outcome
    ensures var s, t := OnReply(u, m).next, OnReply(FeedReplies(u, ms), m).next;
            && t.tid == s.tid && t.phase2 == s.phase2
            && (m.kind != M4GsConfirm ==> m.sender in s.peers && m.sender in t.peers && t.peers[m.sender] == s.peers[m.sender])
  {
    hide AllRefused, FeedReplies, U.OnM4, U.OnP2, U.OnP3, SameButNotes, PeersKnown;
    RefusedMany(u, ms);
    var h := FeedReplies(u, ms);
    match m.kind {
      case M4GsConfirm => SameM4(u, h, m);
      case P2PeerResponse => SameP2(u, h, m);
      case P3PeerComplete => SameP3(u, h, m);
    }
  }

  lemma SameM4(u: U.State, h: U.State, m: Message)
    requires SameButNotes(u, h)
    ensures U.OnM4(h, m).outcome == U.OnM4(u, m).outcome
    ensures U.OnM4(h, m).next.tid == U.OnM4(u, m).next.tid && U.OnM4(h, m).next.phase2 == U.OnM4(u, m).next.phase2
  {
    hide SameUpToNotes;
  }

  lemma SameP2(u: U.State, h: U.State, m: Message)
    requires SameButNotes(u, h) && PeersKnown(u) && PeersKnown(h) && !U.OnP2(u, m).outcome.Aborted?
    ensures U.OnP2(h, m).outcome == U.OnP2(u, m).outcome
    ensures var s, t := U.OnP2(u, m).next, U.OnP2(h, m).next;
            && t.tid == s.tid && t.phase2 == s.phase2
            && m.sender in s.peers && m.sender in t.peers && t.peers[m.sender] == s.peers[m.sender]
  {
    hide U.OnP2, Noted, Confirmed, U.P3, U.WithCredential, Derive, Finished, SameUpToNotes;
    P2Replies(u, m);
    OnP2Effect(u, m);
    NotesKeepInitiator(u.peers[m.sender], h.peers[m.sender]);
    NotesOnly(u.peers[m.sender], h.peers[m.sender], m);
    GenuineP2(u, h, m);
    OnP2Effect(h, m);
  }

  lemma P2Replies(u: U.State, m: Message)
    ensures !U.OnP2(u, m).outcome.Accepted?
  {
    hide U.P2Received, U.P3, Derive, Size;
  }

  // A responder's exchange has no notes.
  lemma SameP3(u: U.State, h: U.State, m: Message)
    requires SameButNotes(u, h) && PeersKnown(u) && PeersKnown(h) && !U.OnP3(u, m).outcome.Aborted?
    ensures U.OnP3(h, m).outcome == U.OnP3(u, m).outcome
    ensures var s, t := U.OnP3(u, m).next, U.OnP3(h, m).next;
            && t.tid == s.tid && t.phase2 == s.phase2
            && m.sender in s.peers && m.sender in t.peers && t.peers[m.sender] == s.peers[m.sender]
  {
    hide Derive, U.WithCredential;
  }

  lemma NotesKeepInitiator(x: U.Exchange, y: U.Exchange)
    requires SameUpToNotes(x, y)
    ensures y.initiator == x.initiator && y.authKey == x.authKey && y.ephemeral == x.ephemeral
  {}

  lemma GenuineP2(u: U.State, h: U.State, m: Message)
    requires U.OnP2(u, m).outcome.Replied? && m.sender in u.peers && m.sender in h.peers
    requires h.phase2 == u.phase2 && h.peers[m.sender].initiator && m.Has({NONCE_2, EPK_B})
    requires h.peers[m.sender].authKey == u.peers[m.sender].authKey
    requires h.peers[m.sender].ephemeral == u.peers[m.sender].ephemeral
    requires Confirmed(h.peers[m.sender], m) == Confirmed(u.peers[m.sender], m)
    ensures U.OnP2(h, m).outcome.Replied?
  {
    hide Derive, U.P2Received, U.P3, U.WithCredential, Size;
  }
}
