// Runs in which no UAV restarts Phase 2 while one of its peer exchanges is open: no empty credential ever appears,
// and the agreement of Phase 3 is unconditional.
module CarefulRuns {
  import opened Wrappers
  import opened Symbols
  import GS = GroundStation
  import U = UavProtocol
  import opened Network
  import opened Invariants
  import opened Preservation
  import opened Runs
  import opened Agreement
  import opened PeerAgreement

  // No empty credential is held or was used, and an open exchange still finds the credential it was opened with.
  predicate Held(x: U.State) {
    && (forall p :: p in x.phase2.creds ==> x.phase2.creds[p] != Empty)
    && (forall p :: p in x.peers ==>
          x.peers[p].authKey != PeerAuthKey(Empty) && (Open(x.peers[p]) ==> p in x.phase2.creds))
  }

  predicate KeyHeld(x: U.Exchange) { x.sessionKey.PeerKey? ==> x.sessionKey.cred != Empty }

  ghost predicate AllHeld(w: World) {
    && (forall u :: u in w.uavs ==> Held(w.uavs[u]))
    && (forall x :: x in w.completions ==> KeyHeld(x))
  }

  lemma WithHeld(creds: map<int, Term>, p: int)
    requires p in creds
    ensures U.WithCredential(creds, p) == creds
  {}

  lemma Start2Held(c: U.Config, u: U.State, mk: Option<Term>, now: nat, n1: nat, scalar: nat)
    requires Held(u) && NoOpenExchange(u)
    ensures Held(U.OnStart2(c, u, true, mk, now, n1, scalar).next)
  {
    hide U.M1;
  }

  lemma M2Held(c: U.Config, u: U.State, m: Message, now: nat)
    requires Held(u)
    ensures Held(U.OnM2(c, u, m, now).next)
  {
    hide U.OnM2;
    OnM2Effect(c, u, m, now);
  }

  lemma M4Held(ids: set<int>, id: int, u: U.State, m: Message, answers: seq<Answer>)
    requires UavOk(ids, id, u) && Held(u) && forall i :: 0 <= i < |answers| ==> AnswerOk(ids, answers[i])
    requires CRED_PKG in m.fields && m.fields[CRED_PKG].Sealed? ==>
               exists i :: 0 <= i < |answers| && answers[i].sealed == m.fields[CRED_PKG]
    ensures Held(U.OnM4(u, m).next)
  {
    hide U.OnM4, TidOk, Phase2Ok, ExchangeOk, AnswerOk;
    OnM4Keeps(ids, id, u, m, answers);
  }

  lemma Start3Held(c: U.Config, u: U.State, peer: int, now: nat, nonce: nat, scalar: nat)
    requires Held(u)
    ensures Held(U.OnStart3(c, u, peer, now, nonce, scalar).next)
  {
    hide U.P1;
  }

  lemma P1Held(c: U.Config, u: U.State, m: Message, now: nat, nonce: nat, scalar: nat)
    requires Held(u)
    ensures Held(U.OnP1(c, u, m, now, nonce, scalar).next)
  {
    hide U.OnP1, U.P2, U.P1Received, U.P2Answered, DecodeId;
    OnP1Effect(c, u, m, now, nonce, scalar);
  }

  lemma NotedHeld(x: U.Exchange, m: Message)
    requires m.Has({NONCE_2, EPK_B})
    ensures Noted(x, m).authKey == x.authKey && Confirmed(x, m).authKey == x.authKey
    ensures Open(Noted(x, m)) == Open(x) == Open(Confirmed(x, m))
  {
    hide U.P2Received;
  }

  lemma FinishedHeld(x: U.Exchange, cred: Term, shared: Term)
    ensures var done := Finished(x, cred, shared);
            done.authKey == x.authKey && !Open(done) && done.sessionKey == PeerKey(cred, shared, x.p1 + x.p2)
  {}

  lemma P2Held(u: U.State, m: Message)
    requires Held(u) && forall p :: p in u.peers ==> u.peers[p].peerId == p
    ensures var s := U.OnP2(u, m);
            Held(s.next) && (s.outcome.Replied? && m.sender in s.next.peers ==> KeyHeld(s.next.peers[m.sender]))
  {
    hide U.OnP2, Noted, Confirmed, Finished, U.P3, U.WithCredential, Derive;
    OnP2Effect(u, m);
    if m.Has({NONCE_2, EPK_B}) && m.sender in u.peers {
      var x := u.peers[m.sender];
      NotedHeld(x, m);
      var y := Confirmed(x, m);
      if U.OnP2(u, m).outcome.Replied? {
        WithHeld(u.phase2.creds, m.sender);
        FinishedHeld(y, u.phase2.creds[m.sender], Derive(y.ephemeral.secret, y.epkRemote).value);
      }
    }
  }

  lemma P3Held(u: U.State, m: Message)
    requires Held(u) && forall p :: p in u.peers ==> u.peers[p].peerId == p
    ensures Held(U.OnP3(u, m).next)
  {
    hide U.OnP3, Finished, U.WithCredential, Derive;
    OnP3Effect(u, m);
    if U.OnP3(u, m).outcome.Accepted? {
      var r := u.peers[m.sender];
      WithHeld(u.phase2.creds, m.sender);
      FinishedHeld(r, u.phase2.creds[m.sender], Derive(r.ephemeral.secret, r.epkRemote).value);
    }
  }

  lemma AnswersOk(c: Config, w: World)
    requires Inv(c, w)
    ensures forall i :: 0 <= i < |w.answers| ==> AnswerOk(c.ids, w.answers[i])
  {
    hide GsOk, UavOk, CompletionOk, ConfirmedOk, ResponseOk, AnswerOk, IsRotation, SentOk, TidsOk;
  }

  lemma NextHeld(c: Config, w: World, e: Event)
    requires Inv(c, w) && Enabled(c, w, e) && AllHeld(w)
    requires e.Start2? ==> NoOpenExchange(w.uavs[e.u])
    ensures AllHeld(Next(c, w, e))
  {
    hide Inv, UavOk, Held, KeyHeld, Deliverable, Regenerates, NoOpenExchange, AnswerOk, Answers, AnswerOf, Fields,
      GS.OnM1, GS.OnM3, U.OnStart2, U.OnM2, U.OnM4, U.OnStart3, U.OnP1, U.OnP2, U.OnP3;
    match e {
      case GsM1(_, _, _, _) =>
      case GsM3(_) =>
      case Start2(u, mk, now, nonce, scalar) => Start2Held(c.Uav(u), w.uavs[u], mk, now, nonce, scalar);
      case UavM2(u, m, now) => M2Held(c.Uav(u), w.uavs[u], m, now);
      case UavM4(u, m) =>
        Parts(c, w, u);
        DeliveredTags(c, w, m);
        AnswersOk(c, w);
        M4Held(c.ids, u, w.uavs[u], m, w.answers);
      case Start3(u, peer, now, nonce, scalar) => Start3Held(c.Uav(u), w.uavs[u], peer, now, nonce, scalar);
      case UavP1(u, m, now, nonce, scalar) => P1Held(c.Uav(u), w.uavs[u], m, now, nonce, scalar);
      case UavP2(u, m) =>
        Parts(c, w, u);
        PeerIds(c.ids, u, w.uavs[u]);
        P2Held(w.uavs[u], m);
      case UavP3(u, m) =>
        Parts(c, w, u);
        PeerIds(c.ids, u, w.uavs[u]);
        P3Held(w.uavs[u], m);
    }
  }

  lemma {:induction false} RunHeld(c: Config, w0: World, events: seq<Event>)
    requires c.Valid() && Initial(c, w0) && Run(c, w0, events).Some? && Careful(c, w0, events)
    ensures AllHeld(Run(c, w0, events).value)
    decreases |events|
  {
    hide Next, Held, KeyHeld, Inv, NoOpenExchange, Initial;
    if |events| == 0 {
      InitialHeld(c, w0);
    } else {
      var n := |events| - 1;
      RunHeld(c, w0, events[..n]);
      RunInv(c, w0, events[..n]);
      NextHeld(c, Run(c, w0, events[..n]).value, events[n]);
    }
  }

  lemma InitialHeld(c: Config, w0: World)
    requires Initial(c, w0)
    ensures AllHeld(w0)
  {
    forall u | u in w0.uavs ensures Held(w0.uavs[u]) {
      assert u in w0.uavs.Keys;
      assert w0.uavs[u].phase2 == U.NO_SESSION && w0.uavs[u].peers == map[];
    }
  }

  // The initiator's completed exchange that a responder's acceptance comes from.
  predicate CompletedBy(x: U.Exchange, responder: U.Exchange) {
    SameMessages(x, responder) && x.sessionKey == responder.sessionKey
  }

  // Over careful runs: when a responder becomes established on P3, its peer had become established on P2 with the
  // same transcripts, and both have the same session key.
  lemma Phase3Agreement(c: Config, w0: World, events: seq<Event>, u: int, m: Message)
    requires c.Valid() && Initial(c, w0) && Run(c, w0, events).Some? && Careful(c, w0, events)
    requires Enabled(c, Run(c, w0, events).value, UavP3(u, m))
    requires U.OnP3(Run(c, w0, events).value.uavs[u], m).outcome.Accepted?
    ensures var s := U.OnP3(Run(c, w0, events).value.uavs[u], m).next;
            && m.sender in s.peers && s.peers[m.sender].established
            && exists x :: x in Run(c, w0, events).value.completions && CompletedBy(x, s.peers[m.sender])
  {
    hide *;
    RunInv(c, w0, events);
    RunHeld(c, w0, events);
    var w := Run(c, w0, events).value;
    P3EventIs(c, w, u, m);
    HeldIs(w, u);
    Parts(c, w, u);
    PeerIds(c.ids, u, w.uavs[u]);
    OnP3Effect(w.uavs[u], m);
    OpenIsAuthentic(c.ids, u, w.uavs[u], m.sender);
    Phase3AgreementIff(c, w0, events, u, m);
    var done := U.OnP3(w.uavs[u], m).next.peers[m.sender];
    var x :| x in w.completions && SameMessages(x, done);
    CompletionsAre(c, w, x);
    HeldUsesPair(c.ids, w, x);
    Completes(x, done);
  }

  lemma HeldIs(w: World, u: int)
    requires AllHeld(w) && u in w.uavs
    ensures Held(w.uavs[u])
  {
    hide Held;
  }

  lemma OpenIsAuthentic(ids: set<int>, u: int, x: U.State, p: int)
    requires UavOk(ids, u, x) && Held(x) && p in x.peers && Open(x.peers[p])
    ensures Authentic(x, u, p) && Holds(x, p)
  {
    hide TidOk, Phase2Ok, PairCredential, EncodeId;
  }

  lemma HeldUsesPair(ids: set<int>, w: World, x: U.Exchange)
    requires AllHeld(w) && x in w.completions && CompletionOk(ids, x)
    ensures UsesPair(x)
  {
    hide Held, EncodeId;
  }

  lemma Completes(x: U.Exchange, responder: U.Exchange)
    requires SameMessages(x, responder) && x.sessionKey == responder.sessionKey
    ensures CompletedBy(x, responder)
  {}

  // Over careful runs: two UAVs that both hold a credential for their pair hold the same one.
  lemma SameCredential(c: Config, w0: World, events: seq<Event>, a: int, b: int)
    requires c.Valid() && Initial(c, w0) && Run(c, w0, events).Some? && Careful(c, w0, events)
    requires var w := Run(c, w0, events).value;
             a in w.uavs && b in w.uavs && b in w.uavs[a].phase2.creds && a in w.uavs[b].phase2.creds
    ensures var w := Run(c, w0, events).value;
            w.uavs[a].phase2.creds[b] == w.uavs[b].phase2.creds[a] == PairCredential(a, b)
  {
    hide Run, Initial, PairCredential, Careful;
    RunHeld(c, w0, events);
    SameCredentialIff(c, w0, events, a, b);
  }
}
