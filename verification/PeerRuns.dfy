// Runs that reach Phase 3: one in which both ends agree, and one in which a restart leaves them with different keys.
module PeerRuns {
  import opened Wrappers
  import opened Symbols
  import GS = GroundStation
  import U = UavProtocol
  import opened Network
  import opened Invariants
  import opened Preservation
  import opened Runs
  import opened Agreement
  import opened PeerAgreement
  import opened HonestRun
  import opened Stranding

  // A recognised identity and unseen nonces are all a session needs.
  lemma ReadyFrom(c: Config, w: World, id: int, n1: nat, n2: nat)
    requires Inv(c, w) && id in c.ids && id in w.uavs && id in w.gs.devices
    requires GS.Holds(w.gs.devices[id], w.uavs[id].tid) && w.uavs[id].peers == map[]
    requires Nonce(n1) !in w.gs.recent && Nonce(n2) !in w.uavs[id].recent
    requires n1 != n2 && Nonce(n1) !in w.sent && Nonce(n2) !in w.sent
    ensures Ready(c, w, id, n1, n2)
  {
    hide GS.DeviceWith, Inv, SessionOk, Phase2Ok, CredsOk, PeersOk;
    GsIsOk(c, w);
    Parts(c, w, id);
    UavParts(c.ids, id, w.uavs[id]);
    var found := GS.DeviceWith(w.gs.devices, w.uavs[id].tid);
    if found.Some? { HoldsOwn(c.ids, w.gs, id, w.uavs[id].tid, found.value); }
  }

  // The UAV has completed Phase 2 and holds its credential with the peer.
  predicate Admitted(w: World, u: int, p: int) {
    && u in w.uavs && w.uavs[u].phase2.established
    && p in w.uavs[u].phase2.creds && w.uavs[u].phase2.creds[p] == PairCredential(u, p)
  }

  // Both UAVs of a pair are ready for their first exchange.
  predicate Paired(w: World, i: int, j: int) {
    && Admitted(w, i, j) && Admitted(w, j, i)
    && w.uavs[i].peers == map[] && w.uavs[j].peers == map[]
    && Nonce(9) !in w.uavs[j].recent
  }

  lemma BothPaired(c: Config, w0: World, i: int, j: int) returns (events: seq<Event>, w: World)
    requires c.Valid() && Initial(c, w0) && i in c.ids && j in c.ids && i != j
    ensures Run(c, w0, events) == Some(w) && Paired(w, i, j) && Careful(c, w0, events) && Fresh(c, w0, events)
  {
    hide Run, Careful, Fresh, GS.DeviceWith, Next, Enabled, GS.RC.Last, Ready, Inv, PairCredential;
    InitialParts(c, w0, i);
    InitialParts(c, w0, j);
    InitialInv(c, w0);
    ReadyFrom(c, w0, i, 1, 3);
    var first, v1, m4 := UpToM4(c, w0, i, 0, 1, 2, 3, 4);
    var w1 := Next(c, v1, UavM4(i, m4));
    RunExtends(c, w0, first, UavM4(i, m4));
    RunInv(c, w0, first + [UavM4(i, m4)]);
    LastOfOne(Nonce(1), c.capacity);
    assert w0.gs.recent + [Nonce(1)] == [Nonce(1)];
    ReadyFrom(c, w1, j, 5, 7);
    var second, v2, m4' := UpToM4(c, w1, j, 0, 5, 6, 7, 8);
    w := Next(c, v2, UavM4(j, m4'));
    events := first + [UavM4(i, m4)] + second + [UavM4(j, m4')];
    RunConcat(c, w0, first + [UavM4(i, m4)], second);
    RunExtends(c, w0, first + [UavM4(i, m4)] + second, UavM4(j, m4'));
    CarefulExtends(c, w0, first, UavM4(i, m4));
    CarefulConcat(c, w0, first + [UavM4(i, m4)], second);
    CarefulExtends(c, w0, first + [UavM4(i, m4)] + second, UavM4(j, m4'));
    FreshExtends(c, w0, first, UavM4(i, m4));
    FreshConcat(c, w0, first + [UavM4(i, m4)], second);
    FreshExtends(c, w0, first + [UavM4(i, m4)] + second, UavM4(j, m4'));
    LastOfOne(Nonce(7), c.capacity);
    assert w0.uavs[j].recent + [Nonce(7)] == [Nonce(7)];
    CredentialIs(w0.gs.devices, i, j);
    CredentialIs(w1.gs.devices, j, i);
  }

  lemma InitialParts(c: Config, w0: World, id: int)
    requires Initial(c, w0) && id in c.ids
    ensures id in w0.uavs && id in w0.gs.devices && w0.gs.recent == [] && w0.uavs[id].recent == []
    ensures w0.sent == {} && w0.uavs[id].peers == map[] && GS.Holds(w0.gs.devices[id], w0.uavs[id].tid)
    ensures w0.gs.devices[id].tid == FirstTid(Master(id), id) == w0.uavs[id].tid
  {}

  lemma CredentialIs(devices: map<int, GS.Device>, id: int, peer: int)
    requires peer in devices && peer != id
    ensures peer in GS.CredentialsFor(devices, id) && GS.CredentialsFor(devices, id)[peer] == PairCredential(id, peer)
  {}

  // A peer exchange up to the point where the initiator has sent P3.
  lemma UpToP3(c: Config, w: World, i: int, j: int) returns (events: seq<Event>, v: World, p3: Message)
    requires Paired(w, i, j) && ValidId(i) && ValidId(j) && i != j
    ensures Run(c, w, events) == Some(v) && p3.sender == i && Deliverable(p3, v.sent) && Careful(c, w, events) && Fresh(c, w, events)
    ensures i in v.uavs && j in v.uavs && Admitted(v, i, j) && Admitted(v, j, i)
    ensures U.OnP3(v.uavs[j], p3).outcome == Accepted
    ensures Authentic(v.uavs[j], j, i) && Holds(v.uavs[j], i) && i in U.OnP3(v.uavs[j], p3).next.peers
    ensures j in v.uavs[i].peers && v.uavs[i].peers[j] in v.completions
    ensures var done := U.OnP3(v.uavs[j], p3).next.peers[i];
            SameMessages(v.uavs[i].peers[j], done) && v.uavs[i].peers[j].sessionKey == done.sessionKey
  {
    hide U.OnStart3, U.OnP1, U.OnP2, U.OnP3, Deliverable, Fields, PairCredential, ValidId;
    PairCredentialUnique(i, j, i, j);
    NotEmpty(j, i);
    Phase3Completes(c, i, j, w.uavs[i], w.uavs[j], 0, 9, 10, 11, 12);
    var e1 := Start3(i, j, 0, 9, 10);
    var s1 := U.OnStart3(c.Uav(i), w.uavs[i], j, 0, 9, 10);
    var p1 := s1.outcome.reply;
    var w1 := Next(c, w, e1);
    ReplyDeliverable(p1, w1.sent);
    var e2 := UavP1(j, p1, 0, 11, 12);
    var r1 := U.OnP1(c.Uav(j), w.uavs[j], p1, 0, 11, 12);
    var p2 := r1.outcome.reply;
    var w2 := Next(c, w1, e2);
    ReplyDeliverable(p2, w2.sent);
    P2Sender(c, w.uavs[j], p1);
    var e3 := UavP2(i, p2);
    p3 := U.OnP2(s1.next, p2).outcome.reply;
    v := Next(c, w2, e3);
    ReplyDeliverable(p3, v.sent);
    events := [e1, e2, e3];
    ThreeSteps(c, w, e1, w1, e2, w2, e3, v);
    ThreeCareful(c, w, e1, e2, e3);
    ThreeFresh(c, w, e1, e2, e3);
  }

  lemma P2Sender(c: Config, v: U.State, p1: Message)
    ensures forall j, now, n, x :: var r := U.OnP1(c.Uav(j), v, p1, now, n, x).outcome; r.Replied? ==> r.reply.sender == j
  {
    hide U.RC.Last, DecodeId, DecodeStamp, TimestampFresh, U.Answering, U.P1Received, U.P2Answered;
  }

  lemma ThreeSteps(c: Config, w: World, e1: Event, w1: World, e2: Event, w2: World, e3: Event, w3: World)
    requires Enabled(c, w, e1) && w1 == Next(c, w, e1) && Enabled(c, w1, e2) && w2 == Next(c, w1, e2)
    requires Enabled(c, w2, e3) && w3 == Next(c, w2, e3)
    ensures Run(c, w, [e1, e2, e3]) == Some(w3)
  {
    hide Next, Enabled;
    assert Run(c, w, []) == Some(w);
    assert [e1][..0] == [] && Run(c, w, [e1]) == Some(w1);
    assert [e1, e2][..1] == [e1] && Run(c, w, [e1, e2]) == Some(w2);
    assert [e1, e2, e3][..2] == [e1, e2];
  }

  lemma ThreeCareful(c: Config, w: World, e1: Event, e2: Event, e3: Event)
    requires !e1.Start2? && !e2.Start2? && !e3.Start2?
    ensures Careful(c, w, [e1, e2, e3])
  {
    CarefulExtends(c, w, [], e1);
    CarefulExtends(c, w, [] + [e1], e2);
    CarefulExtends(c, w, [] + [e1] + [e2], e3);
    assert [e1, e2, e3] == [] + [e1] + [e2] + [e3];
  }

  lemma ThreeFresh(c: Config, w: World, e1: Event, e2: Event, e3: Event)
    requires !e1.Start2? && !e1.GsM1? && !e2.Start2? && !e2.GsM1? && !e3.Start2? && !e3.GsM1?
    ensures Fresh(c, w, [e1, e2, e3])
  {
    FreshExtends(c, w, [], e1);
    FreshExtends(c, w, [] + [e1], e2);
    FreshExtends(c, w, [] + [e1] + [e2], e3);
    assert [e1, e2, e3] == [] + [e1] + [e2] + [e3];
  }

  // In a run in which both UAVs have completed Phase 2, the responder j finally accepts the message of the initiator i,
  // and i has completed the exchange with the same messages and the same key.
  predicate Agrees(c: Config, w0: World, events: seq<Event>, i: int, j: int, m: Message) {
    var r := Run(c, w0, events);
    && r.Some? && Careful(c, w0, events) && Fresh(c, w0, events) && Enabled(c, r.value, UavP3(j, m)) && m.sender == i
    && Admitted(r.value, i, j) && Admitted(r.value, j, i)
    && U.OnP3(r.value.uavs[j], m).outcome == Accepted && i in U.OnP3(r.value.uavs[j], m).next.peers
    && var done := U.OnP3(r.value.uavs[j], m).next.peers[i];
       exists x :: x in r.value.completions && SameMessages(x, done) && x.sessionKey == done.sessionKey
  }

  // Every pair of UAVs can establish a key, from enrolment.
  lemma AgreeingRunExists(c: Config, w0: World, i: int, j: int)
    requires c.Valid() && Initial(c, w0) && i in c.ids && j in c.ids && i != j
    ensures exists events, m :: Agrees(c, w0, events, i, j, m)
  {
    hide Run, Next, Careful, Fresh, Deliverable, U.OnP3, Paired, SameMessages, Authentic, Holds;
    var first, w := BothPaired(c, w0, i, j);
    var second, v, p3 := UpToP3(c, w, i, j);
    RunConcat(c, w0, first, second);
    CarefulConcat(c, w0, first, second);
    FreshConcat(c, w0, first, second);
    assert Agrees(c, w0, first + second, i, j, p3);
  }

  // The run ends where the responder j accepts the genuine message of an exchange with the initiator i authenticated
  // with the pair's credential, its peer has the same messages and used that credential, and yet the keys differ; the responder is
  // left with an empty credential, under which it opens further exchanges.
  ghost predicate Diverges(c: Config, w0: World, events: seq<Event>, i: int, j: int, m: Message) {
    var r := Run(c, w0, events);
    && r.Some? && m.sender == i && Enabled(c, r.value, UavP3(j, m)) && Authentic(r.value.uavs[j], j, m.sender)
    && U.OnP3(r.value.uavs[j], m).outcome == Accepted
    && var s := U.OnP3(r.value.uavs[j], m).next;
       && m.sender in s.peers && m.sender in s.phase2.creds && s.phase2.creds[m.sender] == Empty
       && (forall now, nonce, scalar :: U.OnStart3(c.Uav(j), s, m.sender, now, nonce, scalar).outcome
             == Replied(U.P1(c.Uav(j), m.sender, PeerAuthKey(Empty), now, nonce, scalar)))
       && exists x :: x in r.value.completions && SameMessages(x, s.peers[m.sender]) && UsesPair(x)
                      && x.sessionKey != s.peers[m.sender].sessionKey
  }

  // What a restart of Phase 2 leaves: the exchanges as they were, and no credential.
  lemma AfterRestart(c: U.Config, u: U.State, now: nat, n1: nat, scalar: nat)
    ensures var s := U.OnStart2(c, u, true, Some(Master(c.id)), now, n1, scalar).next;
            s.peers == u.peers && s.phase2.creds == map[]
  {
    hide U.M1;
  }

  // The genuine P3 is accepted after the restart as well, with the empty credential.
  lemma AcceptedAfterRestart(u: U.State, s: U.State, m: Message, p: int)
    requires U.OnP3(u, m).outcome == Accepted && m.sender == p && p in u.peers && u.peers[p].peerId == p
    requires s.peers == u.peers && s.phase2.creds == map[]
    ensures U.OnP3(s, m).outcome == Accepted
    ensures var n := U.OnP3(s, m).next;
            && p in n.peers && p in n.phase2.creds && n.phase2.creds[p] == Empty
            && U.OnP3(u, m).next.peers.Keys == n.peers.Keys
            && n.peers[p].localId == U.OnP3(u, m).next.peers[p].localId
            && n.peers[p].peerId == U.OnP3(u, m).next.peers[p].peerId
            && n.peers[p].p1 == U.OnP3(u, m).next.peers[p].p1 && n.peers[p].p2 == U.OnP3(u, m).next.peers[p].p2
  {
    hide Derive;
  }

  lemma OpensUnderEmpty(c: U.Config, s: U.State, p: int)
    requires p in s.phase2.creds && s.phase2.creds[p] == Empty
    ensures forall now, nonce, scalar :: U.OnStart3(c, s, p, now, nonce, scalar).outcome
              == Replied(U.P1(c, p, PeerAuthKey(Empty), now, nonce, scalar))
  {
    hide U.P1, U.Opening;
  }

  // For every pair of UAVs some run from enrolment leaves them with different keys for the same exchange.
  lemma DivergingRunExists(c: Config, w0: World, i: int, j: int)
    requires c.Valid() && Initial(c, w0) && i in c.ids && j in c.ids && i != j
    ensures exists events, m :: Diverges(c, w0, events, i, j, m)
  {
    hide *;
    IdsValid(c, i, j);
    var first, w := BothPaired(c, w0, i, j);
    var second, v, p3 := UpToP3(c, w, i, j);
    RunConcat(c, w0, first, second);
    var events := first + second;
    var x := v.uavs[i].peers[j];
    RunInv(c, w0, events);
    Parts(c, v, j);
    PeerIds(c.ids, j, v.uavs[j]);
    AuthenticIs(v.uavs[j], j, i);
    CompletionsAre(c, v, x);
    var e := Start2(j, Some(Master(j)), 0, 13, 14);
    var y := Restarted(c, w0, events, v, j, p3, e);
    AcceptedAfterRestart(v.uavs[j], y.uavs[j], p3, i);
    StillEnabled(c, v, j, p3);
    Phase3AgreementIff(c, w0, events, j, p3);
    StillAuthentic(v.uavs[j], y.uavs[j], j, i);
    Phase3AgreementIff(c, w0, events + [e], j, p3);
    SameStill(x, U.OnP3(v.uavs[j], p3).next.peers[i], U.OnP3(y.uavs[j], p3).next.peers[i]);
    assert !Holds(y.uavs[j], i) by { NothingHeld(y.uavs[j], i); }
    OpensUnderEmpty(c.Uav(j), U.OnP3(y.uavs[j], p3).next, i);
    DivergesHere(c, w0, events + [e], y, i, j, p3, x);
  }

  lemma IdsValid(c: Config, i: int, j: int)
    requires c.Valid() && i in c.ids && j in c.ids
    ensures ValidId(i) && ValidId(j)
  {}

  // Restarting Phase 2 is always possible, and what was deliverable stays so.
  lemma Restarted(c: Config, w0: World, events: seq<Event>, v: World, j: int, m: Message, e: Event) returns (y: World)
    requires Run(c, w0, events) == Some(v) && j in v.uavs && Deliverable(m, v.sent)
    requires e == Start2(j, Some(Master(j)), 0, 13, 14)
    ensures Run(c, w0, events + [e]) == Some(y) && j in y.uavs && Enabled(c, y, UavP3(j, m))
    ensures y.uavs[j].peers == v.uavs[j].peers && y.uavs[j].phase2.creds == map[]
    ensures y.completions == v.completions
  {
    hide Run, U.OnStart2;
    RunExtends(c, w0, events, e);
    AfterRestart(c.Uav(j), v.uavs[j], 0, 13, 14);
    y := Next(c, v, e);
  }

  lemma StillAuthentic(u: U.State, s: U.State, j: int, i: int)
    requires Authentic(u, j, i) && s.peers == u.peers
    ensures Authentic(s, j, i)
  {}

  lemma NothingHeld(s: U.State, p: int)
    requires s.phase2.creds == map[]
    ensures !Holds(s, p)
  {}

  lemma SameStill(x: U.Exchange, a: U.Exchange, b: U.Exchange)
    requires SameMessages(x, a) && b.localId == a.localId && b.peerId == a.peerId && b.p1 == a.p1 && b.p2 == a.p2
    ensures SameMessages(x, b)
  {}

  lemma StillEnabled(c: Config, v: World, j: int, m: Message)
    requires j in v.uavs && Deliverable(m, v.sent)
    ensures Enabled(c, v, UavP3(j, m))
  {}

  lemma DivergesHere(c: Config, w0: World, events: seq<Event>, y: World, i: int, j: int, m: Message, x: U.Exchange)
    requires m.sender == i
    requires Run(c, w0, events) == Some(y) && Enabled(c, y, UavP3(j, m)) && Authentic(y.uavs[j], j, m.sender)
    requires U.OnP3(y.uavs[j], m).outcome == Accepted
    requires var s := U.OnP3(y.uavs[j], m).next;
             && m.sender in s.peers && m.sender in s.phase2.creds && s.phase2.creds[m.sender] == Empty
             && (forall now, nonce, scalar :: U.OnStart3(c.Uav(j), s, m.sender, now, nonce, scalar).outcome
                   == Replied(U.P1(c.Uav(j), m.sender, PeerAuthKey(Empty), now, nonce, scalar)))
             && x in y.completions && SameMessages(x, s.peers[m.sender]) && UsesPair(x)
             && x.sessionKey != s.peers[m.sender].sessionKey
    ensures Diverges(c, w0, events, i, j, m)
  {
    hide Run, U.OnP3, U.OnStart3, U.P1, SameMessages, UsesPair, Authentic, Enabled;
  }
}
