// Undisturbed, the handshakes complete and both ends hold the same key.
module HonestRun {
  import opened Wrappers
  import opened Symbols
  import GS = GroundStation
  import U = UavProtocol
  import opened Network
  import opened Invariants

  // ---------- Phase 2 ----------

  lemma StartAnswers(c: Config, id: int, u: U.State, now: nat, n1: nat, x: nat)
    ensures var s := U.OnStart2(c.Uav(id), u, true, Some(Master(id)), now, n1, x);
            && s.outcome == Replied(U.M1(c.Uav(id), u, Master(id), now, n1, x))
            && s.next == u.(phase2 := s.next.phase2)
            && s.next.phase2 == U.NO_SESSION.(mk := Master(id), authKey := AuthKey(Master(id)), n1 := Nonce(n1), t1 := now,
                                 tidAtRequest := u.tid, ephemeral := Generate(x),
                                 transcript := [U.M1Signed(c.Uav(id), u, now, n1, x)])
  {
    hide U.M1;
  }

  lemma M1Accepted(c: Config, g: GS.State, id: int, u: U.State, now: nat, n1: nat, x: nat, n2: nat, y: nat)
    requires id in g.devices && g.devices[id].mk == Master(id) && GS.DeviceWith(g.devices, u.tid) == Some(id)
    requires Nonce(n1) !in g.recent
    ensures var m1 := U.M1(c.Uav(id), u, Master(id), now, n1, x);
            var s := GS.OnM1(c.Gs(), g, m1, now, n2, y);
            && m1.Has({TID, NONCE_1, TIMESTAMP, EPK_A})
            && s.outcome == Replied(GS.M2(m1, id, Master(id), now, n2, y))
            && s.next.devices == g.devices
            && s.next.sessions == g.sessions[id := GS.NewSession(m1, Master(id), now, now, n2, y)]
            && s.next.recent == GS.RC.Last(g.recent + [Nonce(n1)], c.capacity)
  {
    hide GS.DeviceWith, GS.RC.Last, GS.M2, GS.NewSession;
  }

  lemma M2Accepted(c: Config, id: int, u: U.State, v: U.State, now: nat, n1: nat, x: nat, n2: nat, y: nat)
    requires Nonce(n2) !in u.recent
    requires v == U.OnStart2(c.Uav(id), u, true, Some(Master(id)), now, n1, x).next
    ensures var m1 := U.M1(c.Uav(id), u, Master(id), now, n1, x);
            && m1.Has({TID, NONCE_1, TIMESTAMP, EPK_A})
            && var t := GS.NewSession(m1, Master(id), now, now, n2, y).transcript;
               var s := U.OnM2(c.Uav(id), v, GS.M2(m1, id, Master(id), now, n2, y), now);
               && s.outcome == Replied(U.M3(c.Uav(id), u.tid, c.suite, AuthKey(Master(id)), t))
               && s.next.tid == u.tid && s.next.peers == u.peers
               && s.next.recent == GS.RC.Last(u.recent + [Nonce(n2)], c.capacity)
               && s.next.phase2 == v.phase2.(n2 := Nonce(n2), transcript := t,
                    sessionKey := SessionKey(Master(id), Shared(x, y), t),
                    ephemeral := KeyPair(None, Share(x)), ephemeralErased := true)
  {
    hide U.RC.Last, U.M1, U.M3, U.OnStart2, U.M2Signed, GS.M2, GS.NewSession, Size, DecodeStamp, TimestampFresh, Derive, Shared;
    StartAnswers(c, id, u, now, n1, x);
    M2Carries(c, id, u, v, now, n1, x, n2, y);
  }

  // The genuine M2, as the UAV reads it.
  lemma M2Carries(c: Config, id: int, u: U.State, v: U.State, now: nat, n1: nat, x: nat, n2: nat, y: nat)
    requires v == u.(phase2 := v.phase2) && v.phase2.n1 == Nonce(n1) && v.phase2.ephemeral == Generate(x)
    requires v.phase2.transcript == [U.M1Signed(c.Uav(id), u, now, n1, x)]
    ensures var m1 := U.M1(c.Uav(id), u, Master(id), now, n1, x);
            && m1.Has({TID, NONCE_1, TIMESTAMP, EPK_A})
            && var m2 := GS.M2(m1, id, Master(id), now, n2, y);
               && m2.kind == M2GsResponse && m2.suite == c.suite && m2.Has({NONCE_2, TIMESTAMP, EPK_B, MAC_TAG})
               && m2.fields[NONCE_2] == Nonce(n2) && Size(m2.fields[NONCE_2]) == NONCE_LEN
               && Size(m2.fields[EPK_B]) == X25519_LEN && Derive(Some(x), m2.fields[EPK_B]) == Some(Shared(x, y))
               && DecodeStamp(m2.fields[TIMESTAMP]) == Some(now) && TimestampFresh(now, now, c.window)
               && m2.fields[MAC_TAG] == Mac(AuthKey(Master(id)), [U.M2Signed(v, m2)])
               && v.phase2.transcript + [U.M2Signed(v, m2)] == GS.NewSession(m1, Master(id), now, now, n2, y).transcript
  {}

  // The ground station's step on the genuine M3.
  function M3Step(g: GS.State, id: int, s: GS.Session, m3: Message, key: Term): GS.Step
    requires id in g.devices && m3.Has({TID})
  {
    var d := g.devices[id];
    var done := s.(m3Verified := true, sessionKey := key, ephemeral := s.ephemeral.Erase(), ephemeralErased := true);
    GS.Step(g.(devices := g.devices[id := d.(pendingTid := GS.Rotated(d, s))], sessions := g.sessions[id := done]),
            Replied(GS.M4(m3, id, s, key, GS.PackageFor(g.devices, id, s))))
  }

  lemma M3Accepted(c: Config, g: GS.State, id: int, s: GS.Session, tid: Term, x: nat, y: nat, m3: Message)
    requires id in g.devices && GS.DeviceWith(g.devices, tid) == Some(id) && id in g.sessions && g.sessions[id] == s
    requires g.devices[id].mk == Master(id)
    requires s.authKey == AuthKey(Master(id)) && s.ephemeral == Generate(y) && s.epkA == Share(x)
    requires m3 == U.M3(c.Uav(id), tid, c.suite, AuthKey(Master(id)), s.transcript) && m3.Has({TID})
    ensures GS.OnM3(g, m3) == M3Step(g, id, s, m3, SessionKey(Master(id), Shared(y, x), s.transcript))
  {
    hide GS.DeviceWith, GS.PackageFor, GS.Rotated, GS.M4;
  }

  lemma M4Accepted(c: Config, id: int, u: U.State, s: GS.Session, m3: Message, p: Package)
    requires m3.Has({TID}) && m3.fields[TID] == u.phase2.tidAtRequest
    requires u.phase2.sessionKey != Empty && u.phase2.n1 == s.n1 && u.phase2.n2 == s.n2
    requires p.tidNew != Empty
    ensures var r := U.OnM4(u, GS.M4(m3, id, s, u.phase2.sessionKey, p));
            && r.outcome == Accepted && r.next.tid == p.tidNew && r.next.phase2.creds == p.creds
            && r.next.phase2.sessionKey == u.phase2.sessionKey && r.next.phase2.established
            && r.next.peers == u.peers && r.next.recent == u.recent
  {}

  // An undisturbed Phase 2 with a recognised identity, the right response and unseen nonces succeeds at every
  // message; both ends then hold the same key, and the identity the UAV moves to is the one the ground station expects.
  lemma Phase2Completes(c: Config, g: GS.State, id: int, u: U.State, now: nat, n1: nat, x: nat, n2: nat, y: nat)
    requires id in g.devices && g.devices[id].mk == Master(id) && GS.DeviceWith(g.devices, u.tid) == Some(id)
    requires Nonce(n1) !in g.recent && Nonce(n2) !in u.recent
    ensures var s1 := U.OnStart2(c.Uav(id), u, true, Some(Master(id)), now, n1, x);
            && s1.outcome.Replied?
            && var g1 := GS.OnM1(c.Gs(), g, s1.outcome.reply, now, n2, y);
               && g1.outcome.Replied?
               && var s2 := U.OnM2(c.Uav(id), s1.next, g1.outcome.reply, now);
                  && s2.outcome.Replied?
                  && var g2 := GS.OnM3(g1.next, s2.outcome.reply);
                     && g2.outcome.Replied?
                     && var s3 := U.OnM4(s2.next, g2.outcome.reply);
                        && s3.outcome == Accepted && s3.next.phase2.established
                        && id in g2.next.sessions && id in g2.next.devices
                        && s3.next.phase2.sessionKey == g2.next.sessions[id].sessionKey != Empty
                        && s3.next.tid == g2.next.devices[id].pendingTid
                        && s3.next.phase2.creds == GS.CredentialsFor(g.devices, id)
    ensures var s1 := U.OnStart2(c.Uav(id), u, true, Some(Master(id)), now, n1, x);
            var g1 := GS.OnM1(c.Gs(), g, s1.outcome.reply, now, n2, y);
            var s2 := U.OnM2(c.Uav(id), s1.next, g1.outcome.reply, now);
            var g2 := GS.OnM3(g1.next, s2.outcome.reply);
            var s3 := U.OnM4(s2.next, g2.outcome.reply);
            var d := g.devices[id];
            && g2.next.devices == g.devices[id := d.(pendingTid := NextTid(d.mk, d.tid, Nonce(n1), Nonce(n2)))]
            && g2.next.recent == GS.RC.Last(g.recent + [Nonce(n1)], c.capacity)
            && s2.next.tid == u.tid && s3.next.peers == u.peers
            && s3.next.recent == GS.RC.Last(u.recent + [Nonce(n2)], c.capacity)
  {
    hide U.OnStart2, GS.OnM1, U.OnM2, GS.OnM3, U.OnM4, U.M1, GS.M2, U.M3, GS.M4, GS.CredentialsFor, GS.IdentitiesFor,
      GS.DeviceWith;
    StartAnswers(c, id, u, now, n1, x);
    M1Accepted(c, g, id, u, now, n1, x, n2, y);
    var v := U.OnStart2(c.Uav(id), u, true, Some(Master(id)), now, n1, x).next;
    M2Accepted(c, id, u, v, now, n1, x, n2, y);
    var m1 := U.M1(c.Uav(id), u, Master(id), now, n1, x);
    M1Carries(c, id, u, now, n1, x);
    var s := GS.NewSession(m1, Master(id), now, now, n2, y);
    var g1 := GS.OnM1(c.Gs(), g, m1, now, n2, y).next;
    var m3 := U.M3(c.Uav(id), u.tid, c.suite, AuthKey(Master(id)), s.transcript);
    M3Carries(c, id, u.tid, AuthKey(Master(id)), s.transcript);
    M3Accepted(c, g1, id, s, u.tid, x, y, m3);
    DhCommutes(x, y);
    var w := U.OnM2(c.Uav(id), v, GS.M2(m1, id, Master(id), now, n2, y), now).next;
    M4Accepted(c, id, w, s, m3, GS.PackageFor(g1.devices, id, s));
  }

  lemma M1Carries(c: Config, id: int, u: U.State, now: nat, n1: nat, x: nat)
    ensures var m1 := U.M1(c.Uav(id), u, Master(id), now, n1, x);
            && m1.Has({TID, NONCE_1, TIMESTAMP, EPK_A})
            && m1.fields[TID] == u.tid && m1.fields[NONCE_1] == Nonce(n1) && m1.fields[EPK_A] == Share(x)
  {}

  lemma M3Carries(c: Config, id: int, tid: Term, key: Term, t: seq<Input>)
    ensures var m3 := U.M3(c.Uav(id), tid, c.suite, key, t);
            m3.Has({TID}) && m3.fields[TID] == tid
  {}

  // ---------- Phase 3 ----------

  // An undisturbed exchange between two UAVs that hold the pair's credential establishes the same key at both.
  lemma Phase3Completes(c: Config, i: int, j: int, u: U.State, v: U.State, now: nat, n1: nat, x: nat, n2: nat, y: nat)
    requires ValidId(i) && ValidId(j)
    requires j in u.phase2.creds && i in v.phase2.creds && u.phase2.creds[j] == v.phase2.creds[i]
    requires Nonce(n1) !in v.recent
    ensures var s1 := U.OnStart3(c.Uav(i), u, j, now, n1, x);
            && s1.outcome.Replied?
            && var r1 := U.OnP1(c.Uav(j), v, s1.outcome.reply, now, n2, y);
               && r1.outcome.Replied?
               && var s2 := U.OnP2(s1.next, r1.outcome.reply);
                  && s2.outcome.Replied?
                  && var r2 := U.OnP3(r1.next, s2.outcome.reply);
                     && r2.outcome == Accepted
                     && s2.outcome.reply.sender == i
                     && i in r1.next.peers && r1.next.peers[i].authKey == PeerAuthKey(u.phase2.creds[j])
                     && r1.next.phase2 == v.phase2 && s2.next.phase2 == u.phase2
                     && j in s2.next.peers && i in r2.next.peers
                     && s2.next.peers[j].established && r2.next.peers[i].established
                     && s2.next.peers[j].localId == i == r2.next.peers[i].peerId
                     && s2.next.peers[j].peerId == j == r2.next.peers[i].localId
                     && s2.next.peers[j].p1 == r2.next.peers[i].p1 && s2.next.peers[j].p2 == r2.next.peers[i].p2
                     && s2.next.peers[j].sessionKey == r2.next.peers[i].sessionKey
  {
    hide U.OnStart3, U.OnP1, U.OnP2, U.OnP3, U.P1, U.P2, U.P3, U.P1Received, U.P2Received, U.P2Answered, Derive,
      U.P1Signed, EncodeId, ValidId;
    var cred := u.phase2.creds[j];
    Started(c, i, j, u, now, n1, x);
    P1Accepted(c, i, j, v, cred, now, n1, x, n2, y);
    var a := U.OnStart3(c.Uav(i), u, j, now, n1, x).next;
    var p1 := U.P1(c.Uav(i), j, PeerAuthKey(cred), now, n1, x);
    P2Accepted(c, i, j, a, cred, now, n1, x, n2, y);
    var b := U.OnP1(c.Uav(j), v, p1, now, n2, y).next;
    P3Accepted(c, i, j, b, cred, now, n1, x, n2, y, U.OnP2(a, U.P2(c.Uav(j), p1, i, PeerAuthKey(cred), n2, y)).outcome.reply);
    DhCommutes(x, y);
  }

  // Both transcripts of the exchange.
  function First(c: Config, i: int, j: int, now: nat, n1: nat, x: nat): Input { U.P1Signed(c.Uav(i), j, now, n1, x) }

  function Second(c: Config, i: int, j: int, n1: nat, x: nat, n2: nat, y: nat): Input {
    InputP2(c.suite, EncodeId(i), EncodeId(j), Nonce(n1), Nonce(n2), Share(x), Share(y))
  }

  lemma Started(c: Config, i: int, j: int, u: U.State, now: nat, n1: nat, x: nat)
    requires j in u.phase2.creds
    ensures var s := U.OnStart3(c.Uav(i), u, j, now, n1, x);
            var cred := u.phase2.creds[j];
            && s.outcome == Replied(U.P1(c.Uav(i), j, PeerAuthKey(cred), now, n1, x))
            && s.next.phase2 == u.phase2 && j in s.next.peers
            && s.next.peers[j] == U.Opening(c.Uav(i), j, cred, now, n1, x)
  {
    hide U.P1, U.Opening;
  }

  lemma P1Accepted(c: Config, i: int, j: int, v: U.State, cred: Term, now: nat, n1: nat, x: nat, n2: nat, y: nat)
    requires ValidId(i) && i in v.phase2.creds && v.phase2.creds[i] == cred && Nonce(n1) !in v.recent
    ensures var p1 := U.P1(c.Uav(i), j, PeerAuthKey(cred), now, n1, x);
            var s := U.OnP1(c.Uav(j), v, p1, now, n2, y);
            && p1.Has(U.P1_FIELDS)
            && s.outcome == Replied(U.P2(c.Uav(j), p1, i, PeerAuthKey(cred), n2, y))
            && s.next.phase2 == v.phase2 && i in s.next.peers
            && s.next.peers[i] == U.Answering(c.Uav(j), p1, i, cred, n2, y)
            && U.P1Received(p1) == First(c, i, j, now, n1, x)
            && U.P2Answered(c.Uav(j), p1, i, n2, y) == Second(c, i, j, n1, x, n2, y)
            && p1.fields[EPK_A] == Share(x)
  {
    hide U.RC.Last, U.Answering, U.P2;
  }

  // An established exchange at one end, over the given messages.
  predicate Established(e: U.Exchange, local: int, peer: int, initiator: bool, cred: Term, f: Input, g: Input) {
    && e.established && e.localId == local && e.peerId == peer && e.initiator == initiator
    && e.authKey == PeerAuthKey(cred) && e.p1 == [f] && e.p2 == [g]
  }

  lemma P2Accepted(c: Config, i: int, j: int, a: U.State, cred: Term, now: nat, n1: nat, x: nat, n2: nat, y: nat)
    requires j in a.peers && a.peers[j] == U.Opening(c.Uav(i), j, cred, now, n1, x)
    requires j in a.phase2.creds && a.phase2.creds[j] == cred
    requires U.P1(c.Uav(i), j, PeerAuthKey(cred), now, n1, x).Has(U.P1_FIELDS)
    requires U.P2Answered(c.Uav(j), U.P1(c.Uav(i), j, PeerAuthKey(cred), now, n1, x), i, n2, y) == Second(c, i, j, n1, x, n2, y)
    ensures var p1 := U.P1(c.Uav(i), j, PeerAuthKey(cred), now, n1, x);
            var s := U.OnP2(a, U.P2(c.Uav(j), p1, i, PeerAuthKey(cred), n2, y));
            var f, g := First(c, i, j, now, n1, x), Second(c, i, j, n1, x, n2, y);
            && s.outcome.Replied? && IsP3(s.outcome.reply, c, i, cred, f, g) && s.next.phase2 == a.phase2
            && j in s.next.peers && Established(s.next.peers[j], i, j, true, cred, f, g)
            && s.next.peers[j].sessionKey == PeerKey(cred, Shared(x, y), [f] + [g])
  {
    hide U.P2Answered, EncodeId;
    P1Suite(c, i, j, cred, now, n1, x);
  }

  lemma P1Suite(c: Config, i: int, j: int, cred: Term, now: nat, n1: nat, x: nat)
    ensures U.P1(c.Uav(i), j, PeerAuthKey(cred), now, n1, x).suite == c.suite
  {}

  predicate IsP3(m: Message, c: Config, i: int, cred: Term, f: Input, g: Input) {
    && m.kind == P3PeerComplete && m.sender == i && m.suite == c.suite
    && m.fields == map[MAC_TAG := Mac(PeerAuthKey(cred), [InputP3(c.suite)] + [f] + [g])]
  }

  lemma P3Accepted(c: Config, i: int, j: int, b: U.State, cred: Term, now: nat, n1: nat, x: nat, n2: nat, y: nat, p3: Message)
    requires i in b.peers && i in b.phase2.creds && b.phase2.creds[i] == cred
    requires U.P1(c.Uav(i), j, PeerAuthKey(cred), now, n1, x).Has(U.P1_FIELDS)
    requires var p1 := U.P1(c.Uav(i), j, PeerAuthKey(cred), now, n1, x);
             && b.peers[i] == U.Answering(c.Uav(j), p1, i, cred, n2, y)
             && U.P1Received(p1) == First(c, i, j, now, n1, x)
             && U.P2Answered(c.Uav(j), p1, i, n2, y) == Second(c, i, j, n1, x, n2, y)
             && p1.fields[EPK_A] == Share(x)
    requires IsP3(p3, c, i, cred, First(c, i, j, now, n1, x), Second(c, i, j, n1, x, n2, y))
    ensures var f, g := First(c, i, j, now, n1, x), Second(c, i, j, n1, x, n2, y);
            var r := U.OnP3(b, p3);
            && r.outcome == Accepted && i in r.next.peers && Established(r.next.peers[i], j, i, false, cred, f, g)
            && r.next.peers[i].sessionKey == PeerKey(cred, Shared(y, x), [f] + [g])
  {
    hide U.P1, U.P1Received, U.P2Answered, First, Second;
  }
}
