// Exactly when each handler refuses a message, and for which reason; and what it stores when it does not.
module Refusals {
  import opened Wrappers
  import opened Symbols
  import GS = GroundStation
  import U = UavProtocol
  import opened Network
  import opened Invariants
  import opened Preservation

  // Sent more than the window before the clock, or dated more than the window after it.
  predicate OutsideWindow(now: nat, ms: nat, window: nat) { ms + window < now || now + window < ms }

  // The stamp is one, and fresh.
  predicate Timely(now: nat, t: Term, window: nat) { t.Stamp? && !OutsideWindow(now, t.ms, window) }

  predicate Refuses(o: Outcome, reason: AbortReason) { o == Aborted(reason) }

  // ---------- Phase 2 ----------

  predicate M1Fields(m: Message) { m.Has({TID, NONCE_1, TIMESTAMP, EPK_A, MAC_TAG}) }

  predicate M1Sizes(m: Message) { M1Fields(m) && Size(m.fields[EPK_A]) == 32 && Size(m.fields[NONCE_1]) == 16 }

  // The message passes the checks of form, the clock and the replay cache.
  predicate M1Fresh(c: GS.Config, g: GS.State, m: Message, now: nat) {
    M1Sizes(m) && Timely(now, m.fields[TIMESTAMP], c.window) && m.fields[NONCE_1] !in g.recent
  }

  lemma M1Refusals(c: GS.Config, g: GS.State, m: Message, now: nat, n2: nat, scalar: nat)
    ensures var o := GS.OnM1(c, g, m, now, n2, scalar).outcome;
            && (Refuses(o, UnexpectedMessage) <==> m.kind != M1AuthRequest)
            && (Refuses(o, MissingField) <==> m.kind == M1AuthRequest && !M1Fields(m))
            && (Refuses(o, MalformedField) <==>
                  m.kind == M1AuthRequest && M1Fields(m) && !(M1Sizes(m) && m.fields[TIMESTAMP].Stamp?))
            && (Refuses(o, StaleTimestamp) <==>
                  && m.kind == M1AuthRequest && M1Sizes(m) && m.fields[TIMESTAMP].Stamp?
                  && OutsideWindow(now, m.fields[TIMESTAMP].ms, c.window))
            && (Refuses(o, ReplayedNonce) <==>
                  && m.kind == M1AuthRequest && M1Sizes(m) && Timely(now, m.fields[TIMESTAMP], c.window)
                  && m.fields[NONCE_1] in g.recent)
            && (Refuses(o, UnknownIdentity) <==>
                  && m.kind == M1AuthRequest && M1Fresh(c, g, m, now)
                  && forall id :: id in g.devices ==> !GS.Holds(g.devices[id], m.fields[TID]))
  {
    hide GS.DeviceWith, GS.RC.Last, Size, GS.NewSession, GS.M2, GS.M1Signed, GS.Holds;
    if M1Fields(m) { Found(g.devices, m.fields[TID]); }
  }

  lemma Found(devices: map<int, GS.Device>, tid: Term)
    ensures GS.DeviceWith(devices, tid).None? <==> forall id :: id in devices ==> !GS.Holds(devices[id], tid)
  {
    hide GS.Holds;
  }

  // The two remaining outcomes: a wrong tag, and the answer.
  lemma M1Answered(c: GS.Config, g: GS.State, m: Message, now: nat, n2: nat, scalar: nat)
    requires m.kind == M1AuthRequest && M1Fresh(c, g, m, now) && GS.DeviceWith(g.devices, m.fields[TID]).Some?
    ensures var id := GS.DeviceWith(g.devices, m.fields[TID]).value;
            var o := GS.OnM1(c, g, m, now, n2, scalar).outcome;
            var tag := Mac(AuthKey(g.devices[id].mk),
                           [InputM1(m.suite, m.fields[TID], m.fields[NONCE_1], m.fields[TIMESTAMP], m.fields[EPK_A])]);
            && (m.fields[MAC_TAG] != tag ==> Refuses(o, MacVerifyFailed))
            && (m.fields[MAC_TAG] == tag ==> o.Replied? && o.reply.receiver == id)
  {
    hide GS.DeviceWith, GS.RC.Last, Size, GS.NewSession, GS.Holds, GS.M2Signed;
  }

  lemma Start2Refusals(c: U.Config, u: U.State, provisioned: bool, mk: Option<Term>, now: nat, n1: nat, scalar: nat)
    ensures var s := U.OnStart2(c, u, provisioned, mk, now, n1, scalar);
            && (Refuses(s.outcome, NotAuthenticated) <==> !provisioned)
            && (Refuses(s.outcome, FuzzyExtractorFailed) <==> provisioned && mk.None?)
            && (s.outcome.Replied? <==> provisioned && mk.Some?) && (!s.outcome.Replied? ==> s.next == u)
  {
    hide U.M1;
  }

  predicate M2Fields(m: Message) { m.Has({NONCE_2, TIMESTAMP, EPK_B, MAC_TAG}) }

  predicate M2Sizes(m: Message) { M2Fields(m) && Size(m.fields[NONCE_2]) == 16 && Size(m.fields[EPK_B]) == 32 }

  predicate M2Expected(u: U.State, m: Message) { m.kind == M2GsResponse && u.phase2.authKey != Empty }

  predicate M2Fresh(c: U.Config, u: U.State, m: Message, now: nat) {
    M2Sizes(m) && Timely(now, m.fields[TIMESTAMP], c.window) && m.fields[NONCE_2] !in u.recent
  }

  lemma M2Refusals(c: U.Config, u: U.State, m: Message, now: nat)
    ensures var o := U.OnM2(c, u, m, now).outcome;
            && (Refuses(o, UnexpectedMessage) <==> !M2Expected(u, m))
            && (Refuses(o, MissingField) <==> M2Expected(u, m) && !M2Fields(m))
            && (Refuses(o, MalformedField) <==>
                  M2Expected(u, m) && M2Fields(m) && !(M2Sizes(m) && m.fields[TIMESTAMP].Stamp?))
            && (Refuses(o, StaleTimestamp) <==>
                  && M2Expected(u, m) && M2Sizes(m) && m.fields[TIMESTAMP].Stamp?
                  && OutsideWindow(now, m.fields[TIMESTAMP].ms, c.window))
            && (Refuses(o, ReplayedNonce) <==>
                  && M2Expected(u, m) && M2Sizes(m) && Timely(now, m.fields[TIMESTAMP], c.window)
                  && m.fields[NONCE_2] in u.recent)
            && (Refuses(o, MacVerifyFailed) <==>
                  && M2Expected(u, m) && M2Fresh(c, u, m, now)
                  && m.fields[MAC_TAG] != Mac(u.phase2.authKey,
                       [InputM2(m.suite, u.tid, u.phase2.n1, m.fields[NONCE_2], m.fields[TIMESTAMP],
                                u.phase2.ephemeral.publicKey, m.fields[EPK_B])]))
            && (Refuses(o, DhFailed) ==> u.phase2.ephemeral.secret.None? || m.fields[EPK_B].LowOrder?)
  {
    hide U.RC.Last, Size, U.M3;
  }

  lemma M3Refusals(g: GS.State, m: Message)
    ensures var o := GS.OnM3(g, m).outcome;
            && (Refuses(o, MissingField) <==> m.kind == M3UavConfirm && !m.Has({TID, MAC_TAG}))
            && (Refuses(o, UnknownIdentity) <==>
                  && m.kind == M3UavConfirm && m.Has({TID, MAC_TAG})
                  && forall id :: id in g.devices ==> !GS.Holds(g.devices[id], m.fields[TID]))
            && (Refuses(o, UnexpectedMessage) <==>
                  || m.kind != M3UavConfirm
                  || (m.Has({TID, MAC_TAG}) && var id := GS.DeviceWith(g.devices, m.fields[TID]);
                                               id.Some? && id.value !in g.sessions))
  {
    hide GS.DeviceWith, Derive, GS.M4, GS.PackageFor, GS.Rotated, GS.Holds;
    if m.Has({TID, MAC_TAG}) { Found(g.devices, m.fields[TID]); }
  }

  // For a session of the named device: a wrong tag, a secret already erased or a bad share, and the answer.
  lemma M3Answered(g: GS.State, m: Message)
    requires m.kind == M3UavConfirm && m.Has({TID, MAC_TAG})
    requires var id := GS.DeviceWith(g.devices, m.fields[TID]); id.Some? && id.value in g.sessions
    ensures var id := GS.DeviceWith(g.devices, m.fields[TID]).value;
            var s, o := g.sessions[id], GS.OnM3(g, m).outcome;
            var tag := Mac(s.authKey, [InputM3(m.suite, m.fields[TID])] + s.transcript);
            && (Refuses(o, MacVerifyFailed) <==> m.fields[MAC_TAG] != tag)
            && (Refuses(o, DhFailed) <==> m.fields[MAC_TAG] == tag && Derive(s.ephemeral.secret, s.epkA).None?)
            && (o.Replied? <==> m.fields[MAC_TAG] == tag && Derive(s.ephemeral.secret, s.epkA).Some?)
            && (o.Replied? ==> o.reply.receiver == id)
  {
    hide GS.DeviceWith, Derive, GS.PackageFor, GS.Rotated, GS.Holds;
  }

  lemma M4Refusals(u: U.State, m: Message)
    ensures var o := U.OnM4(u, m).outcome;
            && (Refuses(o, UnexpectedMessage) <==> m.kind != M4GsConfirm || u.phase2.sessionKey == Empty)
            && (Refuses(o, MissingField) <==>
                  m.kind == M4GsConfirm && u.phase2.sessionKey != Empty && !m.Has({AEAD_NONCE, CRED_PKG}))
            && (o == Accepted <==>
                  && m.kind == M4GsConfirm && u.phase2.sessionKey != Empty && m.Has({AEAD_NONCE, CRED_PKG})
                  && var p := m.fields[CRED_PKG];
                     && p.Sealed? && p.key == AeadKey(u.phase2.sessionKey) && p.nonce == AeadNonce(u.phase2.sessionKey)
                     && p.aad == AadM4(m.suite, u.phase2.tidAtRequest, u.phase2.n1, u.phase2.n2))
            && (o == Accepted || Refuses(o, UnexpectedMessage) || Refuses(o, MissingField) || Refuses(o, AeadOpenFailed))
  {}

  // ---------- Phase 3 ----------

  predicate P1Timely(c: U.Config, u: U.State, m: Message, now: nat) {
    && m.kind == P1PeerRequest && m.Has(U.P1_FIELDS) && DecodeId(m.fields[SENDER_ID]).Some?
    && Timely(now, m.fields[TIMESTAMP], c.window)
  }

  lemma P1Refusals(c: U.Config, u: U.State, m: Message, now: nat, nonce: nat, scalar: nat)
    ensures var o := U.OnP1(c, u, m, now, nonce, scalar).outcome;
            && (Refuses(o, UnexpectedMessage) <==> m.kind != P1PeerRequest)
            && (Refuses(o, MissingField) <==> m.kind == P1PeerRequest && !m.Has(U.P1_FIELDS))
            && (Refuses(o, MalformedField) <==>
                  && m.kind == P1PeerRequest && m.Has(U.P1_FIELDS)
                  && !(DecodeId(m.fields[SENDER_ID]).Some? && m.fields[TIMESTAMP].Stamp?))
            && (Refuses(o, StaleTimestamp) <==>
                  && m.kind == P1PeerRequest && m.Has(U.P1_FIELDS) && DecodeId(m.fields[SENDER_ID]).Some?
                  && m.fields[TIMESTAMP].Stamp? && OutsideWindow(now, m.fields[TIMESTAMP].ms, c.window))
            && (Refuses(o, ReplayedNonce) <==> P1Timely(c, u, m, now) && m.fields[NONCE_1] in u.recent)
            && (Refuses(o, NoSuchPeer) <==>
                  && P1Timely(c, u, m, now) && m.fields[NONCE_1] !in u.recent
                  && DecodeId(m.fields[SENDER_ID]).value !in u.phase2.creds)
            && (Refuses(o, MacVerifyFailed) <==>
                  && P1Timely(c, u, m, now) && m.fields[NONCE_1] !in u.recent
                  && var p := DecodeId(m.fields[SENDER_ID]).value;
                     && p in u.phase2.creds
                     && m.fields[MAC_TAG] != Mac(PeerAuthKey(u.phase2.creds[p]),
                          [InputP1(m.suite, m.fields[SENDER_ID], m.fields[RECEIVER_ID], m.fields[NONCE_1],
                                   m.fields[TIMESTAMP], m.fields[EPK_A])]))
  {
    hide U.RC.Last, DecodeId, U.Answering, U.P2;
  }

  lemma Start3Refusals(c: U.Config, u: U.State, peer: int, now: nat, nonce: nat, scalar: nat)
    ensures var s := U.OnStart3(c, u, peer, now, nonce, scalar);
            && (Refuses(s.outcome, NoSuchPeer) <==> peer !in u.phase2.creds)
            && (s.outcome.Replied? <==> peer in u.phase2.creds) && (!s.outcome.Replied? ==> s.next == u)
  {
    hide U.P1, U.Opening;
  }

  predicate P2Expected(u: U.State, m: Message) { m.sender in u.peers && u.peers[m.sender].initiator }

  lemma P2Refusals(u: U.State, m: Message)
    ensures var o := U.OnP2(u, m).outcome;
            && (Refuses(o, MissingField) <==> m.kind == P2PeerResponse && !m.Has({NONCE_2, EPK_B, MAC_TAG}))
            && (Refuses(o, UnexpectedMessage) <==>
                  || m.kind != P2PeerResponse
                  || (m.Has({NONCE_2, EPK_B, MAC_TAG}) && !P2Expected(u, m)))
            && (m.kind == P2PeerResponse && m.Has({NONCE_2, EPK_B, MAC_TAG}) && P2Expected(u, m) ==>
                  var x := u.peers[m.sender];
                  var tag := Mac(x.authKey, [InputP2(m.suite, EncodeId(x.localId), EncodeId(x.peerId), x.nonceLocal,
                                                     m.fields[NONCE_2], x.epkLocal, m.fields[EPK_B])]);
                  && (Refuses(o, MalformedField) <==> Size(m.fields[EPK_B]) != 32)
                  && (Refuses(o, MacVerifyFailed) <==> Size(m.fields[EPK_B]) == 32 && m.fields[MAC_TAG] != tag)
                  && (Refuses(o, DhFailed) <==>
                        && Size(m.fields[EPK_B]) == 32 && m.fields[MAC_TAG] == tag
                        && Derive(x.ephemeral.secret, m.fields[EPK_B]).None?))
  {
    hide U.P3, Derive, Size, EncodeId;
  }

  lemma P3Refusals(u: U.State, m: Message)
    ensures var o := U.OnP3(u, m).outcome;
            && (Refuses(o, MissingField) <==> m.kind == P3PeerComplete && !m.Has({MAC_TAG}))
            && (Refuses(o, UnexpectedMessage) <==>
                  || m.kind != P3PeerComplete
                  || (m.Has({MAC_TAG}) && (m.sender !in u.peers || u.peers[m.sender].initiator)))
            && (m.kind == P3PeerComplete && m.Has({MAC_TAG}) && m.sender in u.peers && !u.peers[m.sender].initiator ==>
                  var x := u.peers[m.sender];
                  var tag := Mac(x.authKey, [InputP3(m.suite)] + x.p1 + x.p2);
                  && (Refuses(o, MacVerifyFailed) <==> m.fields[MAC_TAG] != tag)
                  && (Refuses(o, DhFailed) <==> m.fields[MAC_TAG] == tag && Derive(x.ephemeral.secret, x.epkRemote).None?)
                  && (o == Accepted <==> m.fields[MAC_TAG] == tag && Derive(x.ephemeral.secret, x.epkRemote).Some?))
  {
    hide Derive;
  }

  // ---------- what a refused message leaves behind ----------

  // A timely nonce is remembered whether or not the message is refused after that; nothing else changes.
  lemma M1Leaves(c: GS.Config, g: GS.State, m: Message, now: nat, n2: nat, scalar: nat)
    ensures var s := GS.OnM1(c, g, m, now, n2, scalar);
            && s.next.recent == (if m.kind == M1AuthRequest && M1Fresh(c, g, m, now)
                                 then GS.RC.Last(g.recent + [m.fields[NONCE_1]], c.capacity) else g.recent)
            && s.next.devices == g.devices && (s.outcome.Aborted? ==> s.next.sessions == g.sessions)
  {
    hide GS.DeviceWith, GS.RC.Last, Size, GS.NewSession, GS.M2, GS.M1Signed;
  }

  // A confirmation too late to derive from is appended to the transcript; any other refusal leaves the session alone.
  lemma M2Leaves(c: U.Config, u: U.State, m: Message, now: nat)
    ensures var s := U.OnM2(c, u, m, now);
            && s.next.recent == (if M2Expected(u, m) && M2Fresh(c, u, m, now)
                                 then U.RC.Last(u.recent + [m.fields[NONCE_2]], c.capacity) else u.recent)
            && s.next.tid == u.tid && s.next.peers == u.peers
            && (s.outcome.Aborted? && s.outcome.reason != DhFailed ==> s.next.phase2 == u.phase2)
            && (Refuses(s.outcome, DhFailed) ==>
                  && M2Fields(m) && |s.next.phase2.transcript| == |u.phase2.transcript| + 1
                  && u.phase2.transcript <= s.next.phase2.transcript
                  && s.next.phase2 == u.phase2.(n2 := m.fields[NONCE_2], transcript := s.next.phase2.transcript))
  {
    hide U.RC.Last, Size, U.M2Signed, U.M3, Derive;
  }

  // An M3 whose tag is right marks the session as verified even if no key can be derived.
  lemma M3Leaves(g: GS.State, m: Message)
    ensures var s := GS.OnM3(g, m);
            && s.next.recent == g.recent
            && (s.outcome.Aborted? ==> s.next.devices == g.devices)
            && (s.outcome.Aborted? && s.outcome.reason != DhFailed ==> s.next == g)
            && (Refuses(s.outcome, DhFailed) ==>
                  && m.Has({TID})
                  && var id := GS.DeviceWith(g.devices, m.fields[TID]);
                     && id.Some? && id.value in g.sessions
                     && s.next.sessions == g.sessions[id.value := g.sessions[id.value].(m3Verified := true)])
  {
    hide GS.DeviceWith, Derive, GS.PackageFor, GS.Rotated, GS.M4;
  }

  lemma P1Leaves(c: U.Config, u: U.State, m: Message, now: nat, nonce: nat, scalar: nat)
    ensures var s := U.OnP1(c, u, m, now, nonce, scalar);
            && s.next.recent == (if P1Timely(c, u, m, now) && m.fields[NONCE_1] !in u.recent
                                 then U.RC.Last(u.recent + [m.fields[NONCE_1]], c.capacity) else u.recent)
            && s.next.tid == u.tid && s.next.phase2 == u.phase2
            && (s.outcome.Aborted? ==> s.next.peers == u.peers)
            && (s.outcome.Replied? ==> s.next.peers - {s.outcome.reply.receiver} == u.peers - {s.outcome.reply.receiver})
  {
    hide U.RC.Last, DecodeId, U.Answering, U.P1Received, U.P2Answered;
  }

  // A P2 for an exchange this UAV opened leaves its nonce and share there even if it is refused, and its text if its
  // tag was right.
  lemma P2Leaves(u: U.State, m: Message)
    ensures var s := U.OnP2(u, m);
            && s.next.tid == u.tid && s.next.recent == u.recent && (s.outcome.Aborted? ==> s.next.phase2 == u.phase2)
            && (Refuses(s.outcome, UnexpectedMessage) || Refuses(s.outcome, MissingField) ==> s.next == u)
            && (Refuses(s.outcome, MalformedField) || Refuses(s.outcome, MacVerifyFailed) || Refuses(s.outcome, DhFailed) ==>
                  && m.Has({NONCE_2, EPK_B}) && m.sender in u.peers
                  && var x := u.peers[m.sender].(nonceRemote := m.fields[NONCE_2], epkRemote := m.fields[EPK_B]);
                     s.next.peers == u.peers[m.sender := if s.outcome.reason != DhFailed then x else x.(p2 := [U.P2Received(x, m.suite)])])
  {
    hide U.P2Received, U.P3, Derive, Size;
  }

  // ---------- what is stored is what was sent and received ----------

  lemma M1Stored(c: GS.Config, g: GS.State, m: Message, now: nat, n2: nat, scalar: nat)
    requires GS.OnM1(c, g, m, now, n2, scalar).outcome.Replied?
    ensures var s := GS.OnM1(c, g, m, now, n2, scalar);
            && M1Fields(m) && m.fields[TIMESTAMP].Stamp? && M2Fields(s.outcome.reply) && s.outcome.reply.receiver in s.next.sessions
            && var x, r := s.next.sessions[s.outcome.reply.receiver], s.outcome.reply;
               && x.n1 == m.fields[NONCE_1] && x.t1 == m.fields[TIMESTAMP].ms && x.epkA == m.fields[EPK_A]
               && x.n2 == r.fields[NONCE_2] && Stamp(x.t2) == r.fields[TIMESTAMP] && x.epkB == r.fields[EPK_B]
               && x.t2 == now && x.sessionKey == Empty && !x.m3Verified && !x.ephemeralErased
  {
    hide GS.DeviceWith, GS.RC.Last, Size, TimestampFresh, GS.M1Signed, GS.M2Signed;
  }

  lemma M3Stored(g: GS.State, m: Message)
    requires GS.OnM3(g, m).outcome.Replied?
    ensures var s := GS.OnM3(g, m);
            && s.outcome.reply.receiver in s.next.sessions
            && var x := s.next.sessions[s.outcome.reply.receiver];
               x.m3Verified && x.ephemeralErased && x.ephemeral.secret.None?
  {
    hide GS.DeviceWith, Derive, GS.PackageFor, GS.Rotated;
  }

  lemma P1Stored(c: U.Config, u: U.State, m: Message, now: nat, nonce: nat, scalar: nat)
    requires U.OnP1(c, u, m, now, nonce, scalar).outcome.Replied?
    ensures var s := U.OnP1(c, u, m, now, nonce, scalar);
            && m.Has(U.P1_FIELDS) && s.outcome.reply.Has({NONCE_2, EPK_B}) && s.outcome.reply.receiver in s.next.peers
            && var x, r := s.next.peers[s.outcome.reply.receiver], s.outcome.reply;
               && x.nonceRemote == m.fields[NONCE_1] && x.epkRemote == m.fields[EPK_A]
               && x.nonceLocal == r.fields[NONCE_2] && x.epkLocal == r.fields[EPK_B]
               && !x.initiator && !x.established && !x.ephemeralErased && x.sessionKey == Empty
  {
    hide U.RC.Last, DecodeId, DecodeStamp, TimestampFresh, U.P1Received, U.P2Answered;
  }
}
