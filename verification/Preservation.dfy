// Every handler keeps the invariants, whatever message it is given.
module Preservation {
  import opened Wrappers
  import opened Symbols
  import GS = GroundStation
  import U = UavProtocol
  import opened Network
  import opened Invariants

  // A sent term that vouches for nothing.
  predicate Plain(t: Term) { M2TagOk(t) && !IsM3Tag(t) && !IsP2Tag(t) && !IsP3Tag(t) && !t.Sealed? }

  predicate AllPlain(o: Outcome) { forall t :: t in Fields(o) ==> Plain(t) }

  predicate TagsOk(m: Message) { forall f :: f in m.fields ==> M2TagOk(m.fields[f]) }

  // ---------- one handler at a time ----------

  lemma OnM1Effect(c: GS.Config, g: GS.State, m: Message, now: nat, n2: nat, scalar: nat)
    ensures var s := GS.OnM1(c, g, m, now, n2, scalar);
            && s.next.devices == g.devices
            && (!s.outcome.Replied? ==> s.next.sessions == g.sessions)
            && (s.outcome.Replied? ==>
                  && m.Has({TID, NONCE_1, TIMESTAMP, EPK_A})
                  && var id := s.outcome.reply.receiver;
                     && id in g.devices
                     && (exists t1 :: s.next.sessions == g.sessions[id := GS.NewSession(m, g.devices[id].mk, t1, now, n2, scalar)])
                     && s.outcome.reply == GS.M2(m, id, g.devices[id].mk, now, n2, scalar))
  {
    hide GS.DeviceWith, GS.RC.Last, Size, DecodeStamp, TimestampFresh, GS.NewSession, GS.M1Signed;
  }

  lemma NewSessionOk(id: int, m: Message, t1: nat, now: nat, n2: nat, scalar: nat)
    requires m.Has({TID, NONCE_1, TIMESTAMP, EPK_A})
    ensures SessionOk(id, GS.NewSession(m, Master(id), t1, now, n2, scalar))
  {}

  lemma M2Plain(m: Message, id: int, mk: Term, now: nat, n2: nat, scalar: nat)
    requires m.Has({TID, NONCE_1, TIMESTAMP, EPK_A})
    ensures AllPlain(Replied(GS.M2(m, id, mk, now, n2, scalar)))
  {}

  lemma OnM1Keeps(c: GS.Config, ids: set<int>, g: GS.State, m: Message, now: nat, n2: nat, scalar: nat)
    requires GsOk(ids, g)
    ensures var s := GS.OnM1(c, g, m, now, n2, scalar);
            GsOk(ids, s.next) && s.next.devices == g.devices && AllPlain(s.outcome)
  {
    hide GS.OnM1, GS.M2, GS.NewSession, SessionOk, Plain;
    OnM1Effect(c, g, m, now, n2, scalar);
    var s := GS.OnM1(c, g, m, now, n2, scalar);
    if s.outcome.Replied? {
      var id := s.outcome.reply.receiver;
      var t1 :| s.next.sessions == g.sessions[id := GS.NewSession(m, g.devices[id].mk, t1, now, n2, scalar)];
      NewSessionOk(id, m, t1, now, n2, scalar);
      M2Plain(m, id, g.devices[id].mk, now, n2, scalar);
    }
  }

  function Answered(s: GS.Session, mk: Term, shared: Term): GS.Session {
    s.(m3Verified := true, sessionKey := SessionKey(mk, shared, s.transcript), ephemeral := s.ephemeral.Erase(),
       ephemeralErased := true)
  }

  function VerifiedOnly(g: GS.State, id: int): map<int, GS.Session>
    requires id in g.sessions
  {
    g.sessions[id := g.sessions[id].(m3Verified := true)]
  }

  lemma OnM3Effect(g: GS.State, m: Message)
    ensures var s := GS.OnM3(g, m);
            && s.next.recent == g.recent
            && (!s.outcome.Replied? ==>
                  && s.next.devices == g.devices
                  && (s.next.sessions == g.sessions
                      || exists id :: id in g.sessions && Derive(g.sessions[id].ephemeral.secret, g.sessions[id].epkA).None?
                                      && s.next.sessions == VerifiedOnly(g, id)))
            && (s.outcome.Replied? ==>
                  && m.Has({TID})
                  && var id := s.outcome.reply.receiver;
                     && id in g.devices && id in g.sessions
                     && var d, x := g.devices[id], g.sessions[id];
                        && var shared := Derive(x.ephemeral.secret, x.epkA);
                           && shared.Some?
                           && s.next.devices == g.devices[id := d.(pendingTid := GS.Rotated(d, x))]
                           && s.next.sessions == g.sessions[id := Answered(x, d.mk, shared.value)]
                           && s.outcome.reply == GS.M4(m, id, x, SessionKey(d.mk, shared.value, x.transcript),
                                                       GS.PackageFor(g.devices, id, x)))
  {
    hide GS.DeviceWith, Derive, GS.Rotated, GS.PackageFor;
    if m.Has({TID, MAC_TAG}) {
      var id := GS.DeviceWith(g.devices, m.fields[TID]);
      assert id.Some? && id.value in g.sessions ==>
          g.sessions[id.value := g.sessions[id.value].(m3Verified := true)] == VerifiedOnly(g, id.value);
    }
  }

  lemma AnsweredOk(id: int, s: GS.Session, shared: Term)
    requires SessionOk(id, s)
    ensures SessionOk(id, s.(m3Verified := true)) && SessionOk(id, Answered(s, Master(id), shared))
  {}

  lemma PackageIsFull(ids: set<int>, g: GS.State, id: int, s: GS.Session)
    requires GsOk(ids, g) && id in ids
    ensures FullPackage(ids, id, GS.PackageFor(g.devices, id, s))
  {
    hide PairCredential, SessionOk;
    assert GS.CredentialsFor(g.devices, id).Keys == ids - {id};
    assert GS.IdentitiesFor(g.devices, id).Keys == ids - {id};
  }

  lemma M4Answers(ids: set<int>, g: GS.State, m: Message, id: int, x: GS.Session, shared: Term, p: Package)
    requires m.Has({TID}) && id in ids && SessionOk(id, x) && FullPackage(ids, id, p)
    requires id in g.sessions && g.sessions[id] == Answered(x, Master(id), shared)
    ensures var s := GS.Step(g, Replied(GS.M4(m, id, x, SessionKey(Master(id), shared, x.transcript), p)));
            && Answers(s) && AnswerOk(ids, AnswerOf(s)) && AnswerOf(s).uav == id && AnswerOf(s).sealed.package == p
            && forall t :: t in Fields(s.outcome) ==> Plain(t) || t == AnswerOf(s).sealed
  {
    hide FullPackage;
    AnsweredOk(id, x, shared);
  }

  lemma PendingOk(id: int, d: GS.Device, s: GS.Session)
    requires DeviceOk(id, d)
    ensures DeviceOk(id, d.(pendingTid := GS.Rotated(d, s)))
    ensures d.mk == Master(id)
  {}

  lemma OnM3KeepsState(ids: set<int>, g: GS.State, m: Message)
    requires GsOk(ids, g)
    ensures GsOk(ids, GS.OnM3(g, m).next)
  {
    hide GS.OnM3, GS.M4, GS.PackageFor, SessionOk, Answered, Derive, DeviceOk, GS.Rotated;
    OnM3Effect(g, m);
    var s := GS.OnM3(g, m);
    forall id | id in g.sessions ensures SessionOk(id, g.sessions[id].(m3Verified := true)) {
      AnsweredOk(id, g.sessions[id], Empty);
    }
    if s.outcome.Replied? {
      var id := s.outcome.reply.receiver;
      var x := g.sessions[id];
      PendingOk(id, g.devices[id], x);
      AnsweredOk(id, x, Derive(x.ephemeral.secret, x.epkA).value);
    }
  }

  lemma OnM3Answers(ids: set<int>, g: GS.State, m: Message)
    requires GsOk(ids, g) && GS.OnM3(g, m).outcome.Replied?
    ensures var s := GS.OnM3(g, m);
            && Answers(s) && var a := AnswerOf(s);
               && AnswerOk(ids, a) && a.uav in g.devices
               && s.next.devices == g.devices[a.uav := g.devices[a.uav].(pendingTid := a.sealed.package.tidNew)]
               && forall t :: t in Fields(s.outcome) ==> Plain(t) || t == a.sealed
  {
    hide GS.OnM3, GS.M4, GS.PackageFor, GS.Rotated, SessionOk, Plain, AnswerOk, AnswerOf, FullPackage, Answered, Derive,
      Answers, Fields;
    OnM3Effect(g, m);
    var s := GS.OnM3(g, m);
    var id := s.outcome.reply.receiver;
    var x := g.sessions[id];
    PackageIsFull(ids, g, id, x);
    PackageRotates(g.devices, id, x);
    M4Answers(ids, s.next, m, id, x, Derive(x.ephemeral.secret, x.epkA).value, GS.PackageFor(g.devices, id, x));
  }

  lemma OnM3Keeps(ids: set<int>, g: GS.State, m: Message)
    requires GsOk(ids, g)
    ensures var s := GS.OnM3(g, m);
            && GsOk(ids, s.next)
            && (!s.outcome.Replied? ==> s.next.devices == g.devices && AllPlain(s.outcome))
            && (s.outcome.Replied? ==>
                  && Answers(s) && var a := AnswerOf(s);
                     && AnswerOk(ids, a) && a.uav in g.devices
                     && s.next.devices == g.devices[a.uav := g.devices[a.uav].(pendingTid := a.sealed.package.tidNew)]
                     && forall t :: t in Fields(s.outcome) ==> Plain(t) || t == a.sealed)
  {
    hide GS.OnM3, GsOk, AnswerOk, Answers, AnswerOf, GS.M4;
    OnM3KeepsState(ids, g, m);
    if GS.OnM3(g, m).outcome.Replied? { OnM3Answers(ids, g, m); } else { OnM3Effect(g, m); }
  }

  lemma PackageRotates(devices: map<int, GS.Device>, id: int, s: GS.Session)
    requires id in devices
    ensures GS.PackageFor(devices, id, s).tidNew == GS.Rotated(devices[id], s)
  {}

  lemma M1Plain(c: U.Config, u: U.State, mk: Term, now: nat, n1: nat, scalar: nat)
    requires TidOk(c.id, u.tid)
    ensures AllPlain(Replied(U.M1(c, u, mk, now, n1, scalar)))
  {}

  lemma OnStart2Keeps(c: U.Config, ids: set<int>, u: U.State, mk: Option<Term>, now: nat, n1: nat, scalar: nat)
    requires UavOk(ids, c.id, u) && Regenerates(c.id, mk)
    ensures var s := U.OnStart2(c, u, true, mk, now, n1, scalar);
            UavOk(ids, c.id, s.next) && s.next.tid == u.tid && AllPlain(s.outcome)
  {
    hide PairCredential, ExchangeOk, U.M1, Plain, TidOk;
    if mk.Some? { M1Plain(c, u, mk.value, now, n1, scalar); }
  }

  function M2Noted(u: U.State, m: Message): U.Phase2
    requires m.Has({NONCE_2, TIMESTAMP, EPK_B})
  {
    u.phase2.(n2 := m.fields[NONCE_2], transcript := u.phase2.transcript + [U.M2Signed(u, m)])
  }

  function M2Done(s: U.Phase2, shared: Term): U.Phase2 {
    s.(sessionKey := SessionKey(s.mk, shared, s.transcript), ephemeral := s.ephemeral.Erase(), ephemeralErased := true)
  }

  lemma OnM2Effect(c: U.Config, u: U.State, m: Message, now: nat)
    ensures var s := U.OnM2(c, u, m, now);
            && s.next.tid == u.tid && s.next.peers == u.peers
            && (s.next.phase2 != u.phase2 || s.outcome.Replied? ==>
                  && m.Has({NONCE_2, TIMESTAMP, EPK_B, MAC_TAG}) && u.phase2.authKey != Empty
                  && m.fields[MAC_TAG] == Mac(u.phase2.authKey, [U.M2Signed(u, m)])
                  && var x, shared := M2Noted(u, m), Derive(u.phase2.ephemeral.secret, m.fields[EPK_B]);
                     if shared.None? then s.outcome.Aborted? && s.next.phase2 == x else
                       && s.next.phase2 == M2Done(x, shared.value)
                       && s.outcome == Replied(U.M3(c, u.tid, m.suite, u.phase2.authKey, x.transcript)))
  {
    hide Size, DecodeStamp, TimestampFresh, U.RC.Last, Derive, U.M2Signed, U.M3;
  }

  lemma M2NotedOk(id: int, u: U.State, m: Message)
    requires Phase2Ok(id, u.phase2) && u.phase2.authKey != Empty && m.Has({NONCE_2, TIMESTAMP, EPK_B})
    requires m.fields[EPK_B].Share?
    ensures var shared := Derive(u.phase2.ephemeral.secret, m.fields[EPK_B]);
            Phase2Ok(id, if shared.Some? then M2Done(M2Noted(u, m), shared.value) else M2Noted(u, m))
  {
    var t := u.phase2.transcript;
    if |t| > 1 { assert (t + [U.M2Signed(u, m)])[..2] == t[..2]; }
    if |t| == 1 { assert (t + [U.M2Signed(u, m)])[..2] == t + [U.M2Signed(u, m)]; }
  }

  lemma M3Vouches(c: U.Config, u: int, tid: Term, suite: nat, s: U.Phase2)
    requires TidOk(u, tid) && |s.transcript| == 2
    ensures forall t :: t in Fields(Replied(U.M3(c, tid, suite, s.authKey, s.transcript))) ==>
              Plain(t) || (IsM3Tag(t) && Confirms(s, t))
  {
    assert ([InputM3(suite, tid)] + s.transcript)[1..] == s.transcript;
  }

  lemma M2DoneConfirmed(id: int, u: U.State, m: Message)
    requires Phase2Ok(id, u.phase2) && u.phase2.authKey != Empty && m.Has({NONCE_2, TIMESTAMP, EPK_B})
    requires m.fields[EPK_B].Share?
    ensures var shared := Derive(u.phase2.ephemeral.secret, m.fields[EPK_B]);
            shared.Some? ==> ConfirmedOk(M2Done(M2Noted(u, m), shared.value))
  {}

  lemma AuthKeyIs(id: int, s: U.Phase2)
    requires Phase2Ok(id, s) && s.authKey != Empty
    ensures s.authKey.AuthKey?
  {}

  // A ground-station tag that verifies is over a genuine share.
  lemma VerifiedShare(id: int, u: U.State, m: Message)
    requires Phase2Ok(id, u.phase2) && u.phase2.authKey != Empty && TagsOk(m)
    requires m.Has({NONCE_2, TIMESTAMP, EPK_B, MAC_TAG})
    requires m.fields[MAC_TAG] == Mac(u.phase2.authKey, [U.M2Signed(u, m)])
    ensures m.fields[EPK_B].Share?
  {
    AuthKeyIs(id, u.phase2);
    assert M2TagOk(m.fields[MAC_TAG]);
  }

  lemma OnM2Keeps(c: U.Config, ids: set<int>, u: U.State, m: Message, now: nat)
    requires UavOk(ids, c.id, u) && TagsOk(m)
    ensures var s := U.OnM2(c, u, m, now);
            && UavOk(ids, c.id, s.next) && s.next.tid == u.tid
            && (!s.outcome.Replied? ==> AllPlain(s.outcome))
            && (s.outcome.Replied? ==>
                  && ConfirmedOk(s.next.phase2)
                  && forall t :: t in Fields(s.outcome) ==> Plain(t) || (IsM3Tag(t) && Confirms(s.next.phase2, t)))
  {
    hide U.OnM2, PairCredential, ExchangeOk, Phase2Ok, Derive, Plain, U.M3, TidOk, IsM3Tag, Confirms, Fields;
    OnM2Effect(c, u, m, now);
    var s := U.OnM2(c, u, m, now);
    NoReplyPlain(s.outcome);
    if s.next.phase2 != u.phase2 || s.outcome.Replied? {
      AuthKeyIs(c.id, u.phase2);
      assert m.fields[EPK_B].Share? by { assert M2TagOk(m.fields[MAC_TAG]); }
      M2NotedOk(c.id, u, m);
      M2DoneConfirmed(c.id, u, m);
      if s.outcome.Replied? { M3Vouches(c, c.id, u.tid, m.suite, s.next.phase2); }
    }
  }

  // A package this UAV can open was sealed for it.
  lemma OpenedIsOwn(ids: set<int>, id: int, u: U.State, m: Message, a: Answer)
    requires m.Has({CRED_PKG}) && U.Opens(u, m) && u.phase2.sessionKey != Empty
    requires Phase2Ok(id, u.phase2) && AnswerOk(ids, a) && a.sealed == m.fields[CRED_PKG]
    ensures a.uav == id && u.phase2.mk == Master(id)
    ensures a.session.sessionKey == u.phase2.sessionKey
    ensures |u.phase2.transcript| > 1 && a.session.transcript == u.phase2.transcript[..2]
    ensures a.session.n1 == u.phase2.n1 && a.session.n2 == u.phase2.n2
    ensures a.sealed.aad.tid == u.phase2.tidAtRequest
  {
    hide FullPackage;
  }

  lemma OnM4Keeps(ids: set<int>, id: int, u: U.State, m: Message, answers: seq<Answer>)
    requires UavOk(ids, id, u) && forall i :: 0 <= i < |answers| ==> AnswerOk(ids, answers[i])
    requires CRED_PKG in m.fields && m.fields[CRED_PKG].Sealed? ==>
               exists i :: 0 <= i < |answers| && answers[i].sealed == m.fields[CRED_PKG]
    ensures var s := U.OnM4(u, m);
            && UavOk(ids, id, s.next) && AllPlain(s.outcome)
            && (s.outcome.Accepted? ==>
                  && IsRotation(id, s.next.tid) && s.next.phase2.creds.Keys == ids - {id} && s.next.peers == u.peers
                  && forall q :: q in s.next.phase2.creds ==> s.next.phase2.creds[q] == PairCredential(id, q))
            && (!s.outcome.Accepted? ==> s.next == u)
  {
    hide PairCredential, EncodeId, ExchangeOk, AnswerOk, U.Opens, Phase2Ok;
    var s := U.OnM4(u, m);
    if s.outcome.Accepted? {
      assert m.Has({CRED_PKG}) && U.Opens(u, m);
      OpensSealed(u, m);
      var i :| 0 <= i < |answers| && answers[i].sealed == m.fields[CRED_PKG];
      OpenedIsOwn(ids, id, u, m, answers[i]);
      AnswerFull(ids, answers[i]);
      AcceptedPhase2(id, u.phase2, s.next.phase2);
    }
  }

  lemma OpensSealed(u: U.State, m: Message)
    requires m.Has({CRED_PKG}) && U.Opens(u, m)
    ensures m.fields[CRED_PKG].Sealed?
  {}

  lemma AnswerFull(ids: set<int>, a: Answer)
    requires AnswerOk(ids, a)
    ensures a.sealed.Sealed? && FullPackage(ids, a.uav, a.sealed.package)
  {
    hide FullPackage;
  }

  lemma AcceptedPhase2(id: int, s: U.Phase2, t: U.Phase2)
    requires Phase2Ok(id, s) && t == s.(creds := t.creds, tids := t.tids, established := true)
    ensures Phase2Ok(id, t)
  {}

  lemma P1Plain(c: U.Config, peer: int, key: Term, now: nat, nonce: nat, scalar: nat)
    ensures AllPlain(Replied(U.P1(c, peer, key, now, nonce, scalar)))
  {}

  lemma OpeningOk(c: U.Config, peer: int, cred: Term, now: nat, nonce: nat, scalar: nat)
    requires PairOrEmpty(c.id, peer, cred)
    ensures ExchangeOk(c.id, peer, U.Opening(c, peer, cred, now, nonce, scalar))
  {
    hide PairCredential, EncodeId;
  }

  lemma OnStart3Keeps(c: U.Config, ids: set<int>, u: U.State, peer: int, now: nat, nonce: nat, scalar: nat)
    requires UavOk(ids, c.id, u)
    ensures var s := U.OnStart3(c, u, peer, now, nonce, scalar);
            UavOk(ids, c.id, s.next) && s.next.tid == u.tid && AllPlain(s.outcome)
  {
    hide PairOrEmpty, ExchangeOk, Phase2Ok, U.Opening, U.P1, Plain;
    if peer in u.phase2.creds {
      OpeningOk(c, peer, u.phase2.creds[peer], now, nonce, scalar);
      P1Plain(c, peer, PeerAuthKey(u.phase2.creds[peer]), now, nonce, scalar);
    }
  }

  lemma DecodedId(t: Term)
    ensures DecodeId(t).Some? && ValidId(DecodeId(t).value) ==> EncodeId(DecodeId(t).value) == t
  {}

  lemma OnP1Effect(c: U.Config, u: U.State, m: Message, now: nat, nonce: nat, scalar: nat)
    ensures var s := U.OnP1(c, u, m, now, nonce, scalar);
            && s.next.tid == u.tid && s.next.phase2 == u.phase2
            && (!s.outcome.Replied? ==> s.next.peers == u.peers)
            && (s.outcome.Replied? ==>
                  && m.Has(U.P1_FIELDS) && DecodeId(m.fields[SENDER_ID]).Some?
                  && var p := DecodeId(m.fields[SENDER_ID]).value;
                     && p in u.phase2.creds
                     && s.next.peers == u.peers[p := U.Answering(c, m, p, u.phase2.creds[p], nonce, scalar)]
                     && s.outcome.reply == U.P2(c, m, p, PeerAuthKey(u.phase2.creds[p]), nonce, scalar))
  {
    hide U.RC.Last, DecodeId, DecodeStamp, TimestampFresh, U.Answering, U.P2, U.P1Received;
  }

  lemma AnsweringOk(c: U.Config, m: Message, p: int, cred: Term, nonce: nat, scalar: nat)
    requires m.Has(U.P1_FIELDS) && DecodeId(m.fields[SENDER_ID]) == Some(p) && ValidId(p) && PairOrEmpty(c.id, p, cred)
    ensures var y := U.Answering(c, m, p, cred, nonce, scalar);
            ExchangeOk(c.id, p, y) && y.localId == c.id && y.peerId == p && !y.initiator && Open(y)
  {
    hide PairOrEmpty, EncodeId, DecodeId, ValidId;
    DecodedId(m.fields[SENDER_ID]);
  }

  lemma P2Offers(c: U.Config, m: Message, p: int, cred: Term, nonce: nat, scalar: nat)
    requires m.Has(U.P1_FIELDS)
    ensures var y := U.Answering(c, m, p, cred, nonce, scalar);
            forall t :: t in Fields(Replied(U.P2(c, m, p, PeerAuthKey(cred), nonce, scalar))) ==>
              Plain(t) || (IsP2Tag(t) && Offers(y, t))
  {}

  lemma OnP1Keeps(c: U.Config, ids: set<int>, u: U.State, m: Message, now: nat, nonce: nat, scalar: nat)
    requires UavOk(ids, c.id, u) && c.id in ids && forall id :: id in ids ==> ValidId(id)
    ensures var s := U.OnP1(c, u, m, now, nonce, scalar);
            && UavOk(ids, c.id, s.next) && s.next.tid == u.tid
            && (!s.outcome.Replied? ==> AllPlain(s.outcome))
            && (s.outcome.Replied? ==>
                  && s.outcome.reply.receiver in s.next.peers
                  && var y := s.next.peers[s.outcome.reply.receiver];
                     && ResponseOk(ids, y)
                     && forall t :: t in Fields(s.outcome) ==> Plain(t) || (IsP2Tag(t) && Offers(y, t)))
  {
    hide U.OnP1, PairOrEmpty, DecodeId, Phase2Ok, ExchangeOk, ValidId, Plain, IsP2Tag, Offers, U.Answering, Fields, AllPlain;
    OnP1Effect(c, u, m, now, nonce, scalar);
    var s := U.OnP1(c, u, m, now, nonce, scalar);
    NoReplyPlain(s.outcome);
    if s.outcome.Replied? {
      var p := DecodeId(m.fields[SENDER_ID]).value;
      AnsweringOk(c, m, p, u.phase2.creds[p], nonce, scalar);
      P2Offers(c, m, p, u.phase2.creds[p], nonce, scalar);
    }
  }

  // What handling P2 or P3 can do to the exchange it concerns.
  function Finished(x: U.Exchange, cred: Term, shared: Term): U.Exchange {
    x.(sessionKey := PeerKey(cred, shared, x.p1 + x.p2), ephemeral := x.ephemeral.Erase(), ephemeralErased := true,
       established := true)
  }

  function Noted(x: U.Exchange, m: Message): U.Exchange
    requires m.Has({NONCE_2, EPK_B})
  {
    x.(nonceRemote := m.fields[NONCE_2], epkRemote := m.fields[EPK_B])
  }

  function Confirmed(x: U.Exchange, m: Message): U.Exchange
    requires m.Has({NONCE_2, EPK_B})
  {
    var s := Noted(x, m);
    s.(p2 := [U.P2Received(s, m.suite)])
  }

  lemma DeriveNeedsSecret(secret: Option<nat>, peer: Term)
    ensures Derive(secret, peer).Some? ==> secret.Some?
  {}

  // Handling P2. An answered one finishes the exchange with the credential found, or left, at its peer's place.
  lemma OnP2Effect(u: U.State, m: Message)
    requires forall p :: p in u.peers ==> u.peers[p].peerId == p
    ensures var s := U.OnP2(u, m);
            && s.next.tid == u.tid && s.next.recent == u.recent
            && (s.next != u ==> m.Has({NONCE_2, EPK_B}) && m.sender in u.peers && u.peers[m.sender].initiator)
            && (!s.outcome.Replied? ==> s.outcome.Aborted? && s.next.phase2 == u.phase2)
            && (!s.outcome.Replied? && s.next != u ==>
                  var x := u.peers[m.sender];
                  || s.next.peers == u.peers[m.sender := Noted(x, m)]
                  || (s.next.peers == u.peers[m.sender := Confirmed(x, m)]
                      && Derive(x.ephemeral.secret, m.fields[EPK_B]).None?))
            && (s.outcome.Replied? ==>
                  && m.Has({NONCE_2, EPK_B, MAC_TAG}) && m.sender in u.peers && u.peers[m.sender].initiator
                  && var x := Confirmed(u.peers[m.sender], m);
                     && var shared := Derive(x.ephemeral.secret, x.epkRemote);
                        && shared.Some? && Open(x)
                        && m.fields[MAC_TAG] == Mac(x.authKey, x.p2)
                        && s.next.phase2 == u.phase2.(creds := U.WithCredential(u.phase2.creds, m.sender))
                        && s.next.peers == u.peers[m.sender := Finished(x, s.next.phase2.creds[m.sender], shared.value)]
                        && s.outcome.reply == U.P3(x, m.suite))
  {
    hide U.P2Received, U.P3, Derive, Size, U.WithCredential;
    if m.Has({NONCE_2, EPK_B}) && m.sender in u.peers {
      DeriveNeedsSecret(u.peers[m.sender].ephemeral.secret, m.fields[EPK_B]);
    }
  }

  lemma NotedOk(id: int, p: int, x: U.Exchange, m: Message)
    requires ExchangeOk(id, p, x) && x.initiator && m.Has({NONCE_2, EPK_B})
    ensures ExchangeOk(id, p, Noted(x, m)) && ExchangeOk(id, p, Confirmed(x, m))
    ensures IsP2(Confirmed(x, m).p2, id, p, Confirmed(x, m).epkLocal, Confirmed(x, m).epkRemote)
  {
    hide PairCredential, EncodeId;
  }

  lemma FinishedOk(id: int, p: int, x: U.Exchange, cred: Term, shared: Term)
    requires ExchangeOk(id, p, x)
    ensures ExchangeOk(id, p, Finished(x, cred, shared)) && !Open(Finished(x, cred, shared))
  {
    hide PairCredential, EncodeId;
  }

  lemma CompletedOk(ids: set<int>, id: int, p: int, x: U.Exchange, cred: Term, suite: nat)
    requires ExchangeOk(id, p, x) && x.initiator && id in ids && p in ids && p != id && PairOrEmpty(id, p, cred)
    requires IsP2(x.p2, id, p, x.epkLocal, x.epkRemote)
    requires Derive(x.ephemeral.secret, x.epkRemote).Some?
    ensures var done := Finished(x, cred, Derive(x.ephemeral.secret, x.epkRemote).value);
            && CompletionOk(ids, done)
            && forall t :: t in Fields(Replied(U.P3(x, suite))) ==> IsP3Tag(t) && Vouches(done, t)
  {
    hide PairOrEmpty, EncodeId;
    assert ([InputP3(suite)] + x.p1 + x.p2)[1..] == x.p1 + x.p2;
  }

  lemma WithCredentialOk(ids: set<int>, u: int, p: int, creds: map<int, Term>)
    requires CredsOk(ids, u, creds) && p in ids && p != u
    ensures CredsOk(ids, u, U.WithCredential(creds, p)) && PairOrEmpty(u, p, U.WithCredential(creds, p)[p])
  {
    hide PairCredential;
  }

  lemma SamePhase2(u: int, s: U.Phase2, creds: map<int, Term>)
    requires Phase2Ok(u, s)
    ensures Phase2Ok(u, s.(creds := creds))
  {}

  lemma OnP2Keeps(ids: set<int>, id: int, u: U.State, m: Message)
    requires UavOk(ids, id, u) && id in ids
    ensures var s := U.OnP2(u, m);
            && UavOk(ids, id, s.next) && s.next.tid == u.tid
            && (!s.outcome.Replied? ==> AllPlain(s.outcome))
            && (s.outcome.Replied? ==>
                  && m.sender in s.next.peers
                  && var x := s.next.peers[m.sender];
                     && CompletionOk(ids, x)
                     && forall t :: t in Fields(s.outcome) ==> IsP3Tag(t) && Vouches(x, t))
  {
    hide U.OnP2, PairOrEmpty, Phase2Ok, CompletionOk, CredsOk, Derive, Noted, Confirmed, U.P3, ExchangeOk, Finished,
      AllPlain, TidOk, IsP3Tag, Vouches, Fields, U.WithCredential;
    forall p | p in u.peers ensures u.peers[p].peerId == p { PeerIdOf(id, p, u.peers[p]); }
    OnP2Effect(u, m);
    var s := U.OnP2(u, m);
    NoReplyPlain(s.outcome);
    if m.Has({NONCE_2, EPK_B}) && m.sender in u.peers && u.peers[m.sender].initiator {
      var x := u.peers[m.sender];
      NotedOk(id, m.sender, x, m);
      ConfirmedFields(x, m);
      if s.outcome.Replied? {
        var y := Confirmed(x, m);
        var cred := U.WithCredential(u.phase2.creds, m.sender)[m.sender];
        WithCredentialOk(ids, id, m.sender, u.phase2.creds);
        SamePhase2(id, u.phase2, U.WithCredential(u.phase2.creds, m.sender));
        FinishedOk(id, m.sender, y, cred, Derive(y.ephemeral.secret, y.epkRemote).value);
        CompletedOk(ids, id, m.sender, y, cred, m.suite);
      }
    }
  }

  lemma NoReplyPlain(o: Outcome)
    ensures !o.Replied? ==> AllPlain(o)
  {}

  lemma PeerIdOf(u: int, p: int, x: U.Exchange)
    requires ExchangeOk(u, p, x)
    ensures x.peerId == p
  {}

  lemma ConfirmedFields(x: U.Exchange, m: Message)
    requires m.Has({NONCE_2, EPK_B})
    ensures Noted(x, m).initiator == x.initiator && Noted(x, m).ephemeral == x.ephemeral
    ensures Confirmed(x, m).initiator == x.initiator && Confirmed(x, m).ephemeral == x.ephemeral
    ensures Confirmed(x, m).epkLocal == x.epkLocal && Confirmed(x, m).epkRemote == m.fields[EPK_B]
  {}

  // Accepting P3: the tag checks, and the exchange is finished with the credential found, or left, at its peer's place.
  lemma OnP3Effect(u: U.State, m: Message)
    requires forall p :: p in u.peers ==> u.peers[p].peerId == p
    ensures var s := U.OnP3(u, m);
            && s.next.tid == u.tid && !s.outcome.Replied?
            && (!s.outcome.Accepted? ==> s.next == u)
            && (s.outcome.Accepted? ==>
                  && m.sender in u.peers && !u.peers[m.sender].initiator && MAC_TAG in m.fields
                  && var r := u.peers[m.sender];
                     && m.fields[MAC_TAG] == Mac(r.authKey, [InputP3(m.suite)] + r.p1 + r.p2)
                     && Open(r) && Derive(r.ephemeral.secret, r.epkRemote).Some?
                     && s.next.phase2 == u.phase2.(creds := U.WithCredential(u.phase2.creds, m.sender))
                     && s.next.peers == u.peers[m.sender := Finished(r, s.next.phase2.creds[m.sender],
                                                                     Derive(r.ephemeral.secret, r.epkRemote).value)])
  {
    hide U.WithCredential;
  }

  lemma OnP3Keeps(ids: set<int>, id: int, u: U.State, m: Message)
    requires UavOk(ids, id, u)
    ensures var s := U.OnP3(u, m);
            UavOk(ids, id, s.next) && s.next.tid == u.tid && AllPlain(s.outcome)
  {
    hide U.OnP3, PairOrEmpty, Phase2Ok, ExchangeOk, CredsOk, Derive, Finished, U.WithCredential;
    forall p | p in u.peers ensures u.peers[p].peerId == p { PeerIdOf(id, p, u.peers[p]); }
    OnP3Effect(u, m);
    if U.OnP3(u, m).outcome.Accepted? {
      var r := u.peers[m.sender];
      var creds := U.WithCredential(u.phase2.creds, m.sender);
      WithCredentialOk(ids, id, m.sender, u.phase2.creds);
      SamePhase2(id, u.phase2, creds);
      FinishedOk(id, m.sender, r, creds[m.sender], Derive(r.ephemeral.secret, r.epkRemote).value);
    }
  }
}
