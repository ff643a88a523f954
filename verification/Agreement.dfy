// Agreement in Phase 2, and synchrony of the temporary identities, over every run.
module Agreement {
  import opened Wrappers
  import opened Symbols
  import GS = GroundStation
  import U = UavProtocol
  import opened Network
  import opened Invariants
  import opened Preservation
  import opened Runs

  // ---------- Phase 2 ----------

  // The answer of the ground station that an accepted M4 comes from.
  ghost predicate AnsweredBy(a: Answer, u: int, x: U.State, m: Message) {
    && a.uav == u && CRED_PKG in m.fields && a.sealed == m.fields[CRED_PKG]
    && a.session.sessionKey == x.phase2.sessionKey
    && |x.phase2.transcript| > 1 && a.session.transcript == x.phase2.transcript[..2]
    && a.session.n1 == x.phase2.n1 && a.session.n2 == x.phase2.n2
  }

  // Whenever a UAV accepts M4, the ground station sealed that very package for it in a session with the same
  // transcript and key, and the UAV ends with a credential for every other enrolled UAV.
  lemma Phase2Agreement(c: Config, w0: World, events: seq<Event>, u: int, m: Message)
    requires c.Valid() && Initial(c, w0) && Run(c, w0, events).Some?
    requires Enabled(c, Run(c, w0, events).value, UavM4(u, m))
    requires U.OnM4(Run(c, w0, events).value.uavs[u], m).outcome.Accepted?
    ensures var w := Run(c, w0, events).value;
            exists i :: 0 <= i < |w.answers| && AnsweredBy(w.answers[i], u, w.uavs[u], m)
    ensures var x := U.OnM4(Run(c, w0, events).value.uavs[u], m).next;
            x.phase2.creds == map p | p in c.ids && p != u :: PairCredential(u, p)
    ensures U.OnM4(Run(c, w0, events).value.uavs[u], m).next.phase2.established
  {
    hide Run, Initial, SessionOk, AnswerOk, CredsOk, U.Opens, Phase2Ok;
    RunInv(c, w0, events);
    var w := Run(c, w0, events).value;
    Parts(c, w, u);
    UavParts(c.ids, u, w.uavs[u]);
    DeliveredTags(c, w, m);
    OpensSealed(w.uavs[u], m);
    var i :| 0 <= i < |w.answers| && w.answers[i].sealed == m.fields[CRED_PKG];
    AnswersAre(c, w, i);
    OpenedIsOwn(c.ids, u, w.uavs[u], m, w.answers[i]);
    AnswerFull(c.ids, w.answers[i]);
    assert AnsweredBy(w.answers[i], u, w.uavs[u], m);
    FullCredentials(c.ids, u, w.answers[i].sealed.package);
  }

  // Whenever the ground station answers M3, the UAV whose key it is had confirmed a session with the same transcript
  // and had derived the same session key.
  lemma Phase2Confirmation(c: Config, w0: World, events: seq<Event>, m: Message)
    requires c.Valid() && Initial(c, w0) && Run(c, w0, events).Some?
    requires Enabled(c, Run(c, w0, events).value, GsM3(m))
    requires GS.OnM3(Run(c, w0, events).value.gs, m).outcome.Replied?
    ensures var w := Run(c, w0, events).value;
            var s := GS.OnM3(w.gs, m);
            && Answers(s)
            && exists p :: p in w.confirmed && SameSession(p, AnswerOf(s))
  {
    hide *;
    RunInv(c, w0, events);
    AnsweredIsConfirmed(c, Run(c, w0, events).value, m);
  }

  lemma AnsweredIsConfirmed(c: Config, w: World, m: Message)
    requires Inv(c, w) && Enabled(c, w, GsM3(m)) && GS.OnM3(w.gs, m).outcome.Replied?
    ensures Answers(GS.OnM3(w.gs, m))
    ensures exists p :: p in w.confirmed && SameSession(p, AnswerOf(GS.OnM3(w.gs, m)))
  {
    hide *;
    M3EventIs(c, w, m);
    GsIsOk(c, w);
    OnM3Answers(c.ids, w.gs, m);
    OnM3Verified(w.gs, m);
    var s := GS.OnM3(w.gs, m);
    var id := s.outcome.reply.receiver;
    var x := w.gs.sessions[id];
    SessionIs(c.ids, w.gs, id);
    var tag := m.fields[MAC_TAG];
    SessionTag(id, x, m);
    TagSent(w, m);
    M3SentIsOk(c, w, tag);
    var p :| p in w.confirmed && Confirms(p, tag);
    ConfirmedAre(c, w, p);
    SameDerivation(id, x, p, tag, AnswerOf(s));
  }

  predicate SameSession(p: U.Phase2, a: Answer) {
    p.mk == Master(a.uav) && p.transcript == a.session.transcript && p.sessionKey == a.session.sessionKey
  }

  lemma M3EventIs(c: Config, w: World, m: Message)
    requires Enabled(c, w, GsM3(m))
    ensures Deliverable(m, w.sent)
  {}

  lemma M4EventIs(c: Config, w: World, u: int, m: Message)
    requires Enabled(c, w, UavM4(u, m))
    ensures u in w.uavs && Deliverable(m, w.sent)
  {}

  lemma GsIsOk(c: Config, w: World)
    requires Inv(c, w)
    ensures GsOk(c.ids, w.gs)
  {}

  lemma DeviceKey(ids: set<int>, g: GS.State, id: int)
    requires GsOk(ids, g) && id in g.devices
    ensures g.devices[id].mk == Master(id)
  {
    hide SessionOk;
  }

  // Answering M1: the tag checks, under the key of the device that holds the identity.
  lemma M1Verified(c: GS.Config, g: GS.State, m: Message, now: nat, n2: nat, scalar: nat)
    requires GS.OnM1(c, g, m, now, n2, scalar).outcome.Replied?
    ensures m.Has({TID, NONCE_1, TIMESTAMP, EPK_A, MAC_TAG}) && MAC_TAG in m.fields
    ensures var id := GS.OnM1(c, g, m, now, n2, scalar).outcome.reply.receiver;
            id in g.devices && m.fields[MAC_TAG] == Mac(AuthKey(g.devices[id].mk), [GS.M1Signed(m)])
  {
    hide GS.DeviceWith, GS.RC.Last, Size, DecodeStamp, TimestampFresh, GS.NewSession;
  }

  lemma SessionIs(ids: set<int>, g: GS.State, id: int)
    requires GsOk(ids, g) && id in g.sessions
    ensures SessionOk(id, g.sessions[id]) && id in g.devices && g.devices[id].mk == Master(id)
  {
    hide SessionOk;
  }

  // Answering M3: the tag checks, and the key comes from the stored secret and share.
  lemma OnM3Verified(g: GS.State, m: Message)
    requires GS.OnM3(g, m).outcome.Replied?
    ensures var s := GS.OnM3(g, m);
            && m.Has({TID, MAC_TAG}) && MAC_TAG in m.fields && s.outcome.Replied?
            && var id := s.outcome.reply.receiver;
               && id in g.sessions && id in g.devices && id in s.next.sessions
               && var x := g.sessions[id];
                  && m.fields[MAC_TAG] == Mac(x.authKey, [InputM3(m.suite, m.fields[TID])] + x.transcript)
                  && Derive(x.ephemeral.secret, x.epkA).Some?
                  && s.next.sessions[id] == Answered(x, g.devices[id].mk, Derive(x.ephemeral.secret, x.epkA).value)
    ensures Answers(GS.OnM3(g, m)) ==> AnswerOf(GS.OnM3(g, m)).uav == GS.OnM3(g, m).outcome.reply.receiver
    ensures Answers(GS.OnM3(g, m)) ==>
              var id := GS.OnM3(g, m).outcome.reply.receiver;
              AnswerOf(GS.OnM3(g, m)).session == GS.OnM3(g, m).next.sessions[id]
  {
    hide GS.DeviceWith, Derive, GS.PackageFor, GS.Rotated;
  }

  lemma SessionTag(id: int, x: GS.Session, m: Message)
    requires SessionOk(id, x) && m.Has({TID, MAC_TAG})
    requires m.fields[MAC_TAG] == Mac(x.authKey, [InputM3(m.suite, m.fields[TID])] + x.transcript)
    ensures m.fields[MAC_TAG].Mac? && IsM3Tag(m.fields[MAC_TAG])
    ensures m.fields[MAC_TAG].key == AuthKey(Master(id)) && m.fields[MAC_TAG].text[1..] == x.transcript
  {}

  lemma M3SentIsOk(c: Config, w: World, t: Term)
    requires Inv(c, w) && t in w.sent && IsM3Tag(t)
    ensures exists p :: p in w.confirmed && Confirms(p, t)
  {
    hide GsOk, UavOk, CompletionOk, ResponseOk, ConfirmedOk, AnswerOk, IsRotation, TidsOk;
    assert SentOk(w, t);
  }

  lemma ConfirmedAre(c: Config, w: World, p: U.Phase2)
    requires Inv(c, w) && p in w.confirmed
    ensures ConfirmedOk(p)
  {
    hide GsOk, UavOk, CompletionOk, ResponseOk, ConfirmedOk, AnswerOk, IsRotation, TidsOk, SentOk;
  }

  lemma SameDerivation(id: int, x: GS.Session, p: U.Phase2, tag: Term, a: Answer)
    requires SessionOk(id, x) && ConfirmedOk(p) && IsM3Tag(tag) && Confirms(p, tag)
    requires tag.key == AuthKey(Master(id)) && tag.text[1..] == x.transcript
    requires Derive(x.ephemeral.secret, x.epkA).Some?
    requires a.uav == id && a.session == Answered(x, Master(id), Derive(x.ephemeral.secret, x.epkA).value)
    ensures SameSession(p, a)
  {
    DhCommutes(x.epkA.scalar, x.ephemeral.secret.value);
  }

  lemma UavParts(ids: set<int>, u: int, x: U.State)
    requires UavOk(ids, u, x)
    ensures Phase2Ok(u, x.phase2) && CredsOk(ids, u, x.phase2.creds) && PeersOk(ids, u, x) && TidOk(u, x.tid)
  {}

  lemma AnswersAre(c: Config, w: World, i: nat)
    requires Inv(c, w) && i < |w.answers|
    ensures AnswerOk(c.ids, w.answers[i])
  {
    hide GsOk, UavOk, CompletionOk, ResponseOk, ConfirmedOk, AnswerOk, IsRotation, SentOk, TidsOk;
  }

  lemma FullCredentials(ids: set<int>, u: int, p: Package)
    requires FullPackage(ids, u, p)
    ensures p.creds == map q | q in ids && q != u :: PairCredential(u, q)
  {
    hide FullPackage, PairCredential;
    FullParts(ids, u, p);
    var full := map q | q in ids && q != u :: PairCredential(u, q);
    assert full.Keys == ids - {u};
  }

  lemma FullParts(ids: set<int>, u: int, p: Package)
    requires FullPackage(ids, u, p)
    ensures p.creds.Keys == ids - {u} && forall q :: q in p.creds ==> p.creds[q] == PairCredential(u, q)
  {
    hide PairCredential, IsRotation;
  }

  lemma TagSent(w: World, m: Message)
    requires Deliverable(m, w.sent) && MAC_TAG in m.fields && m.fields[MAC_TAG].Mac?
    requires m.fields[MAC_TAG].key != PeerAuthKey(Empty)
    ensures m.fields[MAC_TAG] in w.sent
  {}

  // ---------- temporary identities ----------

  lemma HoldsOwn(ids: set<int>, g: GS.State, u: int, t: Term, id: int)
    requires GsOk(ids, g) && TidOk(u, t) && id in ids && GS.Holds(g.devices[id], t)
    ensures id == u
  {
    hide SessionOk;
  }

  predicate LastRotationIsLastSealed(w: World, u: int) {
    && LastRotation(w.rotations, u).Some? && LastSealed(w.answers, u).Some?
    && LastSealed(w.answers, u).value.Sealed?
    && LastSealed(w.answers, u).value.package.tidNew == LastRotation(w.rotations, u).value
  }

  // The ground station recognises the identity a UAV holds if and only if the UAV has never rotated it, or its last
  // rotation came from the last package sealed for it.
  lemma RecognisedIff(c: Config, w0: World, events: seq<Event>, u: int)
    requires c.Valid() && Initial(c, w0) && Run(c, w0, events).Some? && u in Run(c, w0, events).value.uavs
    ensures var w := Run(c, w0, events).value;
            GS.DeviceWith(w.gs.devices, w.uavs[u].tid)
            == if LastRotation(w.rotations, u).None? || LastRotationIsLastSealed(w, u) then Some(u) else None
  {
    hide Run, Initial, SessionOk, LastRotation, LastSealed, GS.DeviceWith, Phase2Ok, CredsOk, PeersOk, AnswerOk, SentOk,
      CompletionOk, ResponseOk, ConfirmedOk;
    RunInv(c, w0, events);
    var w := Run(c, w0, events).value;
    Parts(c, w, u);
    UavParts(c.ids, u, w.uavs[u]);
    var t := w.uavs[u].tid;
    var d := w.gs.devices[u];
    assert TidsOk(w, u) && DeviceOk(u, d);
    LastRotationIs(w.rotations, u);
    var found := GS.DeviceWith(w.gs.devices, t);
    if found.Some? { HoldsOwn(c.ids, w.gs, u, t, found.value); }
    assert GS.Holds(d, t) <==> found.Some?;
  }

  lemma {:induction false} LastRotationIs(rotations: seq<Rotation>, u: int)
    requires forall i :: 0 <= i < |rotations| ==> IsRotation(rotations[i].uav, rotations[i].tid)
    ensures LastRotation(rotations, u).Some? ==> IsRotation(u, LastRotation(rotations, u).value)
  {
    hide IsRotation;
    if |rotations| > 0 && rotations[|rotations| - 1].uav != u { LastRotationIs(rotations[..|rotations| - 1], u); }
  }

  // A lost M4 after a first rotation strands the UAV: the ground station answers an M3 with a new identity, and from
  // then on no M1 under the identity the UAV still holds is answered.
  lemma LostM4Strands(c: Config, w0: World, events: seq<Event>, u: int, m3: Message, m1: Message, now: nat, n2: nat, scalar: nat)
    requires c.Valid() && Initial(c, w0) && Run(c, w0, events).Some?
    requires var w := Run(c, w0, events).value;
             && u in w.uavs && LastRotation(w.rotations, u).Some?
             && Enabled(c, w, GsM3(m3)) && Answers(GS.OnM3(w.gs, m3)) && AnswerOf(GS.OnM3(w.gs, m3)).uav == u
             && var sealed := AnswerOf(GS.OnM3(w.gs, m3)).sealed;
                sealed.Sealed? && sealed.package.tidNew != w.uavs[u].tid
    requires m1.Has({TID}) && m1.fields[TID] == Run(c, w0, events).value.uavs[u].tid
    ensures var v := Next(c, Run(c, w0, events).value, GsM3(m3));
            && GS.DeviceWith(v.gs.devices, v.uavs[u].tid) == None
            && GS.OnM1(c.Gs(), v.gs, m1, now, n2, scalar).outcome.Aborted?
  {
    hide Run, Initial, LastRotation, LastSealed, GS.DeviceWith, GS.OnM3, Enabled, Size, TimestampFresh, GS.RC.Last, Inv;
    var w := Run(c, w0, events).value;
    var e := GsM3(m3);
    assert (events + [e])[..|events|] == events;
    RunExtends(c, w0, events, e);
    var v := Next(c, w, e);
    RecognisedIff(c, w0, events + [e], u);
    LastSealedSnoc(w.answers, AnswerOf(GS.OnM3(w.gs, m3)), u);
    RotatedTid(c, w0, events, u);
  }

  lemma RunExtends(c: Config, w: World, events: seq<Event>, e: Event)
    requires Run(c, w, events).Some? && Enabled(c, Run(c, w, events).value, e)
    ensures Run(c, w, events + [e]) == Some(Next(c, Run(c, w, events).value, e))
  {
    hide Next, Enabled;
    assert (events + [e])[..|events|] == events;
  }

  lemma RotatedTid(c: Config, w0: World, events: seq<Event>, u: int)
    requires c.Valid() && Initial(c, w0) && Run(c, w0, events).Some? && u in Run(c, w0, events).value.uavs
    ensures var w := Run(c, w0, events).value;
            LastRotation(w.rotations, u).Some? ==> w.uavs[u].tid == LastRotation(w.rotations, u).value
  {
    hide Run, Initial, LastRotation, LastSealed, GsOk, UavOk, AnswerOk, SentOk, CompletionOk, ResponseOk, ConfirmedOk, IsRotation;
    RunInv(c, w0, events);
    var w := Run(c, w0, events).value;
    Parts(c, w, u);
    DevicesAre(c.ids, w.gs);
    assert TidsOk(w, u);
  }
}
