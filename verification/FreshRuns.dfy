// Runs in which nonces are fresh: the package a UAV accepts is the newest one sealed for it, so that prompt acceptance
// keeps its identity recognised.
module FreshRuns {
  import opened Wrappers
  import opened Symbols
  import GS = GroundStation
  import U = UavProtocol
  import opened Network
  import opened Invariants
  import opened Preservation
  import opened Runs
  import opened Agreement
  import opened PeerAgreement
  import opened SingleUse

  // ---------- what fresh nonces keep ----------

  predicate IsM1Tag(t: Term) { t.Mac? && |t.text| == 1 && t.text[0].InputM1? }

  predicate IsM2Tag(t: Term) { t.Mac? && |t.text| == 1 && t.text[0].InputM2? }

  // The nonces of Phase 2 have been sent with the tags over them; ground-station tags are under enrolled keys.
  predicate TagKnown(sent: set<Term>, t: Term) {
    && (IsM1Tag(t) ==> t.text[0].n1 in sent)
    && (IsM2Tag(t) ==> t.text[0].n1 in sent && t.text[0].n2 in sent && t.key.AuthKey? && t.key.mk.Master?)
  }

  ghost predicate TagsKnown(w: World) { forall t :: t in w.sent ==> TagKnown(w.sent, t) }

  predicate SessionKnown(sent: set<Term>, p: U.Phase2) {
    && |p.transcript| == 2 && p.transcript[0].InputM1? && p.transcript[1].InputM2?
    && p.transcript[0].n1 in sent && p.transcript[1].n2 in sent
  }

  ghost predicate SessionsKnown(w: World) { forall p :: p in w.confirmed ==> SessionKnown(w.sent, p) }

  ghost predicate ConfirmedBy(w: World, u: int, t: seq<Input>) {
    exists p :: p in w.confirmed && p.mk == Master(u) && p.transcript == t
  }

  function TidFor(u: int, n1: Term, n2: Term): Term { NextTid(Master(u), FirstTid(Master(u), u), n1, n2) }

  ghost predicate AnswerKnown(w: World, a: Answer) {
    && a.sealed.Sealed? && a.sealed.package.tidNew == TidFor(a.uav, a.session.n1, a.session.n2)
    && TranscriptOk(a.session.transcript, a.session.n1, a.session.n2)
    && ConfirmedBy(w, a.uav, a.session.transcript)
  }

  ghost predicate AnswersKnown(w: World) {
    forall i :: 0 <= i < |w.answers| ==> AnswerKnown(w, w.answers[i])
  }

  predicate Under(p: U.Phase2, n1: Term) {
    |p.transcript| > 0 && p.transcript[0].InputM1? && p.transcript[0].n1 == n1
  }

  // The UAV's session has sent its nonce, and what the UAV has confirmed under that nonce is what its key is bound to.
  ghost predicate OneTranscript(w: World, u: int, x: U.Phase2) {
    && x.n1 in w.sent
    && forall p :: p in w.confirmed && p.mk == Master(u) && Under(p, x.n1) ==>
         x.sessionKey != Empty && |x.transcript| > 1 && p.transcript == x.transcript[..2]
  }

  predicate Offered(w: World, u: int, n1: Term) {
    exists t :: t in w.sent && IsM2Tag(t) && t.key == AuthKey(Master(u)) && t.text[0].n1 == n1
  }

  // A ground-station session that the UAV confirmed under an older nonce has not been replaced since, so no M2 has been
  // sent under the UAV's present nonce.
  ghost predicate NotSuperseded(w: World, u: int, x: U.Phase2) {
    u in w.gs.sessions && ConfirmedBy(w, u, w.gs.sessions[u].transcript) && w.gs.sessions[u].n1 != x.n1 ==>
      !Offered(w, u, x.n1)
  }

  ghost predicate KeyOffered(w: World, u: int, x: U.Phase2) {
    x.sessionKey != Empty ==> Offered(w, u, x.n1) && |x.transcript| > 1 && x.transcript[1].InputM2?
  }

  ghost predicate SealedUnder(w: World, u: int, t: seq<Input>) {
    exists i :: 0 <= i < |w.answers| && w.answers[i].uav == u && w.answers[i].session.transcript == t
  }

  predicate LastSealedIs(w: World, u: int, tid: Term) {
    var last := LastSealed(w.answers, u);
    last.Some? && last.value.Sealed? && last.value.package.tidNew == tid
  }

  // If a package has been sealed under the UAV's present key, the newest package for the UAV was.
  ghost predicate NewestIsCurrent(w: World, u: int, x: U.Phase2) {
    x.sessionKey != Empty && |x.transcript| > 1 && x.transcript[1].InputM2? && SealedUnder(w, u, x.transcript[..2]) ==>
      LastSealedIs(w, u, TidFor(u, x.n1, x.transcript[1].n2))
  }

  ghost predicate Current(w: World, u: int) {
    u in w.uavs && var x := w.uavs[u].phase2;
    x.authKey != Empty ==>
      && OneTranscript(w, u, x) && NotSuperseded(w, u, x) && KeyOffered(w, u, x) && NewestIsCurrent(w, u, x)
  }

  ghost predicate FreshInv(w: World, u: int) {
    TagsKnown(w) && SessionsKnown(w) && AnswersKnown(w) && Current(w, u)
  }

  // ---------- events that touch nothing of it ----------

  // No M2 is sent, and no M1 without its nonce.
  predicate Quiet(sent: set<Term>, o: Outcome) { forall t :: t in Fields(o) ==> !IsM2Tag(t) && TagKnown(sent, t) }

  predicate SameCore(x: U.Phase2, y: U.Phase2) {
    && y.mk == x.mk && y.authKey == x.authKey && y.n1 == x.n1 && y.sessionKey == x.sessionKey
    && (y.transcript == x.transcript || (|x.transcript| > 1 && |y.transcript| > 1 && y.transcript[..2] == x.transcript[..2]))
  }

  predicate SameSessions(g: GS.State, h: GS.State) {
    && h.sessions.Keys == g.sessions.Keys
    && forall id :: id in g.sessions ==>
         h.sessions[id].transcript == g.sessions[id].transcript && h.sessions[id].n1 == g.sessions[id].n1
  }

  lemma TagsStay(w: World, v: World, o: Outcome)
    requires TagsKnown(w) && v.sent == w.sent + Fields(o) && Quiet(v.sent, o)
    ensures TagsKnown(v)
    ensures forall u, n1 :: Offered(v, u, n1) <==> Offered(w, u, n1)
  {
    hide Fields, IsM1Tag, IsM2Tag;
    forall t | t in v.sent ensures TagKnown(v.sent, t) {
      if t in w.sent { assert TagKnown(w.sent, t); }
    }
  }

  lemma HistoryStays(w: World, v: World)
    requires SessionsKnown(w) && AnswersKnown(w) && w.sent <= v.sent
    requires v.answers == w.answers && v.confirmed == w.confirmed
    ensures SessionsKnown(v) && AnswersKnown(v)
  {
    forall p | p in v.confirmed ensures SessionKnown(v.sent, p) { assert SessionKnown(w.sent, p); }
    forall i | 0 <= i < |v.answers| ensures AnswerKnown(v, v.answers[i]) { assert AnswerKnown(w, w.answers[i]); }
  }

  lemma CurrentStays(w: World, v: World, u: int)
    requires Current(w, u) && w.sent <= v.sent && SameSessions(w.gs, v.gs)
    requires v.answers == w.answers && v.confirmed == w.confirmed
    requires u in v.uavs && SameCore(w.uavs[u].phase2, v.uavs[u].phase2)
    requires forall n1 :: Offered(v, u, n1) <==> Offered(w, u, n1)
    ensures Current(v, u)
  {
    hide Offered, LastSealed, TidFor;
    var x, y := w.uavs[u].phase2, v.uavs[u].phase2;
    if y.authKey != Empty {
      if |y.transcript| > 1 && y.transcript != x.transcript {
        assert y.transcript[1] == y.transcript[..2][1] == x.transcript[..2][1] == x.transcript[1];
      }
      assert forall t :: SealedUnder(v, u, t) <==> SealedUnder(w, u, t);
      assert forall t :: ConfirmedBy(v, u, t) <==> ConfirmedBy(w, u, t);
    }
  }

  lemma Unaffected(w: World, v: World, u: int, o: Outcome)
    requires FreshInv(w, u) && v.sent == w.sent + Fields(o) && Quiet(v.sent, o) && SameSessions(w.gs, v.gs)
    requires v.answers == w.answers && v.confirmed == w.confirmed
    requires u in v.uavs && SameCore(w.uavs[u].phase2, v.uavs[u].phase2)
    ensures FreshInv(v, u)
  {
    hide TagsKnown, SessionsKnown, AnswersKnown, Current, Offered, Fields, Quiet, SameCore, SameSessions;
    TagsStay(w, v, o);
    HistoryStays(w, v);
    CurrentStays(w, v, u);
  }

  // ---------- one handler at a time ----------

  lemma NoReplyQuiet(sent: set<Term>, o: Outcome)
    requires !o.Replied?
    ensures Quiet(sent, o)
  {}

  lemma QuietM3(c: U.Config, u: U.State, m: Message, now: nat, sent: set<Term>)
    requires TidOk(c.id, u.tid)
    ensures Quiet(sent, U.OnM2(c, u, m, now).outcome)
  {
    hide U.OnM2, U.M2Signed, Derive;
    OnM2Effect(c, u, m, now);
  }

  lemma QuietM4(g: GS.State, m: Message, sent: set<Term>)
    ensures Quiet(sent, GS.OnM3(g, m).outcome)
  {
    hide GS.OnM3, Answered, Derive, GS.PackageFor;
    OnM3Effect(g, m);
  }

  lemma QuietP1(c: U.Config, u: U.State, peer: int, now: nat, nonce: nat, scalar: nat, sent: set<Term>)
    ensures Quiet(sent, U.OnStart3(c, u, peer, now, nonce, scalar).outcome)
  {
    hide U.Opening;
  }

  lemma QuietP2(c: U.Config, u: U.State, m: Message, now: nat, nonce: nat, scalar: nat, sent: set<Term>)
    ensures Quiet(sent, U.OnP1(c, u, m, now, nonce, scalar).outcome)
  {
    hide U.OnP1, DecodeId, U.Answering;
    OnP1Effect(c, u, m, now, nonce, scalar);
  }

  lemma QuietP3(u: U.State, m: Message, sent: set<Term>)
    requires PeersKnown(u)
    ensures Quiet(sent, U.OnP2(u, m).outcome)
  {
    hide U.OnP2, Noted, Confirmed, Finished, U.WithCredential, Derive;
    OnP2Effect(u, m);
  }

  lemma QuietM1(c: U.Config, u: U.State, mk: Option<Term>, now: nat, n1: nat, scalar: nat, sent: set<Term>)
    requires TidOk(c.id, u.tid)
    ensures var o := U.OnStart2(c, u, true, mk, now, n1, scalar).outcome;
            (o.Replied? ==> Nonce(n1) in Fields(o)) && Quiet(sent + Fields(o), o)
  {
    if mk.Some? {
      var m := U.M1(c, u, mk.value, now, n1, scalar);
      assert m.fields[NONCE_1] == Nonce(n1) && m.fields[NONCE_1] in m.fields.Values;
    }
  }

  // ---------- the events that matter ----------

  // A new session's nonce has never been sent: nothing has been confirmed or offered under it.
  lemma Start2Fresh(c: Config, w: World, u: int, mk: Option<Term>, now: nat, nonce: nat, scalar: nat)
    requires Inv(c, w) && FreshInv(w, u) && Enabled(c, w, Start2(u, mk, now, nonce, scalar))
    requires DrawsFresh(c, w, Start2(u, mk, now, nonce, scalar))
    ensures FreshInv(Next(c, w, Start2(u, mk, now, nonce, scalar)), u)
  {
    hide Inv, UavOk, Fields, Quiet, TagsKnown, SessionsKnown, AnswersKnown, Current, U.OnStart2, TidOk;
    Parts(c, w, u);
    UavParts(c.ids, u, w.uavs[u]);
    var s := U.OnStart2(c.Uav(u), w.uavs[u], true, mk, now, nonce, scalar);
    QuietM1(c.Uav(u), w.uavs[u], mk, now, nonce, scalar, w.sent);
    var v := Next(c, w, Start2(u, mk, now, nonce, scalar));
    if s.outcome.Replied? {
      TagsStay(w, v, s.outcome);
      HistoryStays(w, v);
      NothingOffered(w, u, Nonce(nonce));
      SessionIsNew(c.Uav(u), w.uavs[u], mk, now, nonce, scalar);
      Started(w, v, u, Nonce(nonce));
    } else {
      RefusedStart2(c.Uav(u), w.uavs[u], mk, now, nonce, scalar);
      NoReplyQuiet(v.sent, s.outcome);
      Unaffected(w, v, u, s.outcome);
    }
  }

  lemma SessionIsNew(c: U.Config, u: U.State, mk: Option<Term>, now: nat, n1: nat, scalar: nat)
    requires U.OnStart2(c, u, true, mk, now, n1, scalar).outcome.Replied?
    ensures var x := U.OnStart2(c, u, true, mk, now, n1, scalar).next.phase2;
            x.n1 == Nonce(n1) && x.sessionKey == Empty
  {
    hide U.M1;
  }

  lemma Started(w: World, v: World, u: int, n1: Term)
    requires SessionsKnown(w) && n1 !in w.sent && n1 in v.sent && !Offered(v, u, n1) && v.confirmed == w.confirmed
    requires u in v.uavs && v.uavs[u].phase2.n1 == n1 && v.uavs[u].phase2.sessionKey == Empty
    ensures Current(v, u)
  {
    hide Offered;
    assert forall p :: p in w.confirmed ==> SessionKnown(w.sent, p);
  }

  lemma NothingOffered(w: World, u: int, n1: Term)
    requires TagsKnown(w) && n1 !in w.sent
    ensures !Offered(w, u, n1)
  {}

  // The tags that M2 adds: one, for the UAV it goes to.
  lemma M2Sent(w: World, v: World, m: Message, id: int, now: nat, n2: nat, scalar: nat)
    requires TagsKnown(w) && m.Has({TID, NONCE_1, TIMESTAMP, EPK_A}) && m.fields[NONCE_1] in w.sent
    requires v.sent == w.sent + Fields(Replied(GS.M2(m, id, Master(id), now, n2, scalar)))
    ensures TagsKnown(v)
    ensures forall u, n1 :: u != id ==> (Offered(v, u, n1) <==> Offered(w, u, n1))
    ensures forall u, n1 :: Offered(w, u, n1) ==> Offered(v, u, n1)
  {
    var m2 := GS.M2(m, id, Master(id), now, n2, scalar);
    assert m2.fields[NONCE_2] == Nonce(n2) && m2.fields[NONCE_2] in m2.fields.Values;
    forall t | t in v.sent ensures TagKnown(v.sent, t) {
      if t in w.sent { assert TagKnown(w.sent, t); }
    }
  }

  lemma NewSessionIs(m: Message, mk: Term, t1: nat, now: nat, n2: nat, scalar: nat)
    requires m.Has({TID, NONCE_1, TIMESTAMP, EPK_A})
    ensures var s := GS.NewSession(m, mk, t1, now, n2, scalar);
            |s.transcript| == 2 && s.transcript[1].InputM2? && s.transcript[1].n2 == Nonce(n2)
  {}

  // A transcript with a nonce that was never sent has not been confirmed.
  lemma NotConfirmed(w: World, u: int, t: seq<Input>)
    requires SessionsKnown(w) && |t| == 2 && t[1].InputM2? && t[1].n2 !in w.sent
    ensures !ConfirmedBy(w, u, t)
  {
    assert forall p :: p in w.confirmed ==> SessionKnown(w.sent, p);
  }

  lemma M1Fresh(c: Config, w: World, u: int, m: Message, now: nat, nonce: nat, scalar: nat)
    requires Inv(c, w) && FreshInv(w, u) && u in w.uavs && Enabled(c, w, GsM1(m, now, nonce, scalar))
    requires DrawsFresh(c, w, GsM1(m, now, nonce, scalar))
    ensures FreshInv(Next(c, w, GsM1(m, now, nonce, scalar)), u)
  {
    hide Inv, GS.OnM1, GS.NewSession, GS.M2, GS.M1Signed, Fields, TagsKnown, SessionsKnown, AnswersKnown, Current,
      Deliverable, DeviceOk, SessionOk;
    OnM1Effect(c.Gs(), w.gs, m, now, nonce, scalar);
    var s := GS.OnM1(c.Gs(), w.gs, m, now, nonce, scalar);
    var v := Next(c, w, GsM1(m, now, nonce, scalar));
    if s.outcome.Replied? {
      var id := s.outcome.reply.receiver;
      M1Verified(c.Gs(), w.gs, m, now, nonce, scalar);
      GsIsOk(c, w);
      DeviceKey(c.ids, w.gs, id);
      M1NonceSent(w, m, id);
      M2Sent(w, v, m, id, now, nonce, scalar);
      HistoryStays(w, v);
      var t1 :| v.gs.sessions == w.gs.sessions[id := GS.NewSession(m, Master(id), t1, now, nonce, scalar)];
      NewSessionIs(m, Master(id), t1, now, nonce, scalar);
      NotConfirmed(w, id, v.gs.sessions[id].transcript);
      Installed(w, v, u, id);
    } else {
      NoReplyQuiet(v.sent, s.outcome);
      Unaffected(w, v, u, s.outcome);
    }
  }

  lemma M1NonceSent(w: World, m: Message, id: int)
    requires TagsKnown(w) && Deliverable(m, w.sent)
    requires m.Has({TID, NONCE_1, TIMESTAMP, EPK_A, MAC_TAG}) && MAC_TAG in m.fields
    requires m.fields[MAC_TAG] == Mac(AuthKey(Master(id)), [GS.M1Signed(m)])
    ensures m.fields[NONCE_1] in w.sent
  {
    assert TagKnown(w.sent, m.fields[MAC_TAG]);
  }

  // A new session of one UAV is not confirmed, and says nothing about the others.
  lemma Installed(w: World, v: World, u: int, id: int)
    requires Current(w, u) && w.sent <= v.sent && v.uavs == w.uavs && v.answers == w.answers && v.confirmed == w.confirmed
    requires id in v.gs.sessions && v.gs.sessions == w.gs.sessions[id := v.gs.sessions[id]]
    requires !ConfirmedBy(w, id, v.gs.sessions[id].transcript)
    requires forall q, n1 :: q != id ==> (Offered(v, q, n1) <==> Offered(w, q, n1))
    requires forall q, n1 :: Offered(w, q, n1) ==> Offered(v, q, n1)
    ensures Current(v, u)
  {
    hide Offered, LastSealed, TidFor;
    assert forall t :: SealedUnder(v, u, t) <==> SealedUnder(w, u, t);
    assert forall t :: ConfirmedBy(v, u, t) <==> ConfirmedBy(w, u, t);
  }

  // A UAV that confirms a session had derived no key in it before, and confirms what it was offered.
  predicate ConfirmsOffer(w: World, u: int, x: U.Phase2, y: U.Phase2) {
    && x.authKey != Empty && x.sessionKey == Empty && y.sessionKey != Empty
    && y.authKey == x.authKey && y.mk == Master(u) && y.n1 == x.n1
    && |y.transcript| == 2 && y.transcript[0].InputM1? && y.transcript[1].InputM2?
    && y.transcript[0].n1 == x.n1 && SessionKnown(w.sent, y) && Offered(w, u, x.n1)
  }

  lemma M2Confirms(c: Config, w: World, u: int, m: Message, now: nat)
    requires Inv(c, w) && TagsKnown(w) && Enabled(c, w, UavM2(u, m, now))
    requires U.OnM2(c.Uav(u), w.uavs[u], m, now).outcome.Replied?
    ensures ConfirmsOffer(w, u, w.uavs[u].phase2, U.OnM2(c.Uav(u), w.uavs[u], m, now).next.phase2)
  {
    hide Inv, U.OnM2, U.M3, PairCredential, ExchangeOk, CredsOk, PeersOk, TidOk, Derive, Deliverable;
    Parts(c, w, u);
    UavParts(c.ids, u, w.uavs[u]);
    OnM2Effect(c.Uav(u), w.uavs[u], m, now);
    DeriveSecret(w.uavs[u].phase2.ephemeral.secret, m.fields[EPK_B]);
    TagIsSent(w, m);
    var x := w.uavs[u].phase2;
    var tag := m.fields[MAC_TAG];
    assert TagKnown(w.sent, tag);
    assert IsM2Tag(tag) && tag.text[0] == U.M2Signed(w.uavs[u], m);
  }

  lemma DeriveSecret(secret: Option<nat>, peer: Term)
    ensures Derive(secret, peer).Some? ==> secret.Some?
  {}

  lemma TagIsSent(w: World, m: Message)
    requires Deliverable(m, w.sent)
    ensures MAC_TAG in m.fields && m.fields[MAC_TAG].Mac? && m.fields[MAC_TAG].key != PeerAuthKey(Empty) ==> m.fields[MAC_TAG] in w.sent
  {}

  // A session that has been confirmed for the first time.
  lemma NewlyConfirmed(w: World, v: World, u: int, y: U.Phase2)
    requires u in w.uavs && Current(w, u) && AnswersKnown(w) && ConfirmsOffer(w, u, w.uavs[u].phase2, y)
    requires u in w.gs.sessions ==> TranscriptOk(w.gs.sessions[u].transcript, w.gs.sessions[u].n1, w.gs.sessions[u].n2)
    requires w.sent <= v.sent && v.gs == w.gs && v.answers == w.answers && v.confirmed == w.confirmed + {y}
    requires u in v.uavs && v.uavs[u].phase2 == y
    requires forall q, n1 :: Offered(v, q, n1) <==> Offered(w, q, n1)
    ensures Current(v, u)
  {
    hide Offered, LastSealed, TidFor, OneTranscript, NotSuperseded, ConfirmsOffer, SealedUnder, AnswersKnown, TranscriptOk;
    OffersParts(w, u, w.uavs[u].phase2, y);
    NothingSealedYet(w, v, u, y);
    NewlyOne(w, v, u, y);
    NewlyCurrent(w, v, u, y);
    assert y.transcript == y.transcript[..2];
  }

  lemma OffersParts(w: World, u: int, x: U.Phase2, y: U.Phase2)
    requires ConfirmsOffer(w, u, x, y)
    ensures y.authKey != Empty && |y.transcript| == 2 && y.transcript[1].InputM2? && Offered(w, u, y.n1)
  {
    hide Offered;
  }

  lemma NothingSealedYet(w: World, v: World, u: int, y: U.Phase2)
    requires Current(w, u) && u in w.uavs && AnswersKnown(w) && ConfirmsOffer(w, u, w.uavs[u].phase2, y)
    requires v.answers == w.answers
    ensures !SealedUnder(v, u, y.transcript)
  {
    hide Offered, LastSealed, TidFor, NotSuperseded, KeyOffered, NewestIsCurrent, SessionKnown, AnswersKnown;
    if SealedUnder(v, u, y.transcript) {
      var i :| 0 <= i < |w.answers| && w.answers[i].uav == u && w.answers[i].session.transcript == y.transcript;
      AnswerConfirmed(w, i);
    }
  }

  lemma NewlyOne(w: World, v: World, u: int, y: U.Phase2)
    requires Current(w, u) && u in w.uavs && ConfirmsOffer(w, u, w.uavs[u].phase2, y)
    requires w.sent <= v.sent && v.confirmed == w.confirmed + {y}
    ensures OneTranscript(v, u, y)
  {
    hide Offered, LastSealed, TidFor, NotSuperseded, KeyOffered, NewestIsCurrent, SessionKnown;
    assert y.transcript == y.transcript[..2];
  }

  // What it confirmed before, it confirmed under another nonce, and the present one has been offered.
  lemma NewlyCurrent(w: World, v: World, u: int, y: U.Phase2)
    requires Current(w, u) && u in w.uavs && ConfirmsOffer(w, u, w.uavs[u].phase2, y)
    requires u in w.gs.sessions ==> TranscriptOk(w.gs.sessions[u].transcript, w.gs.sessions[u].n1, w.gs.sessions[u].n2)
    requires v.gs == w.gs && v.confirmed == w.confirmed + {y}
    ensures NotSuperseded(v, u, y)
  {
    hide Offered, LastSealed, TidFor, OneTranscript, KeyOffered, NewestIsCurrent, SessionKnown;
  }

  lemma AnswerConfirmed(w: World, i: nat)
    requires AnswersKnown(w) && i < |w.answers|
    ensures ConfirmedBy(w, w.answers[i].uav, w.answers[i].session.transcript)
  {
    assert AnswerKnown(w, w.answers[i]);
  }

  // What another UAV confirms.
  lemma OthersConfirm(w: World, v: World, u: int, y: U.Phase2)
    requires Current(w, u) && y.mk != Master(u) && w.sent <= v.sent
    requires v.gs == w.gs && v.answers == w.answers && v.confirmed == w.confirmed + {y}
    requires u in v.uavs && v.uavs[u].phase2 == w.uavs[u].phase2
    requires forall q, n1 :: Offered(v, q, n1) <==> Offered(w, q, n1)
    ensures Current(v, u)
  {
    hide Offered, LastSealed, TidFor;
    assert forall t :: SealedUnder(v, u, t) <==> SealedUnder(w, u, t);
    assert forall t :: ConfirmedBy(v, u, t) <==> ConfirmedBy(w, u, t);
  }

  lemma HistoryGrows(w: World, v: World, y: U.Phase2)
    requires SessionsKnown(w) && AnswersKnown(w) && SessionKnown(w.sent, y) && w.sent <= v.sent
    requires v.answers == w.answers && v.confirmed == w.confirmed + {y}
    ensures SessionsKnown(v) && AnswersKnown(v)
  {
    forall p | p in v.confirmed ensures SessionKnown(v.sent, p) {
      if p in w.confirmed { assert SessionKnown(w.sent, p); }
    }
    forall i | 0 <= i < |v.answers| ensures AnswerKnown(v, v.answers[i]) {
      assert AnswerKnown(w, w.answers[i]);
      AnswerConfirmed(w, i);
    }
  }

  // An M2 that is refused leaves the session's key and what it is bound to.
  lemma RefusedM2(c: Config, w: World, u: int, m: Message, now: nat)
    requires Inv(c, w) && Enabled(c, w, UavM2(u, m, now))
    requires !U.OnM2(c.Uav(u), w.uavs[u], m, now).outcome.Replied?
    ensures SameCore(w.uavs[u].phase2, U.OnM2(c.Uav(u), w.uavs[u], m, now).next.phase2)
  {
    hide Inv, U.OnM2, U.M3, U.M2Signed, PairCredential, ExchangeOk, CredsOk, PeersOk, TidOk, TagsOk;
    Parts(c, w, u);
    UavParts(c.ids, u, w.uavs[u]);
    OnM2Effect(c.Uav(u), w.uavs[u], m, now);
    DeliveredTags(c, w, m);
    if U.OnM2(c.Uav(u), w.uavs[u], m, now).next.phase2 != w.uavs[u].phase2 { VerifiedShare(u, w.uavs[u], m); }
  }

  lemma M2Fresh(c: Config, w: World, u: int, v: int, m: Message, now: nat)
    requires Inv(c, w) && FreshInv(w, u) && u in w.uavs && Enabled(c, w, UavM2(v, m, now))
    ensures FreshInv(Next(c, w, UavM2(v, m, now)), u)
  {
    hide Inv, U.OnM2, Fields, TagsKnown, SessionsKnown, AnswersKnown, Current, Deliverable, Quiet, ConfirmsOffer,
      Phase2Ok, PeersOk, CredsOk, TagKnown, SessionKnown, SameCore, SessionOk, TranscriptOk, TidOk;
    Parts(c, w, v);
    UavParts(c.ids, v, w.uavs[v]);
    var s := U.OnM2(c.Uav(v), w.uavs[v], m, now);
    var z := Next(c, w, UavM2(v, m, now));
    QuietM3(c.Uav(v), w.uavs[v], m, now, z.sent);
    if s.outcome.Replied? {
      M2Confirms(c, w, v, m, now);
      OffersKnown(w, v, w.uavs[v].phase2, s.next.phase2);
      TagsStay(w, z, s.outcome);
      HistoryGrows(w, z, s.next.phase2);
      if u == v {
        SessionTranscript(c, w, u);
        NewlyConfirmed(w, z, u, s.next.phase2);
      } else {
        OthersConfirm(w, z, u, s.next.phase2);
      }
    } else {
      RefusedM2(c, w, v, m, now);
      SameItself(w.uavs[u].phase2);
      Unaffected(w, z, u, s.outcome);
    }
  }

  lemma OffersKnown(w: World, u: int, x: U.Phase2, y: U.Phase2)
    requires ConfirmsOffer(w, u, x, y)
    ensures SessionKnown(w.sent, y) && y.mk == Master(u)
  {}

  lemma SameItself(x: U.Phase2) ensures SameCore(x, x) {}

  lemma SessionTranscript(c: Config, w: World, u: int)
    requires Inv(c, w)
    ensures u in w.gs.sessions ==> TranscriptOk(w.gs.sessions[u].transcript, w.gs.sessions[u].n1, w.gs.sessions[u].n2)
  {
    hide Inv, TranscriptOk;
    GsIsOk(c, w);
    if u in w.gs.sessions { SessionIs(c.ids, w.gs, u); }
  }

  // What sealing for a UAV adds.
  predicate Seals(w: World, v: World, id: int, a: Answer) {
    && v.uavs == w.uavs && v.confirmed == w.confirmed && v.answers == w.answers + [a] && a.uav == id
    && SameSessions(w.gs, v.gs) && id in w.gs.sessions
    && a.session.transcript == w.gs.sessions[id].transcript
    && a.session.n1 == w.gs.sessions[id].n1 && a.session.n2 == w.gs.sessions[id].n2
    && TranscriptOk(a.session.transcript, a.session.n1, a.session.n2)
    && a.sealed.Sealed? && a.sealed.package.tidNew == TidFor(id, a.session.n1, a.session.n2)
  }

  lemma M3Seals(c: Config, w: World, m: Message)
    requires Inv(c, w) && Enabled(c, w, GsM3(m)) && GS.OnM3(w.gs, m).outcome.Replied?
    ensures Answers(GS.OnM3(w.gs, m))
    ensures var a := AnswerOf(GS.OnM3(w.gs, m));
            Seals(w, Next(c, w, GsM3(m)), a.uav, a) && ConfirmedBy(w, a.uav, a.session.transcript)
  {
    hide Inv, GS.OnM3, Fields, Derive, SessionOk, GS.CredentialsFor, GS.IdentitiesFor;
    AnsweredIsConfirmed(c, w, m);
    OnM3Effect(w.gs, m);
    GsIsOk(c, w);
    var id := GS.OnM3(w.gs, m).outcome.reply.receiver;
    SessionTranscript(c, w, id);
    assert DeviceOk(id, w.gs.devices[id]);
  }

  // While a UAV's key stands, no session but its own can be answered.
  lemma OwnSession(w: World, u: int)
    requires Current(w, u) && u in w.uavs && w.uavs[u].phase2.authKey != Empty && w.uavs[u].phase2.sessionKey != Empty
    requires u in w.gs.sessions && ConfirmedBy(w, u, w.gs.sessions[u].transcript)
    requires TranscriptOk(w.gs.sessions[u].transcript, w.gs.sessions[u].n1, w.gs.sessions[u].n2)
    ensures |w.uavs[u].phase2.transcript| > 1 && w.gs.sessions[u].transcript == w.uavs[u].phase2.transcript[..2]
    ensures w.gs.sessions[u].n1 == w.uavs[u].phase2.n1
  {
    hide Offered;
    var p :| p in w.confirmed && p.mk == Master(u) && p.transcript == w.gs.sessions[u].transcript;
    assert Under(p, w.uavs[u].phase2.n1);
  }

  lemma NewAnswerKnown(w: World, v: World, id: int, a: Answer)
    requires AnswersKnown(w) && Seals(w, v, id, a) && ConfirmedBy(w, id, a.session.transcript)
    ensures AnswersKnown(v)
  {
    forall i | 0 <= i < |v.answers| ensures AnswerKnown(v, v.answers[i]) {
      if i < |w.answers| { assert AnswerKnown(w, w.answers[i]); }
    }
  }

  lemma SealedCurrent(w: World, v: World, u: int, id: int, a: Answer)
    requires Current(w, u) && u in w.uavs && Seals(w, v, id, a) && ConfirmedBy(w, id, a.session.transcript)
    requires w.uavs[u].phase2.authKey == Empty ==> w.uavs[u].phase2.sessionKey == Empty
    requires w.sent <= v.sent && forall q, n1 :: Offered(v, q, n1) <==> Offered(w, q, n1)
    ensures Current(v, u)
  {
    hide Offered, LastSealed, TidFor, TranscriptOk;
    LastSealedSnoc(w.answers, a, u);
    assert forall t :: ConfirmedBy(v, u, t) <==> ConfirmedBy(w, u, t);
    var x := w.uavs[u].phase2;
    if x.authKey != Empty && x.sessionKey != Empty {
      if id == u {
        OwnSession(w, u);
        NewestTid(w, x, a, u);
      } else {
        OthersSealed(w, v, u, a, x.transcript);
      }
    }
  }

  lemma OthersSealed(w: World, v: World, u: int, a: Answer, t: seq<Input>)
    requires a.uav != u && v.answers == w.answers + [a]
    ensures |t| > 1 && SealedUnder(v, u, t[..2]) ==> SealedUnder(w, u, t[..2])
  {
    if |t| > 1 && SealedUnder(v, u, t[..2]) {
      var i :| 0 <= i < |v.answers| && v.answers[i].uav == u && v.answers[i].session.transcript == t[..2];
      assert w.answers[i] == v.answers[i];
    }
  }

  lemma NewestTid(w: World, x: U.Phase2, a: Answer, u: int)
    requires TranscriptOk(a.session.transcript, a.session.n1, a.session.n2)
    requires |x.transcript| > 1 && a.session.transcript == x.transcript[..2]
    ensures x.transcript[1].InputM2? && x.transcript[1].n2 == a.session.n2
  {
    assert x.transcript[..2][1] == x.transcript[1];
  }

  lemma M3Fresh(c: Config, w: World, u: int, m: Message)
    requires Inv(c, w) && FreshInv(w, u) && u in w.uavs && Enabled(c, w, GsM3(m))
    ensures FreshInv(Next(c, w, GsM3(m)), u)
  {
    hide Inv, GS.OnM3, Fields, TagsKnown, SessionsKnown, AnswersKnown, Current, Deliverable, Quiet, Seals, AnswerOf,
      Derive, Answered, GS.M4, GS.PackageFor, SessionOk, TidOk;
    var s := GS.OnM3(w.gs, m);
    var v := Next(c, w, GsM3(m));
    QuietM4(w.gs, m, v.sent);
    if s.outcome.Replied? {
      M3Seals(c, w, m);
      var a := AnswerOf(s);
      TagsStay(w, v, s.outcome);
      SessionsStay(w, v, a.uav, a);
      NewAnswerKnown(w, v, a.uav, a);
      Parts(c, w, u);
      UavParts(c.ids, u, w.uavs[u]);
      NoKeyYet(u, w.uavs[u].phase2);
      SealedCurrent(w, v, u, a.uav, a);
    } else {
      OnM3Effect(w.gs, m);
      SameItself(w.uavs[u].phase2);
      Unaffected(w, v, u, s.outcome);
    }
  }

  lemma SessionsStay(w: World, v: World, id: int, a: Answer)
    requires SessionsKnown(w) && Seals(w, v, id, a) && w.sent <= v.sent
    ensures SessionsKnown(v)
  {
    forall p | p in v.confirmed ensures SessionKnown(v.sent, p) { assert SessionKnown(w.sent, p); }
  }

  lemma NoKeyYet(u: int, x: U.Phase2)
    requires Phase2Ok(u, x)
    ensures x.authKey == Empty ==> x.sessionKey == Empty
  {}

  // An event of a UAV that leaves its session and the history as they are.
  lemma UavFresh(w: World, u: int, v: int, s: U.Step, z: World)
    requires FreshInv(w, u) && u in w.uavs && v in w.uavs && SameCore(w.uavs[v].phase2, s.next.phase2)
    requires z.uavs == w.uavs[v := s.next] && z.gs == w.gs && z.sent == w.sent + Fields(s.outcome)
    requires z.answers == w.answers && z.confirmed == w.confirmed && Quiet(z.sent, s.outcome)
    ensures FreshInv(z, u)
  {
    hide FreshInv, Fields, Quiet, SameCore;
    SameItself(w.uavs[u].phase2);
    Unaffected(w, z, u, s.outcome);
  }

  lemma M4Core(u: U.State, m: Message)
    ensures SameCore(u.phase2, U.OnM4(u, m).next.phase2) && !U.OnM4(u, m).outcome.Replied?
  {
    hide U.Opens;
  }

  lemma PeerCore(x: U.Phase2, p: int)
    ensures SameCore(x, x.(creds := U.WithCredential(x.creds, p)))
  {
    hide U.WithCredential;
  }

  // Every event with fresh draws keeps the invariants.
  lemma NextFresh(c: Config, w: World, e: Event, u: int)
    requires Inv(c, w) && FreshInv(w, u) && u in w.uavs && Enabled(c, w, e) && DrawsFresh(c, w, e)
    ensures u in Next(c, w, e).uavs && FreshInv(Next(c, w, e), u)
  {
    hide Inv, FreshInv, Deliverable, Regenerates, Fields, Quiet, SameCore, PeersKnown, DrawsFresh, Answers,
      GS.OnM1, GS.OnM3, U.OnStart2, U.OnM2, U.OnM4, U.OnStart3, U.OnP1, U.OnP2, U.OnP3;
    var z := Next(c, w, e);
    match e {
      case GsM1(m, now, nonce, scalar) => M1Fresh(c, w, u, m, now, nonce, scalar);
      case GsM3(m) => M3Fresh(c, w, u, m);
      case Start2(v, mk, now, nonce, scalar) =>
        if v == u {
          Start2Fresh(c, w, u, mk, now, nonce, scalar);
        } else {
          OthersStart2(c, w, u, v, mk, now, nonce, scalar);
        }
      case UavM2(v, m, now) => M2Fresh(c, w, u, v, m, now);
      case UavM4(v, m) =>
        M4Core(w.uavs[v], m);
        NoReplyQuiet(z.sent, U.OnM4(w.uavs[v], m).outcome);
        UavFresh(w, u, v, U.OnM4(w.uavs[v], m), z);
      case Start3(v, peer, now, nonce, scalar) =>
        Start3Final(c.Uav(v), w.uavs[v], peer, now, nonce, scalar);
        SameItself(w.uavs[v].phase2);
        QuietP1(c.Uav(v), w.uavs[v], peer, now, nonce, scalar, z.sent);
        UavFresh(w, u, v, U.OnStart3(c.Uav(v), w.uavs[v], peer, now, nonce, scalar), z);
      case UavP1(v, m, now, nonce, scalar) =>
        OnP1Effect(c.Uav(v), w.uavs[v], m, now, nonce, scalar);
        SameItself(w.uavs[v].phase2);
        QuietP2(c.Uav(v), w.uavs[v], m, now, nonce, scalar, z.sent);
        UavFresh(w, u, v, U.OnP1(c.Uav(v), w.uavs[v], m, now, nonce, scalar), z);
      case UavP2(v, m) => PeersFresh(c, w, u, v, m);
      case UavP3(v, m) => PeersDone(c, w, u, v, m);
    }
  }

  lemma OthersStart2(c: Config, w: World, u: int, v: int, mk: Option<Term>, now: nat, nonce: nat, scalar: nat)
    requires Inv(c, w) && FreshInv(w, u) && u in w.uavs && v != u && Enabled(c, w, Start2(v, mk, now, nonce, scalar))
    ensures FreshInv(Next(c, w, Start2(v, mk, now, nonce, scalar)), u)
  {
    hide Inv, UavOk, FreshInv, Fields, Quiet, SameCore, U.OnStart2, TidOk;
    Parts(c, w, v);
    UavParts(c.ids, v, w.uavs[v]);
    QuietM1(c.Uav(v), w.uavs[v], mk, now, nonce, scalar, w.sent);
    SameItself(w.uavs[u].phase2);
    Unaffected(w, Next(c, w, Start2(v, mk, now, nonce, scalar)), u,
               U.OnStart2(c.Uav(v), w.uavs[v], true, mk, now, nonce, scalar).outcome);
  }

  lemma PeersFresh(c: Config, w: World, u: int, v: int, m: Message)
    requires Inv(c, w) && FreshInv(w, u) && u in w.uavs && Enabled(c, w, UavP2(v, m))
    ensures FreshInv(Next(c, w, UavP2(v, m)), u)
  {
    hide Inv, UavOk, FreshInv, Fields, Quiet, SameCore, U.OnP2, Noted, Confirmed, Finished, U.P3, Derive;
    Parts(c, w, v);
    PeerIds(c.ids, v, w.uavs[v]);
    OnP2Effect(w.uavs[v], m);
    SameItself(w.uavs[v].phase2);
    PeerCore(w.uavs[v].phase2, m.sender);
    var z := Next(c, w, UavP2(v, m));
    QuietP3(w.uavs[v], m, z.sent);
    UavFresh(w, u, v, U.OnP2(w.uavs[v], m), z);
  }

  lemma PeersDone(c: Config, w: World, u: int, v: int, m: Message)
    requires Inv(c, w) && FreshInv(w, u) && u in w.uavs && Enabled(c, w, UavP3(v, m))
    ensures FreshInv(Next(c, w, UavP3(v, m)), u)
  {
    hide Inv, UavOk, FreshInv, Fields, Quiet, SameCore, U.OnP3, Finished, Derive;
    Parts(c, w, v);
    PeerIds(c.ids, v, w.uavs[v]);
    OnP3Effect(w.uavs[v], m);
    SameItself(w.uavs[v].phase2);
    PeerCore(w.uavs[v].phase2, m.sender);
    var z := Next(c, w, UavP3(v, m));
    NoReplyQuiet(z.sent, U.OnP3(w.uavs[v], m).outcome);
    UavFresh(w, u, v, U.OnP3(w.uavs[v], m), z);
  }

  lemma InitiallyFresh(c: Config, w0: World, u: int)
    requires Initial(c, w0) && u in c.ids
    ensures u in w0.uavs && FreshInv(w0, u)
  {
    assert w0.uavs[u].phase2 == U.NO_SESSION;
  }

  lemma {:induction false} RunFresh(c: Config, w0: World, events: seq<Event>, u: int)
    requires c.Valid() && Initial(c, w0) && u in c.ids && Run(c, w0, events).Some? && Fresh(c, w0, events)
    ensures u in Run(c, w0, events).value.uavs && FreshInv(Run(c, w0, events).value, u)
    decreases |events|
  {
    hide Next, Enabled, FreshInv, DrawsFresh, Initial;
    if |events| == 0 {
      InitiallyFresh(c, w0, u);
    } else {
      var n := |events| - 1;
      RunFresh(c, w0, events[..n], u);
      RunInv(c, w0, events[..n]);
      NextFresh(c, Run(c, w0, events[..n]).value, events[n], u);
    }
  }

  // ---------- acceptance is of the newest package ----------

  // Over fresh runs: the package a UAV accepts carries the identity of the newest package sealed for it, so the ground
  // station recognises the UAV from then on under its new identity.
  lemma AcceptedIsNewest(c: Config, w0: World, events: seq<Event>, u: int, m: Message)
    requires c.Valid() && Initial(c, w0) && Run(c, w0, events).Some? && Fresh(c, w0, events)
    requires Enabled(c, Run(c, w0, events).value, UavM4(u, m))
    requires U.OnM4(Run(c, w0, events).value.uavs[u], m).outcome.Accepted?
    ensures var v := Next(c, Run(c, w0, events).value, UavM4(u, m));
            && u in v.uavs && LastRotationIsLastSealed(v, u)
            && GS.DeviceWith(v.gs.devices, v.uavs[u].tid) == Some(u)
  {
    hide Run, Initial, Fresh, Enabled, Next, GS.DeviceWith, U.OnM4, FreshInv, LastSealed, LastRotation;
    var w := Run(c, w0, events).value;
    M4EventIs(c, w, u, m);
    RunInv(c, w0, events);
    Parts(c, w, u);
    RunFresh(c, w0, events, u);
    AcceptedCurrent(c, w, u, m);
    RunExtends(c, w0, events, UavM4(u, m));
    RecognisedIff(c, w0, events + [UavM4(u, m)], u);
  }

  lemma AcceptedCurrent(c: Config, w: World, u: int, m: Message)
    requires Inv(c, w) && u in w.uavs && Deliverable(m, w.sent) && FreshInv(w, u)
    requires U.OnM4(w.uavs[u], m).outcome.Accepted?
    ensures Enabled(c, w, UavM4(u, m))
    ensures var v := Next(c, w, UavM4(u, m)); u in v.uavs && LastRotationIsLastSealed(v, u)
  {
    hide Inv, U.Opens, Offered, Deliverable, TagsKnown, SessionsKnown, AnswersKnown, LastSealed, LastRotation, Phase2Ok,
      AnswerOk, PeersOk, CredsOk, TidOk;
    Parts(c, w, u);
    UavParts(c.ids, u, w.uavs[u]);
    NoKeyYet(u, w.uavs[u].phase2);
    DeliveredTags(c, w, m);
    OpensSealed(w.uavs[u], m);
    var i :| 0 <= i < |w.answers| && w.answers[i].sealed == m.fields[CRED_PKG];
    var a := w.answers[i];
    AnswersAre(c, w, i);
    OpenedIsOwn(c.ids, u, w.uavs[u], m, a);
    AnswerIsKnown(w, i);
    NewestTid(w, w.uavs[u].phase2, a, u);
    LastRotationSnoc(w.rotations, Rotation(u, a.sealed.package.tidNew), u);
  }

  lemma AnswerIsKnown(w: World, i: nat)
    requires AnswersKnown(w) && i < |w.answers|
    ensures AnswerKnown(w, w.answers[i])
  {}

  // ---------- prompt acceptance keeps the identity recognised ----------

  // The packages sealed for the UAV since its first rotation that it has not accepted since.
  function Outstanding(c: Config, w0: World, events: seq<Event>, u: int): set<Term>
    requires Run(c, w0, events).Some?
    decreases |events|
  {
    if |events| == 0 then {} else
      var n := |events| - 1;
      Settled(Run(c, w0, events[..n]).value, Run(c, w0, events).value, events[n], u, Outstanding(c, w0, events[..n], u))
  }

  function Settled(w: World, v: World, e: Event, u: int, before: set<Term>): set<Term> {
    if |v.answers| > |w.answers| && v.answers[|v.answers| - 1].uav == u && LastRotation(w.rotations, u).Some? then
      before + {v.answers[|v.answers| - 1].sealed}
    else if e.UavM4? && e.u == u && |v.rotations| > |w.rotations| && CRED_PKG in e.m.fields then
      before - {e.m.fields[CRED_PKG]}
    else before
  }

  // The UAV's last rotation is the newest, or the newest package for it is still outstanding.
  predicate InStep(w: World, u: int, outstanding: set<Term>) {
    LastRotation(w.rotations, u).Some? ==>
      LastRotationIsLastSealed(w, u)
      || (LastSealed(w.answers, u).Some? && LastSealed(w.answers, u).value in outstanding)
  }

  // How one event adds to the history.
  lemma HistoryStep(c: Config, w: World, e: Event)
    requires Enabled(c, w, e)
    ensures var v := Next(c, w, e);
            && (v.answers == w.answers || (e.GsM3? && v.rotations == w.rotations
                                           && exists a :: v.answers == w.answers + [a]))
            && (v.rotations == w.rotations || (e.UavM4? && v.answers == w.answers && U.OnM4(w.uavs[e.u], e.m).outcome.Accepted?
                                               && exists t :: v.rotations == w.rotations + [Rotation(e.u, t)]))
  {
    hide Deliverable, Regenerates, Fields, Answers, AnswerOf,
      GS.OnM1, GS.OnM3, U.OnStart2, U.OnM2, U.OnM4, U.OnStart3, U.OnP1, U.OnP2, U.OnP3;
  }

  lemma StepInStep(c: Config, w: World, e: Event, u: int, outstanding: set<Term>)
    requires Enabled(c, w, e) && InStep(w, u, outstanding)
    requires e.UavM4? && e.u == u && U.OnM4(w.uavs[u], e.m).outcome.Accepted? ==> LastRotationIsLastSealed(Next(c, w, e), u)
    ensures InStep(Next(c, w, e), u, Settled(w, Next(c, w, e), e, u, outstanding))
  {
    hide Next, Enabled, LastSealed, LastRotation, U.OnM4;
    HistoryStep(c, w, e);
    var v := Next(c, w, e);
    if v.answers != w.answers {
      var a :| v.answers == w.answers + [a];
      LastSealedSnoc(w.answers, a, u);
    } else if v.rotations != w.rotations {
      var t :| v.rotations == w.rotations + [Rotation(e.u, t)];
      LastRotationSnoc(w.rotations, Rotation(e.u, t), u);
    }
  }

  lemma {:induction false} RunInStep(c: Config, w0: World, events: seq<Event>, u: int)
    requires c.Valid() && Initial(c, w0) && u in c.ids && Run(c, w0, events).Some? && Fresh(c, w0, events)
    ensures InStep(Run(c, w0, events).value, u, Outstanding(c, w0, events, u))
    decreases |events|
  {
    hide Next, Enabled, DrawsFresh, InStep, Settled, GS.DeviceWith, LastRotationIsLastSealed, U.OnM4, Initial;
    if |events| == 0 {
      NeverRotated(c, w0, u);
    } else {
      var n := |events| - 1;
      var w, e := Run(c, w0, events[..n]).value, events[n];
      RunInStep(c, w0, events[..n], u);
      if e.UavM4? && e.u == u {
        M4EventIs(c, w, u, e.m);
        if U.OnM4(w.uavs[u], e.m).outcome.Accepted? { AcceptedIsNewest(c, w0, events[..n], u, e.m); }
      }
      StepInStep(c, w, e, u, Outstanding(c, w0, events[..n], u));
    }
  }

  lemma NeverRotated(c: Config, w0: World, u: int)
    requires Initial(c, w0)
    ensures InStep(w0, u, {})
  {}

  // Every package sealed for the UAV after its first rotation has been accepted whenever the UAV starts a session.
  predicate Prompt(c: Config, w0: World, events: seq<Event>, u: int)
    requires Run(c, w0, events).Some?
    decreases |events|
  {
    |events| > 0 ==>
      var n := |events| - 1;
      && Prompt(c, w0, events[..n], u)
      && (events[n].Start2? && events[n].u == u ==> Outstanding(c, w0, events[..n], u) == {})
  }

  // Over fresh runs: with no package outstanding the ground station recognises the identity the UAV holds.
  lemma SettledIsRecognised(c: Config, w0: World, events: seq<Event>, u: int)
    requires c.Valid() && Initial(c, w0) && u in c.ids && Run(c, w0, events).Some? && Fresh(c, w0, events)
    requires Outstanding(c, w0, events, u) == {}
    ensures var w := Run(c, w0, events).value; u in w.uavs && GS.DeviceWith(w.gs.devices, w.uavs[u].tid) == Some(u)
  {
    hide Run, Initial, Fresh, Outstanding, GS.DeviceWith, LastRotation, LastSealed, LastRotationIsLastSealed, FreshInv;
    RunFresh(c, w0, events, u);
    RunInStep(c, w0, events, u);
    RecognisedIff(c, w0, events, u);
  }

  lemma {:induction false} PromptUpTo(c: Config, w0: World, events: seq<Event>, u: int, k: nat)
    requires Run(c, w0, events).Some? && Fresh(c, w0, events) && Prompt(c, w0, events, u)
    requires k < |events| && events[k].Start2? && events[k].u == u
    ensures Run(c, w0, events[..k]).Some? && Fresh(c, w0, events[..k]) && Outstanding(c, w0, events[..k], u) == {}
    decreases |events|
  {
    hide Next, Enabled, Outstanding, DrawsFresh;
    var n := |events| - 1;
    if k < n {
      PromptUpTo(c, w0, events[..n], u, k);
      assert events[..n][..k] == events[..k];
    }
  }

  // Over fresh runs: a UAV that accepts every package sealed for it after its first rotation before it starts its next
  // session is recognised at the start of every session. Packages lost before the first rotation do not matter.
  lemma RecognisedAtStarts(c: Config, w0: World, events: seq<Event>, u: int, k: nat)
    requires c.Valid() && Initial(c, w0) && u in c.ids && Run(c, w0, events).Some?
    requires Fresh(c, w0, events) && Prompt(c, w0, events, u)
    requires k < |events| && events[k].Start2? && events[k].u == u
    ensures var r := Run(c, w0, events[..k]);
            r.Some? && u in r.value.uavs && GS.DeviceWith(r.value.gs.devices, r.value.uavs[u].tid) == Some(u)
  {
    hide *;
    PromptUpTo(c, w0, events, u, k);
    SettledIsRecognised(c, w0, events[..k], u);
  }
}
