// Authenticity over every run: a message that a handler accepts was sent, field by field, by the party it is taken for.
module Authenticity {
  import opened Wrappers
  import opened Symbols
  import GS = GroundStation
  import U = UavProtocol
  import opened Network
  import opened Invariants
  import opened Preservation
  import opened Runs
  import opened Agreement
  import opened PeerAgreement

  // ---------- what honest parties send ----------

  predicate M1Letter(u: int, m: Message) {
    && m.Has({TID, NONCE_1, TIMESTAMP, EPK_A, MAC_TAG}) && m.receiver == -1
    && m.fields[MAC_TAG].Mac? && m.fields[MAC_TAG].key.AuthKey? && OwnKey(u, m.fields[MAC_TAG].key.mk)
    && m.fields[MAC_TAG].text
       == [InputM1(m.suite, m.fields[TID], m.fields[NONCE_1], m.fields[TIMESTAMP], m.fields[EPK_A])]
  }

  predicate M2Letter(m: Message) {
    && m.Has({NONCE_2, TIMESTAMP, EPK_B, MAC_TAG})
    && m.fields[MAC_TAG].Mac? && m.fields[MAC_TAG].key == AuthKey(Master(m.receiver))
    && |m.fields[MAC_TAG].text| == 1
    && var i := m.fields[MAC_TAG].text[0];
       i.InputM2? && i.suite == m.suite && i.n2 == m.fields[NONCE_2] && i.t2 == m.fields[TIMESTAMP] && i.epkB == m.fields[EPK_B]
  }

  predicate M3Letter(u: int, m: Message) {
    && m.Has({TID, MAC_TAG}) && m.receiver == -1
    && m.fields[MAC_TAG].Mac? && m.fields[MAC_TAG].key.AuthKey? && OwnKey(u, m.fields[MAC_TAG].key.mk)
    && |m.fields[MAC_TAG].text| == 3 && m.fields[MAC_TAG].text[0] == InputM3(m.suite, m.fields[TID])
  }

  predicate M4Letter(m: Message) {
    && m.Has({CRED_PKG, AEAD_NONCE}) && m.fields[CRED_PKG].Sealed?
    && m.fields[CRED_PKG].aad.AadM4? && m.fields[CRED_PKG].aad.suite == m.suite
    && m.fields[CRED_PKG].key.AeadKey? && m.fields[CRED_PKG].key.session.SessionKey?
    && m.fields[AEAD_NONCE] == m.fields[CRED_PKG].nonce == AeadNonce(m.fields[CRED_PKG].key.session)
    && m.fields[CRED_PKG].key.session.mk == Master(m.receiver)
  }

  predicate PeerKeyed(ids: set<int>, u: int, m: Message) {
    && m.receiver in ids && m.receiver != u && MAC_TAG in m.fields && m.fields[MAC_TAG].Mac?
    && m.fields[MAC_TAG].key.PeerAuthKey? && PairOrEmpty(u, m.receiver, m.fields[MAC_TAG].key.cred)
  }

  predicate P1Letter(ids: set<int>, u: int, m: Message) {
    && m.Has(U.P1_FIELDS) && PeerKeyed(ids, u, m)
    && m.fields[SENDER_ID] == EncodeId(u) && m.fields[RECEIVER_ID] == EncodeId(m.receiver)
    && m.fields[MAC_TAG].text == [U.P1Received(m)]
  }

  predicate P2Letter(ids: set<int>, u: int, m: Message) {
    && m.Has({NONCE_2, EPK_B}) && PeerKeyed(ids, u, m) && |m.fields[MAC_TAG].text| == 1
    && var i := m.fields[MAC_TAG].text[0];
       && i.InputP2? && i.suite == m.suite && i.n2 == m.fields[NONCE_2] && i.epkB == m.fields[EPK_B]
       && i.sender == EncodeId(m.receiver) && i.receiver == EncodeId(u)
  }

  predicate P3Letter(ids: set<int>, u: int, m: Message) {
    && PeerKeyed(ids, u, m) && |m.fields[MAC_TAG].text| == 3 && m.fields[MAC_TAG].text[0] == InputP3(m.suite)
    && var i := m.fields[MAC_TAG].text[2];
       i.InputP2? && i.sender == EncodeId(u) && i.receiver == EncodeId(m.receiver)
  }

  // Only the tag is a tag, and only the package is sealed; M4 has the one and the other messages have the other.
  predicate TagsInPlace(m: Message) {
    && (CRED_PKG in m.fields <==> m.kind == M4GsConfirm) && (MAC_TAG in m.fields <==> m.kind != M4GsConfirm)
    && forall f :: f in m.fields ==> (m.fields[f].Mac? ==> f == MAC_TAG) && (m.fields[f].Sealed? ==> f == CRED_PKG)
  }

  predicate LetterOk(ids: set<int>, l: Letter) {
    && TagsInPlace(l.m) && l.m.sender == l.from && (l.from == -1 || l.from in ids)
    && match l.m.kind
       case M1AuthRequest => l.from in ids && M1Letter(l.from, l.m)
       case M2GsResponse => l.from == -1 && M2Letter(l.m)
       case M3UavConfirm => l.from in ids && M3Letter(l.from, l.m)
       case M4GsConfirm => l.from == -1 && M4Letter(l.m)
       case P1PeerRequest => l.from in ids && P1Letter(ids, l.from, l.m)
       case P2PeerResponse => l.from in ids && P2Letter(ids, l.from, l.m)
       case P3PeerComplete => l.from in ids && P3Letter(ids, l.from, l.m)
       case OtherType => false
  }

  // A tag or package was sent in its place in a letter.
  predicate Posted(w: World, t: Term) {
    && (t.Mac? ==> exists l :: l in w.letters && MAC_TAG in l.m.fields && l.m.fields[MAC_TAG] == t)
    && (t.Sealed? ==> exists l :: l in w.letters && CRED_PKG in l.m.fields && l.m.fields[CRED_PKG] == t)
  }

  ghost predicate Mailbag(ids: set<int>, w: World) {
    && (forall l :: l in w.letters ==> LetterOk(ids, l))
    && (forall t :: t in w.sent ==> Posted(w, t))
  }

  // ---------- one handler at a time ----------

  lemma M1IsLetter(c: U.Config, ids: set<int>, u: U.State, mk: Option<Term>, now: nat, n1: nat, scalar: nat)
    requires UavOk(ids, c.id, u) && Regenerates(c.id, mk) && c.id in ids
    ensures var o := U.OnStart2(c, u, true, mk, now, n1, scalar).outcome;
            o.Replied? ==> LetterOk(ids, Letter(c.id, o.reply))
  {
    hide Phase2Ok, CredsOk, PeersOk;
  }

  lemma M2IsLetter(c: GS.Config, ids: set<int>, g: GS.State, m: Message, now: nat, n2: nat, scalar: nat)
    requires GsOk(ids, g)
    ensures var o := GS.OnM1(c, g, m, now, n2, scalar).outcome;
            o.Replied? ==> LetterOk(ids, Letter(-1, o.reply))
  {
    hide GS.OnM1, GS.NewSession, GS.M2, GsOk, LetterOk;
    OnM1Effect(c, g, m, now, n2, scalar);
    if GS.OnM1(c, g, m, now, n2, scalar).outcome.Replied? {
      var id := GS.OnM1(c, g, m, now, n2, scalar).outcome.reply.receiver;
      DeviceKey(ids, g, id);
      M2Written(ids, m, id, now, n2, scalar);
    }
  }

  lemma M2Written(ids: set<int>, m: Message, id: int, now: nat, n2: nat, scalar: nat)
    requires m.Has({TID, NONCE_1, TIMESTAMP, EPK_A})
    ensures LetterOk(ids, Letter(-1, GS.M2(m, id, Master(id), now, n2, scalar)))
  {}

  lemma M3IsLetter(c: U.Config, ids: set<int>, u: U.State, m: Message, now: nat)
    requires UavOk(ids, c.id, u) && TagsOk(m) && c.id in ids
    ensures var o := U.OnM2(c, u, m, now).outcome;
            o.Replied? ==> LetterOk(ids, Letter(c.id, o.reply))
  {
    hide U.OnM2, U.M3, U.M2Signed, LetterOk, UavOk, TagsOk, ConfirmedOk, Phase2Ok, TidOk;
    OnM2Effect(c, u, m, now);
    OnM2Keeps(c, ids, u, m, now);
    UavParts(ids, c.id, u);
    if U.OnM2(c, u, m, now).outcome.Replied? {
      ConfirmedLength(U.OnM2(c, u, m, now).next.phase2);
      OwnAuthKey(c.id, u.phase2);
      M3Written(c, ids, u.tid, m.suite, u.phase2.mk, M2Noted(u, m).transcript);
    }
  }

  lemma ConfirmedLength(s: U.Phase2)
    requires ConfirmedOk(s)
    ensures |s.transcript| == 2
  {}

  lemma OwnAuthKey(id: int, s: U.Phase2)
    requires Phase2Ok(id, s) && s.authKey != Empty
    ensures OwnKey(id, s.mk) && s.authKey == AuthKey(s.mk)
  {}

  lemma M3Written(c: U.Config, ids: set<int>, tid: Term, suite: nat, mk: Term, transcript: seq<Input>)
    requires TidOk(c.id, tid) && OwnKey(c.id, mk) && |transcript| == 2 && c.id in ids
    ensures LetterOk(ids, Letter(c.id, U.M3(c, tid, suite, AuthKey(mk), transcript)))
  {}

  lemma M4IsLetter(ids: set<int>, g: GS.State, m: Message)
    requires GsOk(ids, g)
    ensures var o := GS.OnM3(g, m).outcome;
            o.Replied? ==> LetterOk(ids, Letter(-1, o.reply))
  {
    hide GS.OnM3, GS.PackageFor, SessionOk, Answered, Derive, GS.Rotated;
    OnM3Effect(g, m);
  }

  lemma P1IsLetter(c: U.Config, ids: set<int>, u: U.State, peer: int, now: nat, nonce: nat, scalar: nat)
    requires UavOk(ids, c.id, u) && c.id in ids
    ensures var o := U.OnStart3(c, u, peer, now, nonce, scalar).outcome;
            o.Replied? ==> LetterOk(ids, Letter(c.id, o.reply))
  {
    hide Phase2Ok, PeersOk, TidOk, PairCredential, U.Opening;
  }

  lemma P2IsLetter(c: U.Config, ids: set<int>, u: U.State, m: Message, now: nat, nonce: nat, scalar: nat)
    requires UavOk(ids, c.id, u) && c.id in ids
    ensures var o := U.OnP1(c, u, m, now, nonce, scalar).outcome;
            o.Replied? ==> LetterOk(ids, Letter(c.id, o.reply))
  {
    hide U.OnP1, Phase2Ok, PeersOk, TidOk, EncodeId, DecodeId, PairOrEmpty, U.Answering;
    OnP1Effect(c, u, m, now, nonce, scalar);
  }

  lemma P3IsLetter(ids: set<int>, id: int, u: U.State, m: Message)
    requires UavOk(ids, id, u) && id in ids
    ensures var o := U.OnP2(u, m).outcome;
            o.Replied? ==> LetterOk(ids, Letter(id, o.reply))
  {
    hide U.OnP2, Phase2Ok, CredsOk, TidOk, EncodeId, PairOrEmpty, Finished, U.WithCredential, Derive;
    PeerIds(ids, id, u);
    OnP2Effect(u, m);
  }

  // ---------- over every run ----------

  lemma MailGrows(ids: set<int>, w: World, v: World, from: int, o: Outcome)
    requires Mailbag(ids, w) && (o.Replied? ==> LetterOk(ids, Letter(from, o.reply)))
    requires v.letters == w.letters + Mailed(from, o) && v.sent == w.sent + Fields(o)
    ensures Mailbag(ids, v)
  {
    forall t | t in v.sent ensures Posted(v, t) {
      if t in w.sent {
        assert Posted(w, t);
      } else {
        NewlyPosted(ids, v, from, o.reply, t);
      }
    }
  }

  lemma NewlyPosted(ids: set<int>, v: World, from: int, m: Message, t: Term)
    requires LetterOk(ids, Letter(from, m)) && Letter(from, m) in v.letters && t in m.fields.Values
    ensures Posted(v, t)
  {
    var f :| f in m.fields && m.fields[f] == t;
    assert Letter(from, m).m == m;
  }

  lemma NextMail(c: Config, w: World, e: Event)
    requires Inv(c, w) && Mailbag(c.ids, w) && Enabled(c, w, e)
    ensures Mailbag(c.ids, Next(c, w, e))
  {
    hide Inv, Mailbag, LetterOk, UavOk, GsOk, Fields, Mailed, Deliverable, TagsOk, Answers, AnswerOf,
      GS.OnM1, GS.OnM3, U.OnStart2, U.OnM2, U.OnM4, U.OnStart3, U.OnP1, U.OnP2, U.OnP3;
    var v := Next(c, w, e);
    GsIsOk(c, w);
    match e {
      case GsM1(m, now, nonce, scalar) =>
        M2IsLetter(c.Gs(), c.ids, w.gs, m, now, nonce, scalar);
        MailGrows(c.ids, w, v, -1, GS.OnM1(c.Gs(), w.gs, m, now, nonce, scalar).outcome);
      case GsM3(m) =>
        M4IsLetter(c.ids, w.gs, m);
        MailGrows(c.ids, w, v, -1, GS.OnM3(w.gs, m).outcome);
      case Start2(u, mk, now, nonce, scalar) =>
        Parts(c, w, u);
        M1IsLetter(c.Uav(u), c.ids, w.uavs[u], mk, now, nonce, scalar);
        MailGrows(c.ids, w, v, u, U.OnStart2(c.Uav(u), w.uavs[u], true, mk, now, nonce, scalar).outcome);
      case UavM2(u, m, now) =>
        Parts(c, w, u);
        DeliveredTags(c, w, m);
        M3IsLetter(c.Uav(u), c.ids, w.uavs[u], m, now);
        MailGrows(c.ids, w, v, u, U.OnM2(c.Uav(u), w.uavs[u], m, now).outcome);
      case UavM4(u, m) =>
        NoReply(w.uavs[u], m);
        MailGrows(c.ids, w, v, u, U.OnM4(w.uavs[u], m).outcome);
      case Start3(u, peer, now, nonce, scalar) =>
        Parts(c, w, u);
        P1IsLetter(c.Uav(u), c.ids, w.uavs[u], peer, now, nonce, scalar);
        MailGrows(c.ids, w, v, u, U.OnStart3(c.Uav(u), w.uavs[u], peer, now, nonce, scalar).outcome);
      case UavP1(u, m, now, nonce, scalar) =>
        Parts(c, w, u);
        P2IsLetter(c.Uav(u), c.ids, w.uavs[u], m, now, nonce, scalar);
        MailGrows(c.ids, w, v, u, U.OnP1(c.Uav(u), w.uavs[u], m, now, nonce, scalar).outcome);
      case UavP2(u, m) =>
        Parts(c, w, u);
        P3IsLetter(c.ids, u, w.uavs[u], m);
        MailGrows(c.ids, w, v, u, U.OnP2(w.uavs[u], m).outcome);
      case UavP3(u, m) =>
        NoReply(w.uavs[u], m);
        MailGrows(c.ids, w, v, u, U.OnP3(w.uavs[u], m).outcome);
    }
  }

  lemma NoReply(u: U.State, m: Message)
    ensures !U.OnM4(u, m).outcome.Replied? && !U.OnP3(u, m).outcome.Replied?
  {
    hide U.Opens, Derive, U.WithCredential;
  }

  lemma {:induction false} RunMail(c: Config, w0: World, events: seq<Event>)
    requires c.Valid() && Initial(c, w0) && Run(c, w0, events).Some?
    ensures Mailbag(c.ids, Run(c, w0, events).value)
    decreases |events|
  {
    hide Next, Enabled, Inv, LetterOk, Posted;
    if |events| > 0 {
      var n := |events| - 1;
      RunMail(c, w0, events[..n]);
      RunInv(c, w0, events[..n]);
      NextMail(c, Run(c, w0, events[..n]).value, events[n]);
    }
  }

  // ---------- who sent what was accepted ----------

  // The two messages are of one kind and suite and agree in the given fields.
  predicate SameSigned(a: Message, b: Message, fields: set<FieldId>) {
    && a.kind == b.kind && a.suite == b.suite && a.Has(fields) && b.Has(fields)
    && forall f :: f in fields ==> a.fields[f] == b.fields[f]
  }

  // The party has sent the message to the receiver, as far as the fields go.
  ghost predicate HasSent(w: World, from: int, to: int, m: Message, fields: set<FieldId>) {
    exists l :: l in w.letters && l.from == from && l.m.receiver == to && SameSigned(l.m, m, fields)
  }

  lemma TagPosted(ids: set<int>, w: World, m: Message) returns (l: Letter)
    requires Mailbag(ids, w) && Deliverable(m, w.sent) && MAC_TAG in m.fields && m.fields[MAC_TAG].Mac?
    requires m.fields[MAC_TAG].key != PeerAuthKey(Empty)
    ensures l in w.letters && LetterOk(ids, l) && MAC_TAG in l.m.fields && l.m.fields[MAC_TAG] == m.fields[MAC_TAG]
  {
    hide LetterOk;
    TagSent(w, m);
    assert Posted(w, m.fields[MAC_TAG]);
    l :| l in w.letters && MAC_TAG in l.m.fields && l.m.fields[MAC_TAG] == m.fields[MAC_TAG];
  }

  // A letter's kind shows in what its tag is over.
  lemma KindOfTag(ids: set<int>, l: Letter)
    requires LetterOk(ids, l) && MAC_TAG in l.m.fields && l.m.fields[MAC_TAG].Mac?
    ensures |l.m.fields[MAC_TAG].text| > 0
    ensures var i := l.m.fields[MAC_TAG].text[0];
            && (i.InputM1? <==> l.m.kind == M1AuthRequest) && (i.InputM2? <==> l.m.kind == M2GsResponse)
            && (i.InputM3? <==> l.m.kind == M3UavConfirm) && (i.InputP1? <==> l.m.kind == P1PeerRequest)
            && (i.InputP2? <==> l.m.kind == P2PeerResponse) && (i.InputP3? <==> l.m.kind == P3PeerComplete)
  {
    hide EncodeId, PairOrEmpty;
  }

  // ---------- Phase 2 ----------

  // Over all runs: an M1 that the ground station answers was sent, in every signed field, by the UAV it answers.
  lemma AuthenticM1(c: Config, w0: World, events: seq<Event>, m: Message, now: nat, n2: nat, scalar: nat)
    requires c.Valid() && Initial(c, w0) && Run(c, w0, events).Some?
    requires Enabled(c, Run(c, w0, events).value, GsM1(m, now, n2, scalar))
    requires GS.OnM1(c.Gs(), Run(c, w0, events).value.gs, m, now, n2, scalar).outcome.Replied?
    ensures var w := Run(c, w0, events).value;
            HasSent(w, GS.OnM1(c.Gs(), w.gs, m, now, n2, scalar).outcome.reply.receiver, -1, m,
                    {TID, NONCE_1, TIMESTAMP, EPK_A, MAC_TAG})
  {
    hide Run, Initial, Inv, Mailbag, LetterOk, GS.OnM1, Deliverable, GsOk, PairOrEmpty;
    RunInv(c, w0, events);
    RunMail(c, w0, events);
    var w := Run(c, w0, events).value;
    var id := GS.OnM1(c.Gs(), w.gs, m, now, n2, scalar).outcome.reply.receiver;
    M1Kind(c.Gs(), w.gs, m, now, n2, scalar);
    M1Verified(c.Gs(), w.gs, m, now, n2, scalar);
    GsIsOk(c, w);
    DeviceKey(c.ids, w.gs, id);
    var l := TagPosted(c.ids, w, m);
    KindOfTag(c.ids, l);
    M1Parts(c.ids, l);
    assert SameSigned(l.m, m, {TID, NONCE_1, TIMESTAMP, EPK_A, MAC_TAG});
  }

  lemma M1Kind(c: GS.Config, g: GS.State, m: Message, now: nat, n2: nat, scalar: nat)
    ensures GS.OnM1(c, g, m, now, n2, scalar).outcome.Replied? ==> m.kind == M1AuthRequest
  {
    hide GS.DeviceWith, GS.RC.Last, Size, DecodeStamp, TimestampFresh, GS.NewSession, GS.M1Signed, GS.M2;
  }

  lemma M1Parts(ids: set<int>, l: Letter)
    requires LetterOk(ids, l) && l.m.kind == M1AuthRequest
    ensures M1Letter(l.from, l.m)
  {
    hide M1Letter;
  }

  // An M2 that a UAV accepts was sent to it, in every field, by the ground station.
  lemma AuthenticM2(c: Config, w0: World, events: seq<Event>, u: int, m: Message, now: nat)
    requires c.Valid() && Initial(c, w0) && Run(c, w0, events).Some?
    requires Enabled(c, Run(c, w0, events).value, UavM2(u, m, now))
    requires U.OnM2(c.Uav(u), Run(c, w0, events).value.uavs[u], m, now).outcome.Replied?
    ensures HasSent(Run(c, w0, events).value, -1, u, m, {NONCE_2, TIMESTAMP, EPK_B, MAC_TAG})
  {
    hide Run, Initial, Inv, Mailbag, LetterOk, U.OnM2, Deliverable, CredsOk, PeersOk, TidOk, U.M3;
    RunInv(c, w0, events);
    RunMail(c, w0, events);
    var w := Run(c, w0, events).value;
    Parts(c, w, u);
    UavParts(c.ids, u, w.uavs[u]);
    M2Kind(c.Uav(u), w.uavs[u], m, now);
    OnM2Effect(c.Uav(u), w.uavs[u], m, now);
    var l := TagPosted(c.ids, w, m);
    KindOfTag(c.ids, l);
    M2Parts(c.ids, l);
    assert SameSigned(l.m, m, {NONCE_2, TIMESTAMP, EPK_B, MAC_TAG});
  }

  lemma M2Kind(c: U.Config, u: U.State, m: Message, now: nat)
    ensures U.OnM2(c, u, m, now).outcome.Replied? ==> m.kind == M2GsResponse
  {
    hide U.RC.Last, Size, DecodeStamp, TimestampFresh, U.M2Signed, U.M3, Derive;
  }

  lemma M2Parts(ids: set<int>, l: Letter)
    requires LetterOk(ids, l) && l.m.kind == M2GsResponse
    ensures l.from == -1 && M2Letter(l.m)
  {
    hide M2Letter;
  }

  // An M3 that the ground station answers was sent, in every field, by the UAV it answers.
  lemma AuthenticM3(c: Config, w0: World, events: seq<Event>, m: Message)
    requires c.Valid() && Initial(c, w0) && Run(c, w0, events).Some?
    requires Enabled(c, Run(c, w0, events).value, GsM3(m))
    requires GS.OnM3(Run(c, w0, events).value.gs, m).outcome.Replied?
    ensures var w := Run(c, w0, events).value;
            HasSent(w, GS.OnM3(w.gs, m).outcome.reply.receiver, -1, m, {TID, MAC_TAG})
  {
    hide Run, Initial, Inv, Mailbag, LetterOk, GS.OnM3, Deliverable, GsOk, SessionOk, Answered, Derive, Answers, AnswerOf;
    RunInv(c, w0, events);
    RunMail(c, w0, events);
    var w := Run(c, w0, events).value;
    M3Kind(w.gs, m);
    OnM3Verified(w.gs, m);
    GsIsOk(c, w);
    var id := GS.OnM3(w.gs, m).outcome.reply.receiver;
    SessionIs(c.ids, w.gs, id);
    SessionTag(id, w.gs.sessions[id], m);
    var l := TagPosted(c.ids, w, m);
    KindOfTag(c.ids, l);
    M3Parts(c.ids, l);
    assert SameSigned(l.m, m, {TID, MAC_TAG});
  }

  lemma M3Kind(g: GS.State, m: Message)
    ensures GS.OnM3(g, m).outcome.Replied? ==> m.kind == M3UavConfirm
  {
    hide GS.DeviceWith, Derive, GS.PackageFor, GS.Rotated, GS.M4;
  }

  lemma M3Parts(ids: set<int>, l: Letter)
    requires LetterOk(ids, l) && l.m.kind == M3UavConfirm
    ensures M3Letter(l.from, l.m)
  {
    hide M3Letter;
  }

  // An M4 that a UAV accepts was sent to it, package and suite, by the ground station.
  lemma AuthenticM4(c: Config, w0: World, events: seq<Event>, u: int, m: Message)
    requires c.Valid() && Initial(c, w0) && Run(c, w0, events).Some?
    requires Enabled(c, Run(c, w0, events).value, UavM4(u, m))
    requires U.OnM4(Run(c, w0, events).value.uavs[u], m).outcome.Accepted?
    ensures HasSent(Run(c, w0, events).value, -1, u, m, {CRED_PKG})
  {
    hide Run, Initial, Inv, Mailbag, LetterOk, CredsOk, PeersOk, TidOk;
    RunInv(c, w0, events);
    RunMail(c, w0, events);
    var w := Run(c, w0, events).value;
    Parts(c, w, u);
    UavParts(c.ids, u, w.uavs[u]);
    var l := PackagePosted(c.ids, w, m);
    M4Parts(c.ids, l);
    assert SameSigned(l.m, m, {CRED_PKG});
  }

  lemma PackagePosted(ids: set<int>, w: World, m: Message) returns (l: Letter)
    requires Mailbag(ids, w) && Deliverable(m, w.sent) && CRED_PKG in m.fields && m.fields[CRED_PKG].Sealed?
    ensures l in w.letters && LetterOk(ids, l) && CRED_PKG in l.m.fields && l.m.fields[CRED_PKG] == m.fields[CRED_PKG]
  {
    hide LetterOk;
    assert Posted(w, m.fields[CRED_PKG]);
    l :| l in w.letters && CRED_PKG in l.m.fields && l.m.fields[CRED_PKG] == m.fields[CRED_PKG];
  }

  lemma M4Parts(ids: set<int>, l: Letter)
    requires LetterOk(ids, l) && CRED_PKG in l.m.fields
    ensures l.m.kind == M4GsConfirm && l.from == -1 && M4Letter(l.m)
  {
    hide M4Letter, M1Letter, M2Letter, M3Letter, P1Letter, P2Letter, P3Letter;
  }

  // ---------- Phase 3 ----------

  // A P1 that a UAV answers while it holds the credential was sent to it, in every signed field, by the peer it answers.
  lemma AuthenticP1(c: Config, w0: World, events: seq<Event>, u: int, m: Message, now: nat, nonce: nat, scalar: nat)
    requires c.Valid() && Initial(c, w0) && Run(c, w0, events).Some?
    requires Enabled(c, Run(c, w0, events).value, UavP1(u, m, now, nonce, scalar))
    requires var x := Run(c, w0, events).value.uavs[u];
             var o := U.OnP1(c.Uav(u), x, m, now, nonce, scalar).outcome;
             o.Replied? && Holds(x, o.reply.receiver)
    ensures var w := Run(c, w0, events).value;
            HasSent(w, U.OnP1(c.Uav(u), w.uavs[u], m, now, nonce, scalar).outcome.reply.receiver, u, m, U.P1_FIELDS)
  {
    hide Run, Initial, Inv, Mailbag, LetterOk, U.OnP1, Deliverable, Phase2Ok, PeersOk, TidOk, EncodeId, DecodeId, ValidId,
      U.Answering, U.P2Answered, PairCredential;
    RunInv(c, w0, events);
    RunMail(c, w0, events);
    var w := Run(c, w0, events).value;
    Parts(c, w, u);
    UavParts(c.ids, u, w.uavs[u]);
    OnP1Effect(c.Uav(u), w.uavs[u], m, now, nonce, scalar);
    P1Verified(c.Uav(u), w.uavs[u], m, now, nonce, scalar);
    var p := U.OnP1(c.Uav(u), w.uavs[u], m, now, nonce, scalar).outcome.reply.receiver;
    DecodedId(m.fields[SENDER_ID]);
    var l := TagPosted(c.ids, w, m);
    KindOfTag(c.ids, l);
    P1Parts(c.ids, l);
    EncodeIdUnique(l.from, p);
    SamePeer(l.from, l.m.receiver, u, p, l.m.fields[MAC_TAG].key.cred);
    assert SameSigned(l.m, m, U.P1_FIELDS);
  }

  lemma P1Verified(c: U.Config, u: U.State, m: Message, now: nat, nonce: nat, scalar: nat)
    requires U.OnP1(c, u, m, now, nonce, scalar).outcome.Replied?
    ensures m.kind == P1PeerRequest && m.Has(U.P1_FIELDS) && MAC_TAG in m.fields
    ensures var p := U.OnP1(c, u, m, now, nonce, scalar).outcome.reply.receiver;
            p in u.phase2.creds && DecodeId(m.fields[SENDER_ID]) == Some(p)
            && m.fields[MAC_TAG] == Mac(PeerAuthKey(u.phase2.creds[p]), [U.P1Received(m)])
  {
    hide U.RC.Last, DecodeId, DecodeStamp, TimestampFresh, U.Answering, U.P1Received, U.P2Answered;
  }

  lemma P1Parts(ids: set<int>, l: Letter)
    requires LetterOk(ids, l) && l.m.kind == P1PeerRequest
    ensures l.from in ids && P1Letter(ids, l.from, l.m)
  {
    hide P1Letter;
  }

  // Two UAVs share their credential with nobody else.
  lemma SamePeer(from: int, to: int, u: int, p: int, cred: Term)
    requires ValidId(from) && ValidId(to) && ValidId(u) && ValidId(p) && from == p
    requires PairOrEmpty(from, to, cred) && cred == PairCredential(u, p)
    ensures to == u
  {
    PairCredentialUnique(from, to, u, p);
  }

  // A P2 that completes an exchange authenticated with the pair's credential was sent to the UAV, in every field, by
  // the peer.
  lemma AuthenticP2(c: Config, w0: World, events: seq<Event>, u: int, m: Message)
    requires c.Valid() && Initial(c, w0) && Run(c, w0, events).Some?
    requires Enabled(c, Run(c, w0, events).value, UavP2(u, m))
    requires U.OnP2(Run(c, w0, events).value.uavs[u], m).outcome.Replied?
    requires Authentic(Run(c, w0, events).value.uavs[u], u, m.sender)
    ensures HasSent(Run(c, w0, events).value, m.sender, u, m, {NONCE_2, EPK_B, MAC_TAG})
  {
    hide Run, Initial, Inv, Mailbag, LetterOk, U.OnP2, Deliverable, Phase2Ok, PeersOk, TidOk, CredsOk, EncodeId, ValidId,
      U.P3, Finished, U.WithCredential, Derive, PairCredential, ExchangeOk, Open, UavOk;
    RunInv(c, w0, events);
    RunMail(c, w0, events);
    var w := Run(c, w0, events).value;
    Parts(c, w, u);
    PeerIds(c.ids, u, w.uavs[u]);
    PeerIs(c.ids, u, w.uavs[u], m.sender);
    AuthenticIs(w.uavs[u], u, m.sender);
    P2Kind(w.uavs[u], m);
    OnP2Effect(w.uavs[u], m);
    var l := TagPosted(c.ids, w, m);
    KindOfTag(c.ids, l);
    P2Parts(c.ids, l);
    EncodeIdUnique(l.from, m.sender);
    EncodeIdUnique(l.m.receiver, u);
    assert SameSigned(l.m, m, {NONCE_2, EPK_B, MAC_TAG});
  }

  lemma P2Kind(u: U.State, m: Message)
    ensures U.OnP2(u, m).outcome.Replied? ==> m.kind == P2PeerResponse
  {
    hide U.P2Received, U.P3, Derive, Size;
  }

  lemma P2Parts(ids: set<int>, l: Letter)
    requires LetterOk(ids, l) && l.m.kind == P2PeerResponse
    ensures l.from in ids && l.m.receiver in ids && P2Letter(ids, l.from, l.m)
  {
    hide EncodeId, PairOrEmpty;
  }

  // A P3 that completes such an exchange was sent to the UAV, tag and suite, by the peer.
  lemma AuthenticP3(c: Config, w0: World, events: seq<Event>, u: int, m: Message)
    requires c.Valid() && Initial(c, w0) && Run(c, w0, events).Some?
    requires Enabled(c, Run(c, w0, events).value, UavP3(u, m))
    requires U.OnP3(Run(c, w0, events).value.uavs[u], m).outcome.Accepted?
    requires Authentic(Run(c, w0, events).value.uavs[u], u, m.sender)
    ensures HasSent(Run(c, w0, events).value, m.sender, u, m, {MAC_TAG})
  {
    hide Run, Initial, Inv, Mailbag, LetterOk, U.OnP3, Deliverable, Phase2Ok, PeersOk, TidOk, CredsOk, EncodeId, ValidId,
      Finished, U.WithCredential, Derive, PairCredential, Open, UavOk, PairOrEmpty, KeysOk;
    RunInv(c, w0, events);
    RunMail(c, w0, events);
    var w := Run(c, w0, events).value;
    Parts(c, w, u);
    PeerIds(c.ids, u, w.uavs[u]);
    PeerIs(c.ids, u, w.uavs[u], m.sender);
    AuthenticIs(w.uavs[u], u, m.sender);
    P3Kind(w.uavs[u], m);
    OnP3Effect(w.uavs[u], m);
    var l := TagPosted(c.ids, w, m);
    KindOfTag(c.ids, l);
    P3Parts(c.ids, l);
    EncodeIdUnique(l.from, m.sender);
    EncodeIdUnique(l.m.receiver, u);
    assert SameSigned(l.m, m, {MAC_TAG});
  }

  lemma P3Kind(u: U.State, m: Message)
    ensures U.OnP3(u, m).outcome.Accepted? ==> m.kind == P3PeerComplete
  {
    hide Derive;
  }

  lemma P3Parts(ids: set<int>, l: Letter)
    requires LetterOk(ids, l) && l.m.kind == P3PeerComplete
    ensures l.from in ids && l.m.receiver in ids && P3Letter(ids, l.from, l.m)
  {
    hide EncodeId, PairOrEmpty;
  }
}
