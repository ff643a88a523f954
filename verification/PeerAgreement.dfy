// Agreement in Phase 3: exactly when both ends of an authenticated exchange derive the same key.
module PeerAgreement {
  import opened Wrappers
  import opened Symbols
  import GS = GroundStation
  import U = UavProtocol
  import opened Network
  import opened Invariants
  import opened Preservation
  import opened Runs
  import opened Agreement

  // The UAV still holds a credential for the peer: present, and not the empty one.
  predicate Holds(x: U.State, p: int) { p in x.phase2.creds && x.phase2.creds[p] != Empty }

  // The exchange was authenticated with the pair's credential.
  predicate Authentic(x: U.State, u: int, p: int) {
    p in x.peers && x.peers[p].authKey == PeerAuthKey(PairCredential(u, p))
  }

  predicate UsesPair(x: U.Exchange) {
    x.sessionKey.PeerKey? && x.sessionKey.cred == PairCredential(x.localId, x.peerId)
  }

  // An initiator's completed exchange and its responder's, over the same messages.
  predicate SameMessages(x: U.Exchange, responder: U.Exchange) {
    && x.established && x.localId == responder.peerId && x.peerId == responder.localId
    && x.p1 == responder.p1 && x.p2 == responder.p2
  }

  // ---------- the responder, on P3 ----------

  // Over all runs: when a responder accepts P3 in an exchange authenticated with the pair's credential, its peer had
  // become established on P2 with the same P1 and P2. With every such completion its key agrees exactly when both
  // ends still held the credential, or both had lost it, as they derived.
  lemma Phase3AgreementIff(c: Config, w0: World, events: seq<Event>, u: int, m: Message)
    requires c.Valid() && Initial(c, w0) && Run(c, w0, events).Some?
    requires Enabled(c, Run(c, w0, events).value, UavP3(u, m))
    requires U.OnP3(Run(c, w0, events).value.uavs[u], m).outcome.Accepted?
    requires Authentic(Run(c, w0, events).value.uavs[u], u, m.sender)
    ensures var w := Run(c, w0, events).value;
            var s := U.OnP3(w.uavs[u], m).next;
            && m.sender in s.peers && s.peers[m.sender].established
            && (exists x :: x in w.completions && SameMessages(x, s.peers[m.sender]))
            && (forall x :: x in w.completions && SameMessages(x, s.peers[m.sender]) ==>
                  (x.sessionKey == s.peers[m.sender].sessionKey <==> (UsesPair(x) <==> Holds(w.uavs[u], m.sender))))
  {
    hide *;
    RunInv(c, w0, events);
    var w := Run(c, w0, events).value;
    P3EventIs(c, w, u, m);
    Parts(c, w, u);
    PeerIds(c.ids, u, w.uavs[u]);
    OnP3Effect(w.uavs[u], m);
    AuthenticIs(w.uavs[u], u, m.sender);
    PeerIs(c.ids, u, w.uavs[u], m.sender);
    var r := w.uavs[u].peers[m.sender];
    var tag := m.fields[MAC_TAG];
    ResponderTag(u, m.sender, r, m.suite);
    TagSent(w, m);
    P3TagIs(c, w, tag);
    var done := U.OnP3(w.uavs[u], m).next.peers[m.sender];
    FinishedIs(w.uavs[u], u, m.sender, r, done, Derive(r.ephemeral.secret, r.epkRemote).value);
    var x :| x in w.completions && Vouches(x, tag);
    VouchesFor(x, tag);
    CompletionsAre(c, w, x);
    SamePair(c.ids, u, m.sender, r, x);
    FinishedMatches(r, done, x);
    forall x | x in w.completions && SameMessages(x, done)
      ensures x.sessionKey == done.sessionKey <==> (UsesPair(x) <==> Holds(w.uavs[u], m.sender))
    {
      CompletionsAre(c, w, x);
      SameSecret(c.ids, u, m.sender, r, done, x);
    }
  }

  lemma P3EventIs(c: Config, w: World, u: int, m: Message)
    requires Enabled(c, w, UavP3(u, m))
    ensures u in w.uavs && Deliverable(m, w.sent)
  {}

  lemma PeerIds(ids: set<int>, u: int, x: U.State)
    requires UavOk(ids, u, x)
    ensures forall p :: p in x.peers ==> x.peers[p].peerId == p
  {
    hide TidOk, Phase2Ok, CredsOk, EncodeId, PairOrEmpty, KeysOk, IsP1, IsP2;
  }

  lemma AuthenticIs(x: U.State, u: int, p: int)
    requires Authentic(x, u, p)
    ensures p in x.peers && x.peers[p].authKey == PeerAuthKey(PairCredential(u, p)) != PeerAuthKey(Empty)
  {}

  lemma PeerIs(ids: set<int>, u: int, x: U.State, p: int)
    requires UavOk(ids, u, x) && p in x.peers
    ensures p in ids && p != u && ExchangeOk(u, p, x.peers[p]) && CredsOk(ids, u, x.phase2.creds)
    ensures x.peers[p].peerId == p && x.peers[p].localId == u
    ensures p in x.phase2.creds ==> PairOrEmpty(u, p, x.phase2.creds[p])
  {
    hide TidOk, Phase2Ok, EncodeId, PairOrEmpty;
  }

  lemma ResponderTag(u: int, p: int, r: U.Exchange, suite: nat)
    requires ExchangeOk(u, p, r) && !r.initiator
    ensures IsP3Tag(Mac(r.authKey, [InputP3(suite)] + r.p1 + r.p2))
    ensures Mac(r.authKey, [InputP3(suite)] + r.p1 + r.p2).text[1..] == r.p1 + r.p2
    ensures |r.p1| == |r.p2| == 1
  {
    hide EncodeId, PairOrEmpty;
  }

  lemma P3TagIs(c: Config, w: World, t: Term)
    requires Inv(c, w) && t in w.sent && IsP3Tag(t)
    ensures exists x :: x in w.completions && Vouches(x, t)
  {
    hide GsOk, UavOk, CompletionOk, ConfirmedOk, ResponseOk, AnswerOk, IsRotation, TidsOk;
    assert SentOk(w, t);
  }

  lemma VouchesFor(x: U.Exchange, t: Term)
    requires IsP3Tag(t) && Vouches(x, t)
    ensures t.key == x.authKey && t.text[1..] == x.p1 + x.p2
  {}

  lemma CompletionsAre(c: Config, w: World, x: U.Exchange)
    requires Inv(c, w) && x in w.completions
    ensures CompletionOk(c.ids, x) && forall id :: id in c.ids ==> ValidId(id)
  {
    hide GsOk, UavOk, CompletionOk, ConfirmedOk, ResponseOk, AnswerOk, IsRotation, TidsOk, SentOk;
  }

  // The finished exchange: the same messages, and a key from the credential held, or from the empty one.
  lemma FinishedIs(x: U.State, u: int, p: int, r: U.Exchange, done: U.Exchange, shared: Term)
    requires p in x.phase2.creds ==> PairOrEmpty(u, p, x.phase2.creds[p])
    requires done == Finished(r, U.WithCredential(x.phase2.creds, p)[p], shared)
    ensures done.established && done.localId == r.localId && done.peerId == r.peerId
    ensures done.p1 == r.p1 && done.p2 == r.p2 && done.authKey == r.authKey
    ensures done.sessionKey == PeerKey(if p in x.phase2.creds then x.phase2.creds[p] else Empty, shared, r.p1 + r.p2)
    ensures PairOrEmpty(u, p, done.sessionKey.cred) && (Holds(x, p) <==> done.sessionKey.cred != Empty)
  {}

  lemma FinishedMatches(r: U.Exchange, done: U.Exchange, x: U.Exchange)
    requires done.localId == r.localId && done.peerId == r.peerId && done.p1 == r.p1 && done.p2 == r.p2
    requires x.localId == r.peerId && x.peerId == r.localId && x.p1 == r.p1 && x.p2 == r.p2 && x.established
    ensures SameMessages(x, done)
  {}

  lemma SameParts(a: seq<Input>, b: seq<Input>, x: seq<Input>, y: seq<Input>)
    requires |a| == |x| == 1 && a + b == x + y
    ensures a == x && b == y
  {
    assert a[0] == (a + b)[0] == (x + y)[0] == x[0];
    assert (a + b)[1..] == b && (x + y)[1..] == y;
  }

  lemma SamePair(ids: set<int>, u: int, p: int, r: U.Exchange, x: U.Exchange)
    requires ExchangeOk(u, p, r) && !r.initiator && u in ids && p in ids && p != u
    requires CompletionOk(ids, x) && r.p1 + r.p2 == x.p1 + x.p2
    requires forall id :: id in ids ==> ValidId(id)
    ensures x.localId == p == r.peerId && x.peerId == u == r.localId && x.p1 == r.p1 && x.p2 == r.p2 && x.established
  {
    hide EncodeId, PairOrEmpty, ValidId, KeyOf;
    SameParts(r.p1, r.p2, x.p1, x.p2);
    EncodeIdUnique(x.localId, p);
    EncodeIdUnique(x.peerId, u);
  }

  // Both ends hold the same shared secret, so their keys differ at most in the credential.
  lemma SameSecret(ids: set<int>, u: int, p: int, r: U.Exchange, done: U.Exchange, x: U.Exchange)
    requires ExchangeOk(u, p, r) && !r.initiator && Open(r) && Derive(r.ephemeral.secret, r.epkRemote).Some?
    requires done.sessionKey.PeerKey? && PairOrEmpty(u, p, done.sessionKey.cred)
    requires done.sessionKey == PeerKey(done.sessionKey.cred, Derive(r.ephemeral.secret, r.epkRemote).value, r.p1 + r.p2)
    requires done.p1 == r.p1 && done.p2 == r.p2 && done.localId == u && done.peerId == p
    requires CompletionOk(ids, x) && SameMessages(x, done)
    requires ValidId(u) && ValidId(p)
    ensures x.sessionKey == done.sessionKey <==> (UsesPair(x) <==> done.sessionKey.cred != Empty)
  {
    hide EncodeId, ValidId;
    DhCommutes(r.epkLocal.scalar, r.epkRemote.scalar);
    PairCredentialUnique(u, p, p, u);
  }

  // ---------- the initiator, on P2 ----------

  // A responder's answer to an exchange, over the same P2.
  predicate AnsweredAs(y: U.Exchange, initiator: U.Exchange) {
    && y.localId == initiator.peerId && y.peerId == initiator.localId && y.authKey == initiator.authKey
    && y.p2 == initiator.p2 && Derive(y.ephemeral.secret, y.epkRemote).Some?
  }

  // Over all runs: when an initiator accepts P2 in an exchange authenticated with the pair's credential, its peer had
  // answered it with that P2, and the key is the one the pair's credential gives for the secret both share if and
  // only if the initiator still holds the credential.
  lemma InitiatorAgreementIff(c: Config, w0: World, events: seq<Event>, u: int, m: Message)
    requires c.Valid() && Initial(c, w0) && Run(c, w0, events).Some?
    requires Enabled(c, Run(c, w0, events).value, UavP2(u, m))
    requires U.OnP2(Run(c, w0, events).value.uavs[u], m).outcome.Replied?
    requires Authentic(Run(c, w0, events).value.uavs[u], u, m.sender)
    ensures var w := Run(c, w0, events).value;
            var s := U.OnP2(w.uavs[u], m).next;
            && m.sender in s.peers && s.peers[m.sender].established
            && var done := s.peers[m.sender];
               exists y :: y in w.responses && AnsweredAs(y, done)
                 && (done.sessionKey == PairKey(u, m.sender, y, done) <==> Holds(w.uavs[u], m.sender))
  {
    hide *;
    RunInv(c, w0, events);
    var w := Run(c, w0, events).value;
    P2EventIs(c, w, u, m);
    Parts(c, w, u);
    PeerIds(c.ids, u, w.uavs[u]);
    AuthenticIs(w.uavs[u], u, m.sender);
    OnP2Effect(w.uavs[u], m);
    PeerIs(c.ids, u, w.uavs[u], m.sender);
    HasFields(m);
    var r := w.uavs[u].peers[m.sender];
    var x := Confirmed(r, m);
    var tag := m.fields[MAC_TAG];
    ConfirmedExchange(u, m.sender, r, m);
    TagSent(w, m);
    P2TagIs(c, w, tag);
    var y :| y in w.responses && Offers(y, tag);
    OffersFor(y, tag);
    ResponsesAre(c, w, y);
    var done := U.OnP2(w.uavs[u], m).next.peers[m.sender];
    CredentialAt(U.OnP2(w.uavs[u], m).next, w.uavs[u], m.sender);
    FinishedIs(w.uavs[u], u, m.sender, x, done, Derive(x.ephemeral.secret, x.epkRemote).value);
    OfferMatches(c.ids, u, m.sender, x, done, y);
  }

  // What the pair's credential gives for the responder's secret and the initiator's messages.
  function PairKey(u: int, p: int, y: U.Exchange, initiator: U.Exchange): Term
    requires AnsweredAs(y, initiator)
  {
    PeerKey(PairCredential(u, p), Derive(y.ephemeral.secret, y.epkRemote).value, initiator.p1 + initiator.p2)
  }

  lemma P2EventIs(c: Config, w: World, u: int, m: Message)
    requires Enabled(c, w, UavP2(u, m))
    ensures u in w.uavs && Deliverable(m, w.sent)
  {}

  lemma HasFields(m: Message)
    requires m.Has({NONCE_2, EPK_B, MAC_TAG})
    ensures m.Has({NONCE_2, EPK_B}) && MAC_TAG in m.fields && NONCE_2 in m.fields && EPK_B in m.fields
  {}

  lemma CredentialAt(next: U.State, x: U.State, p: int)
    requires next.phase2 == x.phase2.(creds := U.WithCredential(x.phase2.creds, p))
    ensures next.phase2.creds[p] == U.WithCredential(x.phase2.creds, p)[p]
  {}

  lemma ConfirmedExchange(u: int, p: int, r: U.Exchange, m: Message)
    requires ExchangeOk(u, p, r) && r.initiator && m.Has({NONCE_2, EPK_B})
    ensures var x := Confirmed(r, m);
            && ExchangeOk(u, p, x) && x.authKey == r.authKey && x.localId == u && x.peerId == p
            && IsP2(x.p2, u, p, x.epkLocal, x.epkRemote) && IsP2Tag(Mac(x.authKey, x.p2))
  {
    hide EncodeId, PairOrEmpty;
  }

  lemma P2TagIs(c: Config, w: World, t: Term)
    requires Inv(c, w) && t in w.sent && IsP2Tag(t)
    ensures exists y :: y in w.responses && Offers(y, t)
  {
    hide GsOk, UavOk, CompletionOk, ConfirmedOk, ResponseOk, AnswerOk, IsRotation, TidsOk;
    assert SentOk(w, t);
  }

  lemma OffersFor(y: U.Exchange, t: Term)
    requires IsP2Tag(t) && Offers(y, t)
    ensures t.key == y.authKey && t.text == y.p2
  {}

  lemma ResponsesAre(c: Config, w: World, y: U.Exchange)
    requires Inv(c, w) && y in w.responses
    ensures ResponseOk(c.ids, y) && forall id :: id in c.ids ==> ValidId(id)
  {
    hide GsOk, UavOk, CompletionOk, ConfirmedOk, ResponseOk, AnswerOk, IsRotation, TidsOk, SentOk;
  }

  lemma OfferMatches(ids: set<int>, u: int, p: int, x: U.Exchange, done: U.Exchange, y: U.Exchange)
    requires ExchangeOk(u, p, x) && IsP2(x.p2, u, p, x.epkLocal, x.epkRemote) && Open(x) && u in ids && p in ids
    requires Derive(x.ephemeral.secret, x.epkRemote).Some?
    requires ResponseOk(ids, y) && y.p2 == x.p2 && y.authKey == x.authKey
    requires forall id :: id in ids ==> ValidId(id)
    requires done.localId == u && done.peerId == p && done.p1 == x.p1 && done.p2 == x.p2 && done.authKey == x.authKey
    requires done.sessionKey.PeerKey? && PairOrEmpty(u, p, done.sessionKey.cred)
    requires done.sessionKey == PeerKey(done.sessionKey.cred, Derive(x.ephemeral.secret, x.epkRemote).value, x.p1 + x.p2)
    ensures AnsweredAs(y, done)
    ensures done.sessionKey == PairKey(u, p, y, done) <==> done.sessionKey.cred != Empty
  {
    hide EncodeId, ValidId;
    EncodeIdUnique(y.peerId, u);
    EncodeIdUnique(y.localId, p);
    DhCommutes(x.epkLocal.scalar, x.epkRemote.scalar);
  }

  // ---------- credentials ----------

  // Over all runs: two UAVs that have an entry for each other have the same one exactly when both still hold the
  // credential, or both have only the empty one.
  lemma SameCredentialIff(c: Config, w0: World, events: seq<Event>, a: int, b: int)
    requires c.Valid() && Initial(c, w0) && Run(c, w0, events).Some?
    requires var w := Run(c, w0, events).value;
             a in w.uavs && b in w.uavs && b in w.uavs[a].phase2.creds && a in w.uavs[b].phase2.creds
    ensures var w := Run(c, w0, events).value;
            && (w.uavs[a].phase2.creds[b] == w.uavs[b].phase2.creds[a] <==> (Holds(w.uavs[a], b) <==> Holds(w.uavs[b], a)))
            && (Holds(w.uavs[a], b) ==> w.uavs[a].phase2.creds[b] == PairCredential(a, b))
  {
    hide Run, Initial, PairCredential, PeersOk, Phase2Ok, TidOk;
    RunInv(c, w0, events);
    var w := Run(c, w0, events).value;
    Parts(c, w, a);
    Parts(c, w, b);
    UavParts(c.ids, a, w.uavs[a]);
    UavParts(c.ids, b, w.uavs[b]);
    PairCredentialUnique(a, b, a, b);
    NotEmpty(a, b);
  }

  lemma NotEmpty(a: int, b: int) ensures PairCredential(a, b) != Empty {}
}
