// What every event keeps, and so what holds throughout every run.
module Invariants {
  import opened Wrappers
  import opened Symbols
  import GS = GroundStation
  import U = UavProtocol
  import opened Network

  // ---------- the ground station ----------

  predicate IsRotation(id: int, t: Term) {
    t.NextTid? && t.mk == Master(id) && t.tid == FirstTid(Master(id), id)
  }

  predicate DeviceOk(id: int, d: GS.Device) {
    && d.mk == Master(id)
    && d.tid == FirstTid(Master(id), id)
    && (d.pendingTid == Empty || IsRotation(id, d.pendingTid))
  }

  // A secret goes with the public key, and is erased exactly when the key has been derived.
  predicate KeysOk(k: KeyPair, key: Term) {
    && k.publicKey.Share?
    && (k.secret.Some? ==> k.publicKey == Share(k.secret.value))
    && (k.secret.Some? <==> key == Empty)
  }

  predicate TranscriptOk(t: seq<Input>, n1: Term, n2: Term) {
    && |t| == 2 && t[0].InputM1? && t[1].InputM2?
    && t[0].n1 == n1 == t[1].n1 && t[1].n2 == n2 && t[0].tid == t[1].tid && t[0].epkA == t[1].epkA
  }

  predicate SessionOk(id: int, s: GS.Session) {
    && s.authKey == AuthKey(Master(id))
    && TranscriptOk(s.transcript, s.n1, s.n2)
    && s.transcript[0].epkA == s.epkA && s.transcript[1].epkB == s.epkB == s.ephemeral.publicKey
    && KeysOk(s.ephemeral, s.sessionKey)
  }

  predicate GsOk(ids: set<int>, g: GS.State) {
    && g.devices.Keys == ids
    && (forall id :: id in ids ==> DeviceOk(id, g.devices[id]))
    && (forall id :: id in g.sessions ==> id in ids && SessionOk(id, g.sessions[id]))
  }

  // ---------- a UAV ----------

  predicate TidOk(u: int, t: Term) { t == FirstTid(Master(u), u) || IsRotation(u, t) }

  predicate OwnKey(u: int, mk: Term) { mk == Master(u) || mk.Garbled? }

  // Before the key is derived the transcript is M1 alone; the key is bound to M1 and the M2 that followed it.
  predicate Phase2Ok(u: int, s: U.Phase2) {
    if s.authKey == Empty then s.sessionKey == Empty else
      && OwnKey(u, s.mk) && s.authKey == AuthKey(s.mk)
      && KeysOk(s.ephemeral, s.sessionKey)
      && |s.transcript| > 0 && s.transcript[0].InputM1?
      && s.transcript[0].tid == s.tidAtRequest && s.transcript[0].n1 == s.n1
      && s.transcript[0].epkA == s.ephemeral.publicKey
      && (s.sessionKey == Empty ==> |s.transcript| == 1)
      && (s.sessionKey != Empty ==>
            && |s.transcript| > 1 && s.sessionKey.SessionKey?
            && s.sessionKey.mk == s.mk && s.sessionKey.transcript == s.transcript[..2])
  }

  // A credential is the pair's, or the empty one that subscripting a missing entry leaves behind.
  predicate PairOrEmpty(u: int, p: int, cred: Term) { cred == PairCredential(u, p) || cred == Empty }

  predicate CredsOk(ids: set<int>, u: int, creds: map<int, Term>) {
    forall p :: p in creds ==> p in ids && p != u && PairOrEmpty(u, p, creds[p])
  }

  predicate IsP1(t: seq<Input>, sender: int, epkA: Term) {
    |t| == 1 && t[0].InputP1? && t[0].sender == EncodeId(sender) && t[0].epkA == epkA
  }

  predicate IsP2(t: seq<Input>, sender: int, receiver: int, epkA: Term, epkB: Term) {
    && |t| == 1 && t[0].InputP2? && t[0].sender == EncodeId(sender) && t[0].receiver == EncodeId(receiver)
    && t[0].epkA == epkA && t[0].epkB == epkB
  }

  predicate ExchangeOk(u: int, p: int, x: U.Exchange) {
    && x.localId == u && x.peerId == p
    && x.authKey.PeerAuthKey? && PairOrEmpty(u, p, x.authKey.cred)
    && x.epkLocal == x.ephemeral.publicKey && KeysOk(x.ephemeral, x.sessionKey)
    && (x.established <==> !Open(x))
    && (x.initiator ==> IsP1(x.p1, u, x.epkLocal))
    && (!x.initiator ==> IsP1(x.p1, p, x.epkRemote) && IsP2(x.p2, p, u, x.epkRemote, x.epkLocal))
  }

  predicate PeersOk(ids: set<int>, u: int, x: U.State) {
    forall p :: p in x.peers ==> p in ids && p != u && ExchangeOk(u, p, x.peers[p])
  }

  predicate UavOk(ids: set<int>, u: int, x: U.State) {
    TidOk(u, x.tid) && Phase2Ok(u, x.phase2) && CredsOk(ids, u, x.phase2.creds) && PeersOk(ids, u, x)
  }

  // ---------- what has been sent ----------

  // The key both ends derive from their scalars.
  predicate KeyOf(key: Term, cred: Term, a: Term, b: Term, transcript: seq<Input>) {
    && a.Share?
    && var shared := Derive(Some(a.scalar), b);
       shared.Some? && key == PeerKey(cred, shared.value, transcript)
  }

  predicate CompletionOk(ids: set<int>, x: U.Exchange) {
    && x.localId in ids && x.peerId in ids && x.localId != x.peerId
    && x.authKey.PeerAuthKey? && PairOrEmpty(x.localId, x.peerId, x.authKey.cred)
    && x.initiator && x.established
    && IsP1(x.p1, x.localId, x.epkLocal)
    && IsP2(x.p2, x.localId, x.peerId, x.epkLocal, x.epkRemote)
    && x.sessionKey.PeerKey? && PairOrEmpty(x.localId, x.peerId, x.sessionKey.cred)
    && KeyOf(x.sessionKey, x.sessionKey.cred, x.epkLocal, x.epkRemote, x.p1 + x.p2)
  }

  // An exchange as its responder stored it when it sent P2.
  predicate ResponseOk(ids: set<int>, y: U.Exchange) {
    && y.localId in ids && y.peerId in ids && y.localId != y.peerId
    && ExchangeOk(y.localId, y.peerId, y) && !y.initiator && Open(y)
  }

  predicate FullPackage(ids: set<int>, u: int, p: Package) {
    && p.creds.Keys == ids - {u} && (forall q :: q in p.creds ==> p.creds[q] == PairCredential(u, q))
    && p.tids.Keys == ids - {u} && (forall q :: q in p.tids ==> p.tids[q] == FirstTid(Master(q), q))
    && IsRotation(u, p.tidNew)
  }

  predicate AnswerOk(ids: set<int>, a: Answer) {
    && a.uav in ids && SessionOk(a.uav, a.session) && a.sealed.Sealed? && a.sealed.aad.AadM4?
    && a.session.sessionKey.SessionKey? && a.session.sessionKey.mk == Master(a.uav)
    && a.session.sessionKey.transcript == a.session.transcript
    && a.sealed.key == AeadKey(a.session.sessionKey) && a.sealed.nonce == AeadNonce(a.session.sessionKey)
    && a.sealed.aad.n1 == a.session.n1 && a.sealed.aad.n2 == a.session.n2
    && FullPackage(ids, a.uav, a.sealed.package)
  }

  // A session whose key the UAV derived when it sent M3, from its own scalar and the ground station's share.
  predicate ConfirmedOk(s: U.Phase2) {
    && s.authKey == AuthKey(s.mk)
    && |s.transcript| == 2 && s.transcript[0].InputM1? && s.transcript[1].InputM2?
    && s.transcript[0].epkA.Share? && s.transcript[1].epkB.Share?
    && var shared := Derive(Some(s.transcript[0].epkA.scalar), s.transcript[1].epkB);
       shared.Some? && s.sessionKey == SessionKey(s.mk, shared.value, s.transcript)
  }

  predicate IsM3Tag(t: Term) { t.Mac? && |t.text| == 3 && t.text[0].InputM3? }

  predicate Confirms(s: U.Phase2, t: Term)
    requires IsM3Tag(t)
  {
    t.key == s.authKey && t.text[1..] == s.transcript
  }

  // Ground-station shares only; an M3 tag stands for a confirmed session, a P2 tag for an answered exchange, a P3 tag
  // for a completed one, and a package for an answer.
  predicate M2TagOk(t: Term) {
    t.Mac? && t.key.AuthKey? && |t.text| == 1 && t.text[0].InputM2? ==> t.text[0].epkB.Share?
  }

  predicate IsP2Tag(t: Term) { t.Mac? && |t.text| == 1 && t.text[0].InputP2? }

  predicate Offers(y: U.Exchange, t: Term)
    requires IsP2Tag(t)
  {
    t.key == y.authKey && t.text == y.p2
  }

  predicate IsP3Tag(t: Term) { t.Mac? && |t.text| == 3 && t.text[0].InputP3? }

  predicate Vouches(x: U.Exchange, t: Term)
    requires IsP3Tag(t)
  {
    t.key == x.authKey && t.text[1..] == x.p1 + x.p2
  }

  ghost predicate SentOk(w: World, t: Term) {
    && M2TagOk(t)
    && (IsM3Tag(t) ==> exists s :: s in w.confirmed && Confirms(s, t))
    && (IsP2Tag(t) ==> exists y :: y in w.responses && Offers(y, t))
    && (IsP3Tag(t) ==> exists x :: x in w.completions && Vouches(x, t))
    && (t.Sealed? ==> exists i :: 0 <= i < |w.answers| && w.answers[i].sealed == t)
  }

  // The last package sealed for a UAV, and the last identity it took over.
  function LastSealed(answers: seq<Answer>, u: int): Option<Term> {
    if |answers| == 0 then None
    else if answers[|answers| - 1].uav == u then Some(answers[|answers| - 1].sealed)
    else LastSealed(answers[..|answers| - 1], u)
  }

  function LastRotation(rotations: seq<Rotation>, u: int): Option<Term> {
    if |rotations| == 0 then None
    else if rotations[|rotations| - 1].uav == u then Some(rotations[|rotations| - 1].tid)
    else LastRotation(rotations[..|rotations| - 1], u)
  }

  predicate TidsOk(w: World, u: int)
    requires u in w.gs.devices && u in w.uavs
  {
    var sealed, rotated := LastSealed(w.answers, u), LastRotation(w.rotations, u);
    && w.gs.devices[u].pendingTid == (if sealed.Some? && sealed.value.Sealed? then sealed.value.package.tidNew else Empty)
    && w.uavs[u].tid == (if rotated.Some? then rotated.value else FirstTid(Master(u), u))
  }

  ghost predicate Inv(c: Config, w: World) {
    && c.Valid() && w.uavs.Keys == c.ids
    && GsOk(c.ids, w.gs)
    && (forall u :: u in c.ids ==> UavOk(c.ids, u, w.uavs[u]))
    && (forall u :: u in c.ids ==> TidsOk(w, u))
    && (forall t :: t in w.sent ==> SentOk(w, t))
    && (forall s :: s in w.confirmed ==> ConfirmedOk(s))
    && (forall y :: y in w.responses ==> ResponseOk(c.ids, y))
    && (forall x :: x in w.completions ==> CompletionOk(c.ids, x))
    && (forall i :: 0 <= i < |w.answers| ==> AnswerOk(c.ids, w.answers[i]))
    && (forall i :: 0 <= i < |w.rotations| ==> IsRotation(w.rotations[i].uav, w.rotations[i].tid))
  }
}
