// A UAV's side of Phases 2 and 3.
module UavProtocol {
  import opened Wrappers
  import opened Symbols
  import RC = ReplayCache

  datatype Phase2 = Phase2(mk: Term, authKey: Term, n1: Term, n2: Term, tidAtRequest: Term, t1: nat,
                           ephemeral: KeyPair, transcript: seq<Input>, sessionKey: Term,
                           established: bool, ephemeralErased: bool, creds: map<int, Term>, tids: map<int, Term>)

  datatype Exchange = Exchange(localId: int, peerId: int, initiator: bool, authKey: Term, nonceLocal: Term,
                               nonceRemote: Term, ephemeral: KeyPair, epkLocal: Term, epkRemote: Term,
                               p1: seq<Input>, p2: seq<Input>, sessionKey: Term, established: bool,
                               ephemeralErased: bool)

  datatype State = State(tid: Term, phase2: Phase2, peers: map<int, Exchange>, recent: seq<Term>)

  datatype Step = Step(next: State, outcome: Outcome)

  datatype Config = Config(id: int, suite: nat, window: nat, capacity: nat)

  const NO_KEYS := KeyPair(None, Empty)

  const NO_SESSION :=
    Phase2(Empty, Empty, Empty, Empty, Empty, 0, NO_KEYS, [], Empty, false, false, map[], map[])

  // ---------- Phase 2 ----------

  function M1Signed(c: Config, u: State, now: nat, n1: nat, scalar: nat): Input {
    InputM1(c.suite, u.tid, Nonce(n1), Stamp(now), Share(scalar))
  }

  function M1(c: Config, u: State, mk: Term, now: nat, n1: nat, scalar: nat): Message {
    Message(M1AuthRequest, c.suite, c.id, -1,
            map[TID := u.tid, NONCE_1 := Nonce(n1), TIMESTAMP := Stamp(now), EPK_A := Share(scalar),
                MAC_TAG := Mac(AuthKey(mk), [M1Signed(c, u, now, n1, scalar)])])
  }

  // Starting Phase 2 with the key regenerated from the response, if any; the old session is dropped whole.
  function OnStart2(c: Config, u: State, provisioned: bool, mk: Option<Term>, now: nat, n1: nat, scalar: nat): Step {
    if !provisioned then Step(u, Aborted(NotAuthenticated))
    else if mk.None? then Step(u, Aborted(FuzzyExtractorFailed))
    else
      var session := NO_SESSION.(mk := mk.value, authKey := AuthKey(mk.value), n1 := Nonce(n1), t1 := now,
                                 tidAtRequest := u.tid, ephemeral := Generate(scalar),
                                 transcript := [M1Signed(c, u, now, n1, scalar)]);
      Step(u.(phase2 := session), Replied(M1(c, u, mk.value, now, n1, scalar)))
  }

  function M2Signed(u: State, m: Message): Input
    requires m.Has({NONCE_2, TIMESTAMP, EPK_B})
  {
    InputM2(m.suite, u.tid, u.phase2.n1, m.fields[NONCE_2], m.fields[TIMESTAMP],
            u.phase2.ephemeral.publicKey, m.fields[EPK_B])
  }

  function M3(c: Config, tid: Term, suite: nat, key: Term, transcript: seq<Input>): Message {
    Message(M3UavConfirm, suite, c.id, -1, map[TID := tid, MAC_TAG := Mac(key, [InputM3(suite, tid)] + transcript)])
  }

  function OnM2(c: Config, u: State, m: Message, now: nat): Step {
    var s := u.phase2;
    if m.kind != M2GsResponse || s.authKey == Empty then Step(u, Aborted(UnexpectedMessage))
    else if !m.Has({NONCE_2, TIMESTAMP, EPK_B, MAC_TAG}) then Step(u, Aborted(MissingField))
    else if Size(m.fields[NONCE_2]) != NONCE_LEN || Size(m.fields[EPK_B]) != X25519_LEN then
      Step(u, Aborted(MalformedField))
    else
      var t2 := DecodeStamp(m.fields[TIMESTAMP]);
      if t2.None? then Step(u, Aborted(MalformedField))
      else if !TimestampFresh(now, t2.value, c.window) then Step(u, Aborted(StaleTimestamp))
      else if m.fields[NONCE_2] in u.recent then Step(u, Aborted(ReplayedNonce))
      else
        var seen := u.(recent := RC.Last(u.recent + [m.fields[NONCE_2]], c.capacity));
        if m.fields[MAC_TAG] != Mac(s.authKey, [M2Signed(u, m)]) then Step(seen, Aborted(MacVerifyFailed)) else
          var answered := s.(n2 := m.fields[NONCE_2], transcript := s.transcript + [M2Signed(u, m)]);
          var shared := Derive(s.ephemeral.secret, m.fields[EPK_B]);
          if shared.None? then Step(seen.(phase2 := answered), Aborted(DhFailed)) else
            var done := answered.(sessionKey := SessionKey(s.mk, shared.value, answered.transcript),
                                  ephemeral := s.ephemeral.Erase(), ephemeralErased := true);
            Step(seen.(phase2 := done), Replied(M3(c, u.tid, m.suite, s.authKey, answered.transcript)))
  }

  function M4Aad(u: State, suite: nat): Input {
    AadM4(suite, u.phase2.tidAtRequest, u.phase2.n1, u.phase2.n2)
  }

  // The package opens if and only if it was sealed under this key, nonce and associated data.
  predicate Opens(u: State, m: Message)
    requires m.Has({CRED_PKG})
  {
    var key := u.phase2.sessionKey;
    var p := m.fields[CRED_PKG];
    p.Sealed? && p.key == AeadKey(key) && p.nonce == AeadNonce(key) && p.aad == M4Aad(u, m.suite)
  }

  function OnM4(u: State, m: Message): Step {
    if m.kind != M4GsConfirm || u.phase2.sessionKey == Empty then Step(u, Aborted(UnexpectedMessage))
    else if !m.Has({AEAD_NONCE, CRED_PKG}) then Step(u, Aborted(MissingField))
    else if !Opens(u, m) then Step(u, Aborted(AeadOpenFailed))
    else
      var p := m.fields[CRED_PKG].package;
      Step(u.(phase2 := u.phase2.(creds := p.creds, tids := p.tids, established := true),
              tid := if p.tidNew != Empty then p.tidNew else u.tid),
           Accepted)
  }

  // ---------- Phase 3 ----------

  function P1Signed(c: Config, peer: int, now: nat, nonce: nat, scalar: nat): Input {
    InputP1(c.suite, EncodeId(c.id), EncodeId(peer), Nonce(nonce), Stamp(now), Share(scalar))
  }

  function P1(c: Config, peer: int, key: Term, now: nat, nonce: nat, scalar: nat): Message {
    Message(P1PeerRequest, c.suite, c.id, peer,
            map[SENDER_ID := EncodeId(c.id), RECEIVER_ID := EncodeId(peer), NONCE_1 := Nonce(nonce),
                TIMESTAMP := Stamp(now), EPK_A := Share(scalar),
                MAC_TAG := Mac(key, [P1Signed(c, peer, now, nonce, scalar)])])
  }

  function Opening(c: Config, peer: int, cred: Term, now: nat, nonce: nat, scalar: nat): Exchange {
    Exchange(c.id, peer, true, PeerAuthKey(cred), Nonce(nonce), Empty, Generate(scalar), Share(scalar), Empty,
             [P1Signed(c, peer, now, nonce, scalar)], [], Empty, false, false)
  }

  function OnStart3(c: Config, u: State, peer: int, now: nat, nonce: nat, scalar: nat): Step {
    if peer !in u.phase2.creds then Step(u, Aborted(NoSuchPeer)) else
      var cred := u.phase2.creds[peer];
      Step(u.(peers := u.peers[peer := Opening(c, peer, cred, now, nonce, scalar)]),
           Replied(P1(c, peer, PeerAuthKey(cred), now, nonce, scalar)))
  }

  const P1_FIELDS: set<FieldId> := {SENDER_ID, RECEIVER_ID, NONCE_1, TIMESTAMP, EPK_A, MAC_TAG}

  function P1Received(m: Message): Input
    requires m.Has(P1_FIELDS)
  {
    InputP1(m.suite, m.fields[SENDER_ID], m.fields[RECEIVER_ID], m.fields[NONCE_1], m.fields[TIMESTAMP], m.fields[EPK_A])
  }

  function P2Answered(c: Config, m: Message, peer: int, nonce: nat, scalar: nat): Input
    requires m.Has(P1_FIELDS)
  {
    InputP2(m.suite, EncodeId(peer), EncodeId(c.id), m.fields[NONCE_1], Nonce(nonce), m.fields[EPK_A], Share(scalar))
  }

  function Answering(c: Config, m: Message, peer: int, cred: Term, nonce: nat, scalar: nat): Exchange
    requires m.Has(P1_FIELDS)
  {
    Exchange(c.id, peer, false, PeerAuthKey(cred), Nonce(nonce), m.fields[NONCE_1], Generate(scalar), Share(scalar),
             m.fields[EPK_A], [P1Received(m)], [P2Answered(c, m, peer, nonce, scalar)], Empty, false, false)
  }

  function P2(c: Config, m: Message, peer: int, key: Term, nonce: nat, scalar: nat): Message
    requires m.Has(P1_FIELDS)
  {
    Message(P2PeerResponse, m.suite, c.id, peer,
            map[NONCE_2 := Nonce(nonce), EPK_B := Share(scalar),
                MAC_TAG := Mac(key, [P2Answered(c, m, peer, nonce, scalar)])])
  }

  function OnP1(c: Config, u: State, m: Message, now: nat, nonce: nat, scalar: nat): Step {
    if m.kind != P1PeerRequest then Step(u, Aborted(UnexpectedMessage))
    else if !m.Has(P1_FIELDS) then Step(u, Aborted(MissingField))
    else
      var peer, t := DecodeId(m.fields[SENDER_ID]), DecodeStamp(m.fields[TIMESTAMP]);
      if peer.None? || t.None? then Step(u, Aborted(MalformedField))
      else if !TimestampFresh(now, t.value, c.window) then Step(u, Aborted(StaleTimestamp))
      else if m.fields[NONCE_1] in u.recent then Step(u, Aborted(ReplayedNonce))
      else
        var seen := u.(recent := RC.Last(u.recent + [m.fields[NONCE_1]], c.capacity));
        if peer.value !in u.phase2.creds then Step(seen, Aborted(NoSuchPeer)) else
          var cred := u.phase2.creds[peer.value];
          if m.fields[MAC_TAG] != Mac(PeerAuthKey(cred), [P1Received(m)]) then Step(seen, Aborted(MacVerifyFailed)) else
            Step(seen.(peers := u.peers[peer.value := Answering(c, m, peer.value, cred, nonce, scalar)]),
                 Replied(P2(c, m, peer.value, PeerAuthKey(cred), nonce, scalar)))
  }

  function P2Received(s: Exchange, suite: nat): Input {
    InputP2(suite, EncodeId(s.localId), EncodeId(s.peerId), s.nonceLocal, s.nonceRemote, s.epkLocal, s.epkRemote)
  }

  function P3(s: Exchange, suite: nat): Message {
    Message(P3PeerComplete, suite, s.localId, s.peerId,
            map[MAC_TAG := Mac(s.authKey, [InputP3(suite)] + s.p1 + s.p2)])
  }

  // Subscripting the ordered map of credentials inserts an empty one for a missing peer.
  function WithCredential(creds: map<int, Term>, peer: int): (r: map<int, Term>)
    ensures peer in r
  {
    if peer in creds then creds else creds[peer := Empty]
  }

  // Deriving the peer key once the exchange has been authenticated.
  function Complete(u: State, s: Exchange, shared: Term): State {
    var creds := WithCredential(u.phase2.creds, s.peerId);
    var done := s.(sessionKey := PeerKey(creds[s.peerId], shared, s.p1 + s.p2),
                   ephemeral := s.ephemeral.Erase(), ephemeralErased := true, established := true);
    u.(phase2 := u.phase2.(creds := creds), peers := u.peers[done.peerId := done])
  }

  lemma CompleteIs(u: State, s: Exchange, shared: Term, done: Exchange, v: State)
    requires v == u.(phase2 := u.phase2.(creds := v.phase2.creds), peers := u.peers[s.peerId := done])
    requires v.phase2.creds == if s.peerId in u.phase2.creds then u.phase2.creds else u.phase2.creds[s.peerId := Empty]
    requires s.peerId in v.phase2.creds
    requires done == s.(sessionKey := PeerKey(v.phase2.creds[s.peerId], shared, s.p1 + s.p2),
                        ephemeral := s.ephemeral.Erase(), ephemeralErased := true, established := true)
    ensures v == Complete(u, s, shared)
  {}

  function OnP2(u: State, m: Message): Step {
    if m.kind != P2PeerResponse then Step(u, Aborted(UnexpectedMessage))
    else if !m.Has({NONCE_2, EPK_B, MAC_TAG}) then Step(u, Aborted(MissingField))
    else if m.sender !in u.peers || !u.peers[m.sender].initiator then Step(u, Aborted(UnexpectedMessage))
    else
      // The remote nonce and share are stored before anything is verified.
      var s := u.peers[m.sender].(nonceRemote := m.fields[NONCE_2], epkRemote := m.fields[EPK_B]);
      var noted := u.(peers := u.peers[m.sender := s]);
      if Size(s.epkRemote) != X25519_LEN then Step(noted, Aborted(MalformedField))
      else if m.fields[MAC_TAG] != Mac(s.authKey, [P2Received(s, m.suite)]) then Step(noted, Aborted(MacVerifyFailed))
      else
        var v := s.(p2 := [P2Received(s, m.suite)]);
        var shared := Derive(s.ephemeral.secret, s.epkRemote);
        if shared.None? then Step(u.(peers := u.peers[m.sender := v]), Aborted(DhFailed)) else
          Step(Complete(u, v, shared.value), Replied(P3(v, m.suite)))
  }

  function OnP3(u: State, m: Message): Step {
    if m.kind != P3PeerComplete then Step(u, Aborted(UnexpectedMessage))
    else if !m.Has({MAC_TAG}) then Step(u, Aborted(MissingField))
    else if m.sender !in u.peers || u.peers[m.sender].initiator then Step(u, Aborted(UnexpectedMessage))
    else
      var s := u.peers[m.sender];
      if m.fields[MAC_TAG] != Mac(s.authKey, [InputP3(m.suite)] + s.p1 + s.p2) then Step(u, Aborted(MacVerifyFailed)) else
        var shared := Derive(s.ephemeral.secret, s.epkRemote);
        if shared.None? then Step(u, Aborted(DhFailed)) else
          Step(Complete(u, s, shared.value), Accepted)
  }

  class UavProtocol {
    const config: Config
    const provisioned: bool
    const replay: RC.ReplayCache<Term>
    var tid: Term
    var phase2: Phase2
    var peers: map<int, Exchange>

    ghost predicate Valid()
      reads this, replay
    {
      && replay.Valid() && replay.capacity == config.capacity
      && forall p :: p in peers ==> peers[p].peerId == p
    }

    ghost function View(): State
      reads this, replay
    {
      State(tid, phase2, peers, replay.order)
    }

    constructor (config: Config, provisioned: bool, tid: Term)
      ensures Valid() && fresh(replay) && this.config == config && this.provisioned == provisioned
      ensures View() == State(tid, NO_SESSION, map[], [])
    {
      this.config, this.provisioned, this.tid := config, provisioned, tid;
      replay := new RC.ReplayCache<Term>(config.capacity);
      phase2 := NO_SESSION;
      peers := map[];
    }

    method StartPhase2(mk: Option<Term>, now: nat, n1: nat, scalar: nat) returns (outcome: Outcome)
      requires Valid()
      modifies this
      ensures Valid()
      ensures Step(View(), outcome) == OnStart2(config, old(View()), provisioned, mk, now, n1, scalar)
    {
      hide RC.ReplayCache.Valid;
      if !provisioned { return Aborted(NotAuthenticated); }
      if mk.None? { return Aborted(FuzzyExtractorFailed); }
      phase2 := NO_SESSION;
      phase2 := phase2.(mk := mk.value, authKey := AuthKey(mk.value));
      phase2 := phase2.(n1 := Nonce(n1), t1 := now, tidAtRequest := tid, ephemeral := Generate(scalar));
      var input1 := InputM1(config.suite, tid, phase2.n1, Stamp(phase2.t1), phase2.ephemeral.publicKey);
      var tag := Mac(phase2.authKey, [input1]);
      phase2 := phase2.(transcript := [input1]);
      outcome := Replied(Message(M1AuthRequest, config.suite, config.id, -1,
                                 map[TID := tid, NONCE_1 := phase2.n1, TIMESTAMP := Stamp(phase2.t1),
                                     EPK_A := phase2.ephemeral.publicKey, MAC_TAG := tag]));
    }

    method HandleM2(m: Message, now: nat) returns (outcome: Outcome)
      requires Valid()
      modifies this, replay
      ensures Valid()
      ensures Step(View(), outcome) == OnM2(config, old(View()), m, now)
    {
      hide RC.ReplayCache.Valid, RC.Last, Size, DecodeStamp, TimestampFresh, Derive;
      if m.kind != M2GsResponse { return Aborted(UnexpectedMessage); }
      if phase2.authKey == Empty { return Aborted(UnexpectedMessage); }
      if !m.Has({NONCE_2, TIMESTAMP, EPK_B, MAC_TAG}) { return Aborted(MissingField); }
      var n2, epkB := m.fields[NONCE_2], m.fields[EPK_B];
      if Size(n2) != NONCE_LEN || Size(epkB) != X25519_LEN { return Aborted(MalformedField); }
      var t2 := DecodeStamp(m.fields[TIMESTAMP]);
      if t2.None? { return Aborted(MalformedField); }
      if !TimestampFresh(now, t2.value, config.window) { return Aborted(StaleTimestamp); }
      var unseen := replay.Offer(n2);
      if !unseen { return Aborted(ReplayedNonce); }
      var input2 := InputM2(m.suite, tid, phase2.n1, n2, m.fields[TIMESTAMP], phase2.ephemeral.publicKey, epkB);
      if m.fields[MAC_TAG] != Mac(phase2.authKey, [input2]) { return Aborted(MacVerifyFailed); }
      phase2 := phase2.(n2 := n2);
      phase2 := phase2.(transcript := phase2.transcript + [input2]);
      var reply := Message(M3UavConfirm, m.suite, config.id, -1,
                           map[TID := tid, MAC_TAG := Mac(phase2.authKey, [InputM3(m.suite, tid)] + phase2.transcript)]);
      var shared := Derive(phase2.ephemeral.secret, epkB);
      if shared.None? { return Aborted(DhFailed); }
      phase2 := phase2.(sessionKey := SessionKey(phase2.mk, shared.value, phase2.transcript));
      phase2 := phase2.(ephemeral := phase2.ephemeral.Erase(), ephemeralErased := true);
      outcome := Replied(reply);
    }

    method HandleM4(m: Message) returns (outcome: Outcome)
      requires Valid()
      modifies this
      ensures Valid()
      ensures Step(View(), outcome) == OnM4(old(View()), m)
    {
      hide RC.ReplayCache.Valid;
      if m.kind != M4GsConfirm { return Aborted(UnexpectedMessage); }
      if phase2.sessionKey == Empty { return Aborted(UnexpectedMessage); }
      if !m.Has({AEAD_NONCE, CRED_PKG}) { return Aborted(MissingField); }
      var aeadKey, aeadNonce := AeadKey(phase2.sessionKey), AeadNonce(phase2.sessionKey);
      var aad := AadM4(m.suite, phase2.tidAtRequest, phase2.n1, phase2.n2);
      var sealed := m.fields[CRED_PKG];
      if !sealed.Sealed? || sealed.key != aeadKey || sealed.nonce != aeadNonce || sealed.aad != aad {
        return Aborted(AeadOpenFailed);
      }
      var package := sealed.package;
      phase2 := phase2.(creds := package.creds);
      phase2 := phase2.(tids := package.tids);
      if package.tidNew != Empty { tid := package.tidNew; }
      phase2 := phase2.(established := true);
      outcome := Accepted;
    }

    method StartPhase3(peer: int, now: nat, nonce: nat, scalar: nat) returns (outcome: Outcome)
      requires Valid()
      modifies this
      ensures Valid()
      ensures Step(View(), outcome) == OnStart3(config, old(View()), peer, now, nonce, scalar)
    {
      hide RC.ReplayCache.Valid, EncodeId;
      if peer !in phase2.creds { return Aborted(NoSuchPeer); }
      var authKey := PeerAuthKey(phase2.creds[peer]);
      var ephemeral := Generate(scalar);
      var input := InputP1(config.suite, EncodeId(config.id), EncodeId(peer), Nonce(nonce), Stamp(now), ephemeral.publicKey);
      var session := Exchange(config.id, peer, true, authKey, Nonce(nonce), Empty, ephemeral, ephemeral.publicKey, Empty,
                              [input], [], Empty, false, false);
      peers := peers[peer := session];
      outcome := Replied(Message(P1PeerRequest, config.suite, config.id, peer,
                                 map[SENDER_ID := EncodeId(config.id), RECEIVER_ID := EncodeId(peer), NONCE_1 := Nonce(nonce),
                                     TIMESTAMP := Stamp(now), EPK_A := ephemeral.publicKey,
                                     MAC_TAG := Mac(authKey, [input])]));
    }

    method HandleP1(m: Message, now: nat, nonce: nat, scalar: nat) returns (outcome: Outcome)
      requires Valid()
      modifies this, replay
      ensures Valid()
      ensures Step(View(), outcome) == OnP1(config, old(View()), m, now, nonce, scalar)
    {
      hide RC.ReplayCache.Valid, RC.Last, DecodeId, DecodeStamp, TimestampFresh, EncodeId;
      if m.kind != P1PeerRequest { return Aborted(UnexpectedMessage); }
      if !m.Has(P1_FIELDS) { return Aborted(MissingField); }
      var peer, t := DecodeId(m.fields[SENDER_ID]), DecodeStamp(m.fields[TIMESTAMP]);
      if peer.None? || t.None? { return Aborted(MalformedField); }
      if !TimestampFresh(now, t.value, config.window) { return Aborted(StaleTimestamp); }
      var nonceRemote := m.fields[NONCE_1];
      var unseen := replay.Offer(nonceRemote);
      if !unseen { return Aborted(ReplayedNonce); }
      if peer.value !in phase2.creds { return Aborted(NoSuchPeer); }
      var authKey := PeerAuthKey(phase2.creds[peer.value]);
      var input1 := InputP1(m.suite, m.fields[SENDER_ID], m.fields[RECEIVER_ID], nonceRemote, m.fields[TIMESTAMP], m.fields[EPK_A]);
      if m.fields[MAC_TAG] != Mac(authKey, [input1]) { return Aborted(MacVerifyFailed); }
      var ephemeral := Generate(scalar);
      var input2 := InputP2(m.suite, EncodeId(peer.value), EncodeId(config.id), nonceRemote, Nonce(nonce),
                            m.fields[EPK_A], ephemeral.publicKey);
      peers := peers[peer.value := Exchange(config.id, peer.value, false, authKey, Nonce(nonce), nonceRemote, ephemeral,
                                            ephemeral.publicKey, m.fields[EPK_A], [input1], [input2], Empty, false, false)];
      outcome := Replied(Message(P2PeerResponse, m.suite, config.id, peer.value,
                                 map[NONCE_2 := Nonce(nonce), EPK_B := ephemeral.publicKey,
                                     MAC_TAG := Mac(authKey, [input2])]));
    }

    method HandleP2(m: Message) returns (outcome: Outcome)
      requires Valid()
      modifies this
      ensures Valid()
      ensures Step(View(), outcome) == OnP2(old(View()), m)
    {
      hide RC.ReplayCache.Valid, Size, EncodeId, Derive;
      if m.kind != P2PeerResponse { return Aborted(UnexpectedMessage); }
      if !m.Has({NONCE_2, EPK_B, MAC_TAG}) { return Aborted(MissingField); }
      if m.sender !in peers || !peers[m.sender].initiator { return Aborted(UnexpectedMessage); }
      var s := peers[m.sender];
      s := s.(nonceRemote := m.fields[NONCE_2], epkRemote := m.fields[EPK_B]);
      peers := peers[m.sender := s];
      if Size(s.epkRemote) != X25519_LEN { return Aborted(MalformedField); }
      var input2 := InputP2(m.suite, EncodeId(s.localId), EncodeId(s.peerId), s.nonceLocal, s.nonceRemote,
                            s.epkLocal, s.epkRemote);
      if m.fields[MAC_TAG] != Mac(s.authKey, [input2]) { return Aborted(MacVerifyFailed); }
      s := s.(p2 := [input2]);
      peers := peers[m.sender := s];
      var reply := Message(P3PeerComplete, m.suite, s.localId, s.peerId,
                           map[MAC_TAG := Mac(s.authKey, [InputP3(m.suite)] + s.p1 + s.p2)]);
      var shared := Derive(s.ephemeral.secret, s.epkRemote);
      if shared.None? { return Aborted(DhFailed); }
      FinishExchange(m.sender, shared.value);
      outcome := Replied(reply);
    }

    // The common tail of handling P2 and P3.
    method FinishExchange(peer: int, shared: Term)
      requires Valid() && peer in peers
      modifies this
      ensures Valid()
      ensures View() == Complete(old(View()), old(peers[peer]), shared)
    {
      hide RC.ReplayCache.Valid, Complete;
      ghost var was := View();
      var s := peers[peer];
      if s.peerId !in phase2.creds {
        phase2 := phase2.(creds := phase2.creds[s.peerId := Empty]);
      }
      s := s.(sessionKey := PeerKey(phase2.creds[s.peerId], shared, s.p1 + s.p2));
      s := s.(ephemeral := s.ephemeral.Erase(), ephemeralErased := true);
      s := s.(established := true);
      peers := peers[peer := s];
      CompleteIs(was, was.peers[peer], shared, s, View());
    }

    method HandleP3(m: Message) returns (outcome: Outcome)
      requires Valid()
      modifies this
      ensures Valid()
      ensures Step(View(), outcome) == OnP3(old(View()), m)
    {
      hide RC.ReplayCache.Valid, Derive;
      if m.kind != P3PeerComplete { return Aborted(UnexpectedMessage); }
      if !m.Has({MAC_TAG}) { return Aborted(MissingField); }
      if m.sender !in peers || peers[m.sender].initiator { return Aborted(UnexpectedMessage); }
      var s := peers[m.sender];
      if m.fields[MAC_TAG] != Mac(s.authKey, [InputP3(m.suite)] + s.p1 + s.p2) { return Aborted(MacVerifyFailed); }
      var shared := Derive(s.ephemeral.secret, s.epkRemote);
      if shared.None? { return Aborted(DhFailed); }
      FinishExchange(m.sender, shared.value);
      outcome := Accepted;
    }
  }
}
