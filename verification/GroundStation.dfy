// The ground station's side of Phase 2.
module GroundStation {
  import opened Wrappers
  import opened Symbols
  import opened OrderedKeys
  import RC = ReplayCache

  datatype Device = Device(tid: Term, pendingTid: Term, mk: Term)

  datatype Session = Session(authKey: Term, n1: Term, n2: Term, t1: nat, t2: nat, epkA: Term, epkB: Term,
                             ephemeral: KeyPair, transcript: seq<Input>, sessionKey: Term,
                             m3Verified: bool, ephemeralErased: bool)

  datatype State = State(devices: map<int, Device>, sessions: map<int, Session>, recent: seq<Term>)

  datatype Step = Step(next: State, outcome: Outcome)

  // The freshness window and the capacity of the replay cache.
  datatype Config = Config(window: nat, capacity: nat)

  // A lost M4 leaves the UAV with the old identity, so the pending one is accepted as well.
  predicate Holds(d: Device, tid: Term) {
    d.tid == tid || (d.pendingTid != Empty && d.pendingTid == tid)
  }

  function FindAmong(ids: seq<int>, devices: map<int, Device>, tid: Term): (r: Option<int>)
    ensures r.Some? ==> r.value in devices && r.value in ids && Holds(devices[r.value], tid)
    ensures r.None? ==> forall id :: id in ids && id in devices ==> !Holds(devices[id], tid)
  {
    if |ids| == 0 then None
    else if ids[0] in devices && Holds(devices[ids[0]], tid) then Some(ids[0])
    else FindAmong(ids[1..], devices, tid)
  }

  // The first device, in id order, that holds the identity.
  function DeviceWith(devices: map<int, Device>, tid: Term): (r: Option<int>)
    ensures r.Some? ==> r.value in devices && Holds(devices[r.value], tid)
    ensures r.None? ==> forall id :: id in devices ==> !Holds(devices[id], tid)
  {
    var r := FindAmong(Ascending(devices.Keys), devices, tid);
    assert r.None? ==> forall id :: id in devices.Keys ==> id in Ascending(devices.Keys);
    r
  }

  lemma {:induction false} FoundFirst(ids: seq<int>, devices: map<int, Device>, tid: Term)
    requires FindAmong(ids, devices, tid).Some? && forall i, j :: 0 <= i < j < |ids| ==> ids[i] < ids[j]
    ensures forall id :: id in ids && id in devices && id < FindAmong(ids, devices, tid).value ==> !Holds(devices[id], tid)
  {
    hide Holds;
    if !(ids[0] in devices && Holds(devices[ids[0]], tid)) { FoundFirst(ids[1..], devices, tid); }
  }

  // No device with a smaller id holds the identity.
  lemma FirstHolder(devices: map<int, Device>, tid: Term)
    requires DeviceWith(devices, tid).Some?
    ensures forall id :: id in devices && id < DeviceWith(devices, tid).value ==> !Holds(devices[id], tid)
  {
    hide Holds, FindAmong;
    FoundFirst(Ascending(devices.Keys), devices, tid);
    assert forall id :: id in devices ==> id in devices.Keys;
  }

  // ---------- M1 ----------

  function M1Signed(m: Message): Input
    requires m.Has({TID, NONCE_1, TIMESTAMP, EPK_A})
  {
    InputM1(m.suite, m.fields[TID], m.fields[NONCE_1], m.fields[TIMESTAMP], m.fields[EPK_A])
  }

  function NewSession(m: Message, mk: Term, t1: nat, now: nat, n2: nat, scalar: nat): Session
    requires m.Has({TID, NONCE_1, TIMESTAMP, EPK_A})
  {
    Session(AuthKey(mk), m.fields[NONCE_1], Nonce(n2), t1, now, m.fields[EPK_A], Share(scalar),
            Generate(scalar), [M1Signed(m), M2Signed(m, now, n2, scalar)], Empty, false, false)
  }

  function M2Signed(m: Message, now: nat, n2: nat, scalar: nat): Input
    requires m.Has({TID, NONCE_1, TIMESTAMP, EPK_A})
  {
    InputM2(m.suite, m.fields[TID], m.fields[NONCE_1], Nonce(n2), Stamp(now), m.fields[EPK_A], Share(scalar))
  }

  function M2(m: Message, id: int, mk: Term, now: nat, n2: nat, scalar: nat): Message
    requires m.Has({TID, NONCE_1, TIMESTAMP, EPK_A})
  {
    Message(M2GsResponse, m.suite, -1, id,
            map[NONCE_2 := Nonce(n2), TIMESTAMP := Stamp(now), EPK_B := Share(scalar),
                MAC_TAG := Mac(AuthKey(mk), [M2Signed(m, now, n2, scalar)])])
  }

  // Handling M1, given the nonce and the scalar drawn if it is accepted.
  function OnM1(c: Config, g: State, m: Message, now: nat, n2: nat, scalar: nat): Step {
    if m.kind != M1AuthRequest then Step(g, Aborted(UnexpectedMessage))
    else if !m.Has({TID, NONCE_1, TIMESTAMP, EPK_A, MAC_TAG}) then Step(g, Aborted(MissingField))
    else if Size(m.fields[EPK_A]) != X25519_LEN || Size(m.fields[NONCE_1]) != NONCE_LEN then
      Step(g, Aborted(MalformedField))
    else
      var t1 := DecodeStamp(m.fields[TIMESTAMP]);
      if t1.None? then Step(g, Aborted(MalformedField))
      else if !TimestampFresh(now, t1.value, c.window) then Step(g, Aborted(StaleTimestamp))
      else if m.fields[NONCE_1] in g.recent then Step(g, Aborted(ReplayedNonce))
      else
        var seen := g.(recent := RC.Last(g.recent + [m.fields[NONCE_1]], c.capacity));
        var id := DeviceWith(g.devices, m.fields[TID]);
        if id.None? then Step(seen, Aborted(UnknownIdentity)) else
          var mk := g.devices[id.value].mk;
          if m.fields[MAC_TAG] != Mac(AuthKey(mk), [M1Signed(m)]) then Step(seen, Aborted(MacVerifyFailed)) else
            Step(seen.(sessions := g.sessions[id.value := NewSession(m, mk, t1.value, now, n2, scalar)]),
                 Replied(M2(m, id.value, mk, now, n2, scalar)))
  }

  // ---------- M3 ----------

  function CredentialsFor(devices: map<int, Device>, id: int): map<int, Term> {
    map peer | peer in devices && peer != id :: PairCredential(id, peer)
  }

  function IdentitiesFor(devices: map<int, Device>, id: int): map<int, Term> {
    map peer | peer in devices && peer != id :: devices[peer].tid
  }

  function Rotated(d: Device, s: Session): Term { NextTid(d.mk, d.tid, s.n1, s.n2) }

  function PackageFor(devices: map<int, Device>, id: int, s: Session): Package
    requires id in devices
  {
    Package(CredentialsFor(devices, id), IdentitiesFor(devices, id), Rotated(devices[id], s))
  }

  function M4(m: Message, id: int, s: Session, key: Term, package: Package): Message
    requires m.Has({TID})
  {
    Message(M4GsConfirm, m.suite, -1, id,
            map[AEAD_NONCE := AeadNonce(key),
                CRED_PKG := Sealed(AeadKey(key), AeadNonce(key), AadM4(m.suite, m.fields[TID], s.n1, s.n2), package)])
  }

  function OnM3(g: State, m: Message): Step {
    if m.kind != M3UavConfirm then Step(g, Aborted(UnexpectedMessage))
    else if !m.Has({TID, MAC_TAG}) then Step(g, Aborted(MissingField))
    else
      var id := DeviceWith(g.devices, m.fields[TID]);
      if id.None? then Step(g, Aborted(UnknownIdentity))
      else if id.value !in g.sessions then Step(g, Aborted(UnexpectedMessage))
      else
        var s := g.sessions[id.value];
        if m.fields[MAC_TAG] != Mac(s.authKey, [InputM3(m.suite, m.fields[TID])] + s.transcript) then
          Step(g, Aborted(MacVerifyFailed))
        else
          var verified := s.(m3Verified := true);
          var shared := Derive(s.ephemeral.secret, s.epkA);
          if shared.None? then
            Step(g.(sessions := g.sessions[id.value := verified]), Aborted(DhFailed))
          else
            var d := g.devices[id.value];
            var key := SessionKey(d.mk, shared.value, s.transcript);
            var done := verified.(sessionKey := key, ephemeral := s.ephemeral.Erase(), ephemeralErased := true);
            Step(g.(devices := g.devices[id.value := d.(pendingTid := Rotated(d, s))],
                    sessions := g.sessions[id.value := done]),
                 Replied(M4(m, id.value, s, key, PackageFor(g.devices, id.value, s))))
  }

  class GroundStationProtocol {
    const config: Config
    const replay: RC.ReplayCache<Term>
    var devices: map<int, Device>
    var sessions: map<int, Session>

    ghost predicate Valid()
      reads this, replay
    {
      replay.Valid() && replay.capacity == config.capacity
    }

    ghost function View(): State
      reads this, replay
    {
      State(devices, sessions, replay.order)
    }

    constructor (window: nat, capacity: nat, devices: map<int, Device>)
      ensures Valid() && fresh(replay) && config == Config(window, capacity)
      ensures View() == State(devices, map[], [])
    {
      config := Config(window, capacity);
      replay := new RC.ReplayCache<Term>(capacity);
      this.devices := devices;
      sessions := map[];
    }

    method FindByTid(tid: Term) returns (r: Option<int>)
      ensures r == DeviceWith(devices, tid)
    {
      var ids := Ascending(devices.Keys);
      for i := 0 to |ids|
        invariant FindAmong(ids[i..], devices, tid) == FindAmong(ids, devices, tid)
      {
        assert ids[i] in ids && ids[i] in devices.Keys;
        assert ids[i..][0] == ids[i] && ids[i..][1..] == ids[i + 1..];
        if Holds(devices[ids[i]], tid) { return Some(ids[i]); }
      }
      return None;
    }

    method HandleM1(m: Message, now: nat, n2: nat, scalar: nat) returns (outcome: Outcome)
      requires Valid()
      modifies this, replay
      ensures Valid()
      ensures Step(View(), outcome) == OnM1(config, old(View()), m, now, n2, scalar)
    {
      hide RC.ReplayCache.Valid, RC.Last, DeviceWith, Size, DecodeStamp, TimestampFresh;
      if m.kind != M1AuthRequest { return Aborted(UnexpectedMessage); }
      if !m.Has({TID, NONCE_1, TIMESTAMP, EPK_A, MAC_TAG}) { return Aborted(MissingField); }
      var n1, epkA := m.fields[NONCE_1], m.fields[EPK_A];
      if Size(epkA) != X25519_LEN || Size(n1) != NONCE_LEN { return Aborted(MalformedField); }
      var t1 := DecodeStamp(m.fields[TIMESTAMP]);
      if t1.None? { return Aborted(MalformedField); }
      if !TimestampFresh(now, t1.value, config.window) { return Aborted(StaleTimestamp); }
      var unseen := replay.Offer(n1);
      if !unseen { return Aborted(ReplayedNonce); }
      var id := FindByTid(m.fields[TID]);
      if id.None? { return Aborted(UnknownIdentity); }
      var mk := devices[id.value].mk;
      var authKey := AuthKey(mk);
      var input1 := InputM1(m.suite, m.fields[TID], n1, m.fields[TIMESTAMP], epkA);
      if m.fields[MAC_TAG] != Mac(authKey, [input1]) { return Aborted(MacVerifyFailed); }
      var ephemeral := Generate(scalar);
      var input2 := InputM2(m.suite, m.fields[TID], n1, Nonce(n2), Stamp(now), epkA, ephemeral.publicKey);
      var reply := Message(M2GsResponse, m.suite, -1, id.value,
                           map[NONCE_2 := Nonce(n2), TIMESTAMP := Stamp(now), EPK_B := ephemeral.publicKey,
                               MAC_TAG := Mac(authKey, [input2])]);
      var session := Session(authKey, n1, Nonce(n2), t1.value, now, epkA, ephemeral.publicKey, ephemeral,
                             [input1] + [input2], Empty, false, false);
      assert session == NewSession(m, mk, t1.value, now, n2, scalar);
      sessions := sessions[id.value := session];
      outcome := Replied(reply);
    }

    method HandleM3(m: Message) returns (outcome: Outcome)
      requires Valid()
      modifies this
      ensures Valid()
      ensures Step(View(), outcome) == OnM3(old(View()), m)
    {
      hide RC.ReplayCache.Valid, DeviceWith, Derive, CredentialsFor, IdentitiesFor;
      if m.kind != M3UavConfirm { return Aborted(UnexpectedMessage); }
      if !m.Has({TID, MAC_TAG}) { return Aborted(MissingField); }
      var tid := m.fields[TID];
      var id := FindByTid(tid);
      if id.None? { return Aborted(UnknownIdentity); }
      if id.value !in sessions { return Aborted(UnexpectedMessage); }
      var s := sessions[id.value];
      if m.fields[MAC_TAG] != Mac(s.authKey, [InputM3(m.suite, tid)] + s.transcript) {
        return Aborted(MacVerifyFailed);
      }
      s := s.(m3Verified := true);
      sessions := sessions[id.value := s];
      var shared := Derive(s.ephemeral.secret, s.epkA);
      if shared.None? { return Aborted(DhFailed); }
      var stored := devices[id.value];
      var key := SessionKey(stored.mk, shared.value, s.transcript);
      s := s.(sessionKey := key);
      s := s.(ephemeral := s.ephemeral.Erase(), ephemeralErased := true);
      sessions := sessions[id.value := s];
      var creds := CredentialsFor(devices, id.value);
      var tids := IdentitiesFor(devices, id.value);
      var tidNew := NextTid(stored.mk, stored.tid, s.n1, s.n2);
      devices := devices[id.value := stored.(pendingTid := tidNew)];
      var aad := AadM4(m.suite, tid, s.n1, s.n2);
      var sealed := Sealed(AeadKey(key), AeadNonce(key), aad, Package(creds, tids, tidNew));
      outcome := Replied(Message(M4GsConfirm, m.suite, -1, id.value,
                                 map[AEAD_NONCE := AeadNonce(key), CRED_PKG := sealed]));
    }
  }
}
