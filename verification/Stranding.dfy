// In every deployment some run strands a UAV: a completed session, then a session whose M4 is lost.
module Stranding {
  import opened Wrappers
  import opened Symbols
  import GS = GroundStation
  import U = UavProtocol
  import opened Network
  import opened Invariants
  import opened Preservation
  import opened Runs
  import opened Agreement
  import opened HonestRun

  lemma {:induction false} RunConcat(c: Config, w: World, a: seq<Event>, b: seq<Event>)
    requires Run(c, w, a).Some? && Run(c, Run(c, w, a).value, b).Some?
    ensures Run(c, w, a + b) == Run(c, Run(c, w, a).value, b)
    decreases |b|
  {
    hide Next, Enabled;
    if |b| == 0 {
      assert a + b == a;
    } else {
      RunConcat(c, w, a, b[..|b| - 1]);
      assert (a + b)[..|a + b| - 1] == a + b[..|b| - 1];
    }
  }

  lemma {:induction false} CarefulConcat(c: Config, w: World, a: seq<Event>, b: seq<Event>)
    requires Run(c, w, a).Some? && Run(c, Run(c, w, a).value, b).Some?
    requires Careful(c, w, a) && Careful(c, Run(c, w, a).value, b)
    ensures Careful(c, w, a + b)
    decreases |b|
  {
    hide Next, Enabled, NoOpenExchange;
    if |b| == 0 {
      assert a + b == a;
    } else {
      CarefulConcat(c, w, a, b[..|b| - 1]);
      RunConcat(c, w, a, b[..|b| - 1]);
      assert (a + b)[..|a + b| - 1] == a + b[..|b| - 1];
    }
  }

  // One more event that is no start of Phase 2.
  lemma CarefulExtends(c: Config, w: World, events: seq<Event>, e: Event)
    requires Careful(c, w, events) && !e.Start2?
    ensures Careful(c, w, events + [e])
  {
    hide Run;
    assert (events + [e])[..|events|] == events;
  }

  lemma {:induction false} FreshConcat(c: Config, w: World, a: seq<Event>, b: seq<Event>)
    requires Run(c, w, a).Some? && Run(c, Run(c, w, a).value, b).Some?
    requires Fresh(c, w, a) && Fresh(c, Run(c, w, a).value, b)
    ensures Fresh(c, w, a + b)
    decreases |b|
  {
    hide Next, Enabled, DrawsFresh;
    if |b| == 0 {
      assert a + b == a;
    } else {
      FreshConcat(c, w, a, b[..|b| - 1]);
      RunConcat(c, w, a, b[..|b| - 1]);
      assert (a + b)[..|a + b| - 1] == a + b[..|b| - 1];
    }
  }

  // One more event that draws no nonce for Phase 2.
  lemma FreshExtends(c: Config, w: World, events: seq<Event>, e: Event)
    requires Fresh(c, w, events) && !e.Start2? && !e.GsM1?
    ensures Fresh(c, w, events + [e])
  {
    hide Run;
    assert (events + [e])[..|events|] == events;
  }

  // A reply that has just been sent can be delivered.
  lemma ReplyDeliverable(m: Message, sent: set<Term>)
    requires Fields(Replied(m)) <= sent
    ensures Deliverable(m, sent)
  {
    forall f | f in m.fields ensures m.fields[f] in sent { assert m.fields[f] in m.fields.Values; }
  }

  // What a session needs to start.
  predicate Ready(c: Config, w: World, id: int, n1: nat, n2: nat) {
    && id in w.uavs && id in w.gs.devices && w.gs.devices[id].mk == Master(id)
    && GS.DeviceWith(w.gs.devices, w.uavs[id].tid) == Some(id)
    && Nonce(n1) !in w.gs.recent && Nonce(n2) !in w.uavs[id].recent
    && w.uavs[id].peers == map[]
    && n1 != n2 && Nonce(n1) !in w.sent && Nonce(n2) !in w.sent && !w.uavs[id].tid.Nonce?
  }

  // Nothing but these nonces is new.
  ghost predicate OnlyNonces(sent: set<Term>, before: set<Term>, n1: nat, n2: nat) {
    forall n :: Nonce(n) in sent ==> Nonce(n) in before || n == n1 || n == n2
  }

  lemma M1Nonces(c: U.Config, u: U.State, mk: Term, now: nat, n1: nat, x: nat)
    requires !u.tid.Nonce?
    ensures forall n :: Nonce(n) in Fields(U.OnStart2(c, u, true, Some(mk), now, n1, x).outcome) ==> n == n1
  {}

  lemma M2Nonces(c: GS.Config, g: GS.State, m: Message, now: nat, n2: nat, y: nat)
    ensures forall n :: Nonce(n) in Fields(GS.OnM1(c, g, m, now, n2, y).outcome) ==> n == n2
  {
    hide GS.OnM1, GS.NewSession, GS.M2Signed;
    OnM1Effect(c, g, m, now, n2, y);
  }

  lemma M3Nonces(c: U.Config, u: U.State, m: Message, now: nat)
    requires !u.tid.Nonce?
    ensures forall n :: Nonce(n) !in Fields(U.OnM2(c, u, m, now).outcome)
  {
    hide U.OnM2, U.M2Signed, Derive;
    OnM2Effect(c, u, m, now);
  }

  lemma M4Nonces(g: GS.State, m: Message)
    ensures forall n :: Nonce(n) !in Fields(GS.OnM3(g, m).outcome)
  {
    hide GS.OnM3, Answered, Derive, GS.PackageFor;
    OnM3Effect(g, m);
  }

  // What a step does to the parties; its reply becomes known.
  predicate UavMoved(w: World, v: World, u: int, s: U.Step) {
    v.gs == w.gs && v.uavs == w.uavs[u := s.next] && v.sent == w.sent + Fields(s.outcome)
  }

  predicate GsMoved(w: World, v: World, s: GS.Step) {
    v.gs == s.next && v.uavs == w.uavs && v.sent == w.sent + Fields(s.outcome)
  }

  lemma Start2Moves(c: Config, w: World, u: int, mk: Option<Term>, now: nat, nonce: nat, scalar: nat)
    requires Enabled(c, w, Start2(u, mk, now, nonce, scalar))
    ensures UavMoved(w, Next(c, w, Start2(u, mk, now, nonce, scalar)), u,
                     U.OnStart2(c.Uav(u), w.uavs[u], true, mk, now, nonce, scalar))
  {
    hide U.OnStart2, Fields;
  }

  lemma M1Moves(c: Config, w: World, m: Message, now: nat, nonce: nat, scalar: nat)
    requires Enabled(c, w, GsM1(m, now, nonce, scalar))
    ensures GsMoved(w, Next(c, w, GsM1(m, now, nonce, scalar)), GS.OnM1(c.Gs(), w.gs, m, now, nonce, scalar))
  {
    hide GS.OnM1, Fields;
  }

  lemma M2Moves(c: Config, w: World, u: int, m: Message, now: nat)
    requires Enabled(c, w, UavM2(u, m, now))
    ensures UavMoved(w, Next(c, w, UavM2(u, m, now)), u, U.OnM2(c.Uav(u), w.uavs[u], m, now))
  {
    hide U.OnM2, Fields;
  }

  lemma M3Moves(c: Config, w: World, m: Message)
    requires Enabled(c, w, GsM3(m))
    ensures GsMoved(w, Next(c, w, GsM3(m)), GS.OnM3(w.gs, m))
  {
    hide GS.OnM3, Fields, Answers;
  }

  lemma M4Moves(c: Config, w: World, u: int, m: Message)
    requires Enabled(c, w, UavM4(u, m))
    ensures UavMoved(w, Next(c, w, UavM4(u, m)), u, U.OnM4(w.uavs[u], m))
  {
    hide U.OnM4, Fields;
  }

  // A session up to the point where the ground station has sent M4.
  lemma UpToM4(c: Config, w: World, id: int, now: nat, n1: nat, x: nat, n2: nat, y: nat)
    returns (events: seq<Event>, v: World, m4: Message)
    requires Ready(c, w, id, n1, n2)
    ensures Run(c, w, events) == Some(v) && Enabled(c, v, UavM4(id, m4)) && Careful(c, w, events) && Fresh(c, w, events)
    ensures var d := w.gs.devices[id];
            v.gs.devices == w.gs.devices[id := d.(pendingTid := NextTid(d.mk, d.tid, Nonce(n1), Nonce(n2)))]
    ensures v.gs.recent == GS.RC.Last(w.gs.recent + [Nonce(n1)], c.capacity)
    ensures v.uavs.Keys == w.uavs.Keys && v.uavs[id].tid == w.uavs[id].tid
    ensures var z := Next(c, v, UavM4(id, m4));
            && z.gs == v.gs && z.uavs.Keys == w.uavs.Keys
            && z.uavs[id].tid == v.gs.devices[id].pendingTid && z.uavs[id].peers == map[]
            && z.uavs[id].recent == GS.RC.Last(w.uavs[id].recent + [Nonce(n2)], c.capacity)
            && z.uavs[id].phase2.established && z.uavs[id].phase2.creds == GS.CredentialsFor(w.gs.devices, id)
            && OnlyNonces(z.sent, w.sent, n1, n2)
            && forall k :: k in w.uavs && k != id ==> v.uavs[k] == z.uavs[k] == w.uavs[k]
    ensures U.OnM4(v.uavs[id], m4).outcome == Accepted
  {
    hide GS.DeviceWith, U.OnStart2, GS.OnM1, U.OnM2, GS.OnM3, U.OnM4, Deliverable, GS.RC.Last, Fields,
      GS.CredentialsFor, Careful, Fresh, Run, Next;
    var u := w.uavs[id];
    Phase2Completes(c, w.gs, id, u, now, n1, x, n2, y);
    var e1 := Start2(id, Some(Master(id)), now, n1, x);
    var w1 := Next(c, w, e1);
    Start2Moves(c, w, id, Some(Master(id)), now, n1, x);
    var m1 := U.OnStart2(c.Uav(id), u, true, Some(Master(id)), now, n1, x).outcome.reply;
    ReplyDeliverable(m1, w1.sent);
    var e2 := GsM1(m1, now, n2, y);
    var w2 := Next(c, w1, e2);
    M1Moves(c, w1, m1, now, n2, y);
    var m2 := GS.OnM1(c.Gs(), w.gs, m1, now, n2, y).outcome.reply;
    ReplyDeliverable(m2, w2.sent);
    var e3 := UavM2(id, m2, now);
    var w3 := Next(c, w2, e3);
    M2Moves(c, w2, id, m2, now);
    var m3 := U.OnM2(c.Uav(id), w2.uavs[id], m2, now).outcome.reply;
    ReplyDeliverable(m3, w3.sent);
    v := Next(c, w3, GsM3(m3));
    M3Moves(c, w3, m3);
    m4 := GS.OnM3(w3.gs, m3).outcome.reply;
    ReplyDeliverable(m4, v.sent);
    M4Moves(c, v, id, m4);
    events := [e1, e2, e3, GsM3(m3)];
    FourSteps(c, w, e1, w1, e2, w2, e3, w3, GsM3(m3), v);
    StartsCareful(c, w, e1, e2, e3, GsM3(m3));
    M1Nonces(c.Uav(id), u, Master(id), now, n1, x);
    M2Nonces(c.Gs(), w.gs, m1, now, n2, y);
    StartAnswers(c, id, u, now, n1, x);
    M3Nonces(c.Uav(id), w2.uavs[id], m2, now);
    M4Nonces(w3.gs, m3);
    NoFields(U.OnM4(v.uavs[id], m4).outcome);
    StartsFresh(c, w, e1, e2, e3, GsM3(m3));
  }

  lemma NoFields(o: Outcome) ensures !o.Replied? ==> Fields(o) == {} {}

  function After(id: int, n1: nat, n2: nat): Term { NextTid(Master(id), FirstTid(Master(id), id), Nonce(n1), Nonce(n2)) }

  // From enrolment, one session can complete.
  lemma OneSession(c: Config, w0: World, id: int) returns (events: seq<Event>, z: World)
    requires c.Valid() && Initial(c, w0) && id in c.ids
    ensures Run(c, w0, events) == Some(z) && Fresh(c, w0, events)
    ensures Enrolled(c, z, id) && Ready(c, z, id, 5, 7) && z.uavs[id].tid == After(id, 1, 3)
  {
    hide Run, GS.DeviceWith, Next, Enabled, GS.RC.Last, Ready, U.OnM4, Careful, Fresh, GS.CredentialsFor;
    InitiallyReady(c, w0, id);
    var first, v, m4 := UpToM4(c, w0, id, 0, 1, 2, 3, 4);
    z := Next(c, v, UavM4(id, m4));
    events := first + [UavM4(id, m4)];
    RunExtends(c, w0, first, UavM4(id, m4));
    FreshExtends(c, w0, first, UavM4(id, m4));
    ReadyAgain(c, w0, z, id);
  }

  predicate Strands(c: Config, w0: World, events: seq<Event>, id: int) {
    var r := Run(c, w0, events);
    r.Some? && Fresh(c, w0, events) && id in r.value.uavs && GS.DeviceWith(r.value.gs.devices, r.value.uavs[id].tid) == None
  }

  // One completed session and one lost M4, from enrolment and with fresh nonces, leave the UAV with an identity nobody recognises.
  lemma StrandedRunExists(c: Config, w0: World, id: int)
    requires c.Valid() && Initial(c, w0) && id in c.ids
    ensures exists events :: Strands(c, w0, events, id)
  {
    hide Run, GS.DeviceWith, Next, Enabled, GS.RC.Last, Ready, U.OnM4, Careful, Fresh, GS.CredentialsFor, Initial;
    var first, z := OneSession(c, w0, id);
    var second, y, lost := UpToM4(c, z, id, 0, 5, 6, 7, 8);
    RunConcat(c, w0, first, second);
    FreshConcat(c, w0, first, second);
    assert Enrolled(c, y, id);
    NotHeld(c, y, id);
    assert Strands(c, w0, first + second, id);
  }

  lemma ReadyAgain(c: Config, w0: World, z: World, id: int)
    requires w0.gs.recent == [] && id in w0.uavs && w0.uavs[id].recent == [] && w0.sent == {}
    requires OnlyNonces(z.sent, w0.sent, 1, 3)
    requires Enrolled(c, z, id) && z.gs.devices[id].pendingTid == After(id, 1, 3)
    requires z.uavs[id].tid == z.gs.devices[id].pendingTid && z.uavs[id].peers == map[]
    requires z.gs.recent == GS.RC.Last(w0.gs.recent + [Nonce(1)], c.capacity)
    requires z.uavs[id].recent == GS.RC.Last(w0.uavs[id].recent + [Nonce(3)], c.capacity)
    ensures Ready(c, z, id, 5, 7)
  {
    hide GS.DeviceWith, GS.RC.Last;
    LastOfOne(Nonce(1), c.capacity);
    LastOfOne(Nonce(3), c.capacity);
    assert w0.gs.recent + [Nonce(1)] == [Nonce(1)] && w0.uavs[id].recent + [Nonce(3)] == [Nonce(3)];
    FoundBy(c, z, id);
  }

  lemma LastOfOne(t: Term, n: nat)
    ensures forall x :: x in GS.RC.Last([t], n) ==> x == t
  {}

  lemma InitiallyReady(c: Config, w: World, id: int)
    requires c.Valid() && Initial(c, w) && id in c.ids
    ensures Ready(c, w, id, 1, 3)
  {
    hide GS.DeviceWith;
    assert id in w.uavs.Keys && id in w.gs.devices.Keys;
    assert w.uavs[id].peers == map[] && w.uavs[id].recent == [] && w.gs.recent == [];
    FoundBy(c, w, id);
  }

  // After enrolment, and after rotating one device, an identity of that device finds it.
  predicate Enrolled(c: Config, w: World, id: int) {
    && id in c.ids && w.gs.devices.Keys == c.ids && id in w.uavs
    && forall v :: v in c.ids ==>
         && w.gs.devices[v].mk == Master(v) && w.gs.devices[v].tid == FirstTid(Master(v), v)
         && (v != id ==> w.gs.devices[v].pendingTid == Empty)
  }

  lemma FoundBy(c: Config, w: World, id: int)
    requires Enrolled(c, w, id) && TidOk(id, w.uavs[id].tid) && GS.Holds(w.gs.devices[id], w.uavs[id].tid)
    ensures GS.DeviceWith(w.gs.devices, w.uavs[id].tid) == Some(id)
  {
    hide GS.DeviceWith;
    var found := GS.DeviceWith(w.gs.devices, w.uavs[id].tid);
    assert id in w.gs.devices.Keys;
    assert found.Some?;
    assert found.value in w.gs.devices.Keys;
    assert found.value in c.ids;
    assert w.gs.devices[found.value].tid == FirstTid(Master(found.value), found.value);
    assert found.value == id;
  }

  lemma NotHeld(c: Config, y: World, id: int)
    requires Enrolled(c, y, id)
    requires y.gs.devices[id].pendingTid == After(id, 5, 7)
    requires y.uavs[id].tid == After(id, 1, 3)
    ensures GS.DeviceWith(y.gs.devices, y.uavs[id].tid) == None
  {
    hide GS.DeviceWith;
    var found := GS.DeviceWith(y.gs.devices, y.uavs[id].tid);
    assert forall v :: v in y.gs.devices ==> !GS.Holds(y.gs.devices[v], y.uavs[id].tid);
  }

  lemma StartsCareful(c: Config, w: World, e1: Event, e2: Event, e3: Event, e4: Event)
    requires e1.Start2? ==> e1.u in w.uavs && NoOpenExchange(w.uavs[e1.u])
    requires !e2.Start2? && !e3.Start2? && !e4.Start2?
    ensures Careful(c, w, [e1, e2, e3, e4])
  {
    hide Next, Enabled, NoOpenExchange;
    assert [e1][..0] == [] && Careful(c, w, []);
    assert Run(c, w, []) == Some(w);
    assert Careful(c, w, [e1]);
    CarefulExtends(c, w, [e1], e2);
    CarefulExtends(c, w, [e1] + [e2], e3);
    CarefulExtends(c, w, [e1] + [e2] + [e3], e4);
    assert [e1, e2, e3, e4] == [e1] + [e2] + [e3] + [e4];
  }

  lemma StartsFresh(c: Config, w: World, e1: Event, e2: Event, e3: Event, e4: Event)
    requires Enabled(c, w, e1) && DrawsFresh(c, w, e1) && DrawsFresh(c, Next(c, w, e1), e2)
    requires !e3.Start2? && !e3.GsM1? && !e4.Start2? && !e4.GsM1?
    ensures Fresh(c, w, [e1, e2, e3, e4])
  {
    hide Next, Enabled, DrawsFresh;
    assert [e1][..0] == [] && Fresh(c, w, []);
    assert Run(c, w, []) == Some(w);
    assert Run(c, w, [e1]) == Some(Next(c, w, e1)) && Fresh(c, w, [e1]);
    assert [e1, e2][..1] == [e1] && Fresh(c, w, [e1, e2]);
    FreshExtends(c, w, [e1, e2], e3);
    FreshExtends(c, w, [e1, e2] + [e3], e4);
    assert [e1, e2, e3, e4] == [e1, e2] + [e3] + [e4];
  }

  lemma FourSteps(c: Config, w: World, e1: Event, w1: World, e2: Event, w2: World, e3: Event, w3: World, e4: Event, w4: World)
    requires Enabled(c, w, e1) && w1 == Next(c, w, e1) && Enabled(c, w1, e2) && w2 == Next(c, w1, e2)
    requires Enabled(c, w2, e3) && w3 == Next(c, w2, e3) && Enabled(c, w3, e4) && w4 == Next(c, w3, e4)
    ensures Run(c, w, [e1, e2, e3, e4]) == Some(w4)
  {
    hide Next, Enabled;
    assert Run(c, w, []) == Some(w);
    assert [e1][..0] == [] && Run(c, w, [e1]) == Some(w1);
    assert [e1, e2][..1] == [e1] && Run(c, w, [e1, e2]) == Some(w2);
    assert [e1, e2, e3][..2] == [e1, e2] && Run(c, w, [e1, e2, e3]) == Some(w3);
    assert [e1, e2, e3, e4][..3] == [e1, e2, e3];
  }
}
