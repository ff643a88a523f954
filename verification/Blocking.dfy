// The replay cache is consulted before the tag is checked: exactly when a genuine message still gets through, and
// runs in which a forged copy makes it fail.
module Blocking {
  import opened Wrappers
  import opened Symbols
  import GS = GroundStation
  import U = UavProtocol
  import opened Network
  import opened Invariants
  import opened Preservation
  import opened Runs
  import opened Agreement
  import opened PeerAgreement
  import opened HonestRun
  import opened Stranding
  import opened PeerRuns

  // A message as it arrives, with the clock and the draws of its handling.
  datatype Arrival = Arrival(m: Message, now: nat, nonce: nat, scalar: nat)

  // ---------- M1 ----------

  function M1At(c: GS.Config, g: GS.State, a: Arrival): GS.Step { GS.OnM1(c, g, a.m, a.now, a.nonce, a.scalar) }

  function FeedM1(c: GS.Config, g: GS.State, arrivals: seq<Arrival>): GS.State
    decreases |arrivals|
  {
    if |arrivals| == 0 then g else M1At(c, FeedM1(c, g, arrivals[..|arrivals| - 1]), arrivals[|arrivals| - 1]).next
  }

  predicate RejectedM1s(c: GS.Config, g: GS.State, arrivals: seq<Arrival>)
    decreases |arrivals|
  {
    |arrivals| > 0 ==>
      var n := |arrivals| - 1;
      RejectedM1s(c, g, arrivals[..n]) && M1At(c, FeedM1(c, g, arrivals[..n]), arrivals[n]).outcome.Aborted?
  }

  lemma {:induction false} RejectedM1sKeep(c: GS.Config, g: GS.State, arrivals: seq<Arrival>)
    requires RejectedM1s(c, g, arrivals)
    ensures var h := FeedM1(c, g, arrivals);
            h.devices == g.devices && h.sessions == g.sessions
    decreases |arrivals|
  {
    hide GS.OnM1, GS.NewSession, GS.M2;
    if |arrivals| > 0 {
      var n := |arrivals| - 1;
      RejectedM1sKeep(c, g, arrivals[..n]);
      var a := arrivals[n];
      OnM1Effect(c, FeedM1(c, g, arrivals[..n]), a.m, a.now, a.nonce, a.scalar);
    }
  }

  // After any sequence of rejected M1s the genuine M1 gets the reply it would have got before them if and only if
  // its nonce is not among the recent ones; otherwise it fails as replayed.
  lemma GenuineM1Iff(c: GS.Config, g: GS.State, arrivals: seq<Arrival>, a: Arrival)
    requires RejectedM1s(c, g, arrivals) && M1At(c, g, a).outcome.Replied? && a.m.Has({NONCE_1})
    ensures var h := FeedM1(c, g, arrivals);
            && (M1At(c, h, a).outcome == M1At(c, g, a).outcome <==> a.m.fields[NONCE_1] !in h.recent)
            && (a.m.fields[NONCE_1] in h.recent ==> M1At(c, h, a).outcome == Aborted(ReplayedNonce))
  {
    hide FeedM1, RejectedM1s, GS.DeviceWith, GS.RC.Last, Size, DecodeStamp, TimestampFresh, GS.NewSession, GS.M2;
    RejectedM1sKeep(c, g, arrivals);
  }

  // ---------- M2 ----------

  function M2At(c: U.Config, u: U.State, a: Arrival): U.Step { U.OnM2(c, u, a.m, a.now) }

  function FeedM2(c: U.Config, u: U.State, arrivals: seq<Arrival>): U.State
    decreases |arrivals|
  {
    if |arrivals| == 0 then u else M2At(c, FeedM2(c, u, arrivals[..|arrivals| - 1]), arrivals[|arrivals| - 1]).next
  }

  predicate RejectedM2s(c: U.Config, u: U.State, arrivals: seq<Arrival>)
    decreases |arrivals|
  {
    |arrivals| > 0 ==>
      var n := |arrivals| - 1;
      && RejectedM2s(c, u, arrivals[..n]) && TagsOk(arrivals[n].m)
      && M2At(c, FeedM2(c, u, arrivals[..n]), arrivals[n]).outcome.Aborted?
  }

  // A tag that verifies carries a genuine share, so before the key is derived a rejected M2 has stored nothing.
  lemma RejectedM2Keeps(c: U.Config, u: U.State, a: Arrival)
    requires Phase2Ok(c.id, u.phase2) && u.phase2.ephemeral.secret.Some? && TagsOk(a.m)
    requires M2At(c, u, a).outcome.Aborted?
    ensures var s := M2At(c, u, a).next;
            s.tid == u.tid && s.phase2 == u.phase2 && s.peers == u.peers
  {
    hide U.OnM2, U.M3, Phase2Ok, U.M2Signed, TagsOk, M2TagOk;
    OnM2Effect(c, u, a.m, a.now);
    if M2At(c, u, a).next.phase2 != u.phase2 { VerifiedShare(c.id, u, a.m); }
  }

  lemma {:induction false} RejectedM2sKeep(c: U.Config, u: U.State, arrivals: seq<Arrival>)
    requires Phase2Ok(c.id, u.phase2) && u.phase2.ephemeral.secret.Some? && RejectedM2s(c, u, arrivals)
    ensures var h := FeedM2(c, u, arrivals);
            h.tid == u.tid && h.phase2 == u.phase2 && h.peers == u.peers
    decreases |arrivals|
  {
    hide U.OnM2, Phase2Ok, TagsOk;
    if |arrivals| > 0 {
      var n := |arrivals| - 1;
      RejectedM2sKeep(c, u, arrivals[..n]);
      RejectedM2Keeps(c, FeedM2(c, u, arrivals[..n]), arrivals[n]);
    }
  }

  // The same for M2, before the key is derived.
  lemma GenuineM2Iff(c: U.Config, u: U.State, arrivals: seq<Arrival>, a: Arrival)
    requires Phase2Ok(c.id, u.phase2) && RejectedM2s(c, u, arrivals)
    requires M2At(c, u, a).outcome.Replied? && a.m.Has({NONCE_2})
    ensures var h := FeedM2(c, u, arrivals);
            && (M2At(c, h, a).outcome == M2At(c, u, a).outcome <==> a.m.fields[NONCE_2] !in h.recent)
            && (a.m.fields[NONCE_2] in h.recent ==> M2At(c, h, a).outcome == Aborted(ReplayedNonce))
  {
    hide FeedM2, RejectedM2s, U.RC.Last, Size, DecodeStamp, TimestampFresh, U.M3, Phase2Ok;
    M2NeedsSecret(c, u, a);
    RejectedM2sKeep(c, u, arrivals);
  }

  lemma M2NeedsSecret(c: U.Config, u: U.State, a: Arrival)
    requires M2At(c, u, a).outcome.Replied?
    ensures u.phase2.ephemeral.secret.Some?
  {
    hide U.OnM2, U.M3, U.M2Signed;
    OnM2Effect(c, u, a.m, a.now);
  }

  // ---------- P1 ----------

  function P1At(c: U.Config, u: U.State, a: Arrival): U.Step { U.OnP1(c, u, a.m, a.now, a.nonce, a.scalar) }

  function FeedP1(c: U.Config, u: U.State, arrivals: seq<Arrival>): U.State
    decreases |arrivals|
  {
    if |arrivals| == 0 then u else P1At(c, FeedP1(c, u, arrivals[..|arrivals| - 1]), arrivals[|arrivals| - 1]).next
  }

  predicate RejectedP1s(c: U.Config, u: U.State, arrivals: seq<Arrival>)
    decreases |arrivals|
  {
    |arrivals| > 0 ==>
      var n := |arrivals| - 1;
      RejectedP1s(c, u, arrivals[..n]) && P1At(c, FeedP1(c, u, arrivals[..n]), arrivals[n]).outcome.Aborted?
  }

  lemma {:induction false} RejectedP1sKeep(c: U.Config, u: U.State, arrivals: seq<Arrival>)
    requires RejectedP1s(c, u, arrivals)
    ensures var h := FeedP1(c, u, arrivals);
            h.tid == u.tid && h.phase2 == u.phase2 && h.peers == u.peers
    decreases |arrivals|
  {
    hide U.OnP1, U.Answering, U.P2;
    if |arrivals| > 0 {
      var n := |arrivals| - 1;
      RejectedP1sKeep(c, u, arrivals[..n]);
      var a := arrivals[n];
      OnP1Effect(c, FeedP1(c, u, arrivals[..n]), a.m, a.now, a.nonce, a.scalar);
    }
  }

  // The same for P1.
  lemma GenuineP1Iff(c: U.Config, u: U.State, arrivals: seq<Arrival>, a: Arrival)
    requires RejectedP1s(c, u, arrivals) && P1At(c, u, a).outcome.Replied? && a.m.Has({NONCE_1})
    ensures var h := FeedP1(c, u, arrivals);
            && (P1At(c, h, a).outcome == P1At(c, u, a).outcome <==> a.m.fields[NONCE_1] !in h.recent)
            && (a.m.fields[NONCE_1] in h.recent ==> P1At(c, h, a).outcome == Aborted(ReplayedNonce))
  {
    hide FeedP1, RejectedP1s, U.RC.Last, DecodeId, DecodeStamp, TimestampFresh, U.P1Received, U.Answering, U.P2;
    RejectedP1sKeep(c, u, arrivals);
  }

  // ---------- forged copies ----------

  // The same message with a tag made up by the network.
  function Forged(m: Message): Message { m.(fields := m.fields[MAC_TAG := Opaque(0, 16)]) }

  lemma ForgedDeliverable(m: Message, sent: set<Term>)
    requires Deliverable(m, sent)
    ensures Deliverable(Forged(m), sent)
  {}

  lemma LastKeeps(s: seq<Term>, t: Term, n: nat)
    requires n > 0
    ensures t in GS.RC.Last(s + [t], n)
  {
    GS.RC.InLast(s + [t], n, |s|);
    assert (s + [t])[|s|] == t;
  }

  lemma ForgedM1(c: GS.Config, g: GS.State, a: Arrival)
    requires c.capacity > 0 && M1At(c, g, a).outcome.Replied?
    ensures var s := M1At(c, g, a.(m := Forged(a.m)));
            s.outcome == Aborted(MacVerifyFailed) && M1At(c, s.next, a).outcome == Aborted(ReplayedNonce)
  {
    hide GS.DeviceWith, GS.RC.Last, Size, DecodeStamp, TimestampFresh, GS.NewSession, GS.M2;
    LastKeeps(g.recent, a.m.fields[NONCE_1], c.capacity);
  }

  lemma ForgedM2(c: U.Config, u: U.State, a: Arrival)
    requires c.capacity > 0 && M2At(c, u, a).outcome.Replied?
    ensures var s := M2At(c, u, a.(m := Forged(a.m)));
            s.outcome == Aborted(MacVerifyFailed) && M2At(c, s.next, a).outcome == Aborted(ReplayedNonce)
  {
    hide U.RC.Last, Size, DecodeStamp, TimestampFresh, U.M3, Derive;
    LastKeeps(u.recent, a.m.fields[NONCE_2], c.capacity);
  }

  lemma ForgedP1(c: U.Config, u: U.State, a: Arrival)
    requires c.capacity > 0 && P1At(c, u, a).outcome.Replied?
    ensures var s := P1At(c, u, a.(m := Forged(a.m)));
            s.outcome == Aborted(MacVerifyFailed) && P1At(c, s.next, a).outcome == Aborted(ReplayedNonce)
  {
    hide U.RC.Last, DecodeId, DecodeStamp, TimestampFresh, U.Answering, U.P2;
    LastKeeps(u.recent, a.m.fields[NONCE_1], c.capacity);
  }

  // Before its last event the genuine message of the UAV would have been answered; after it, it fails as replayed.
  predicate BlocksM1(c: Config, w0: World, events: seq<Event>, id: int, a: Arrival) {
    |events| > 0 &&
    var n := |events| - 1;
    var before, after := Run(c, w0, events[..n]), Run(c, w0, events);
    && before.Some? && after.Some? && Deliverable(a.m, before.value.sent)
    && M1At(c.Gs(), before.value.gs, a).outcome.Replied? && M1At(c.Gs(), before.value.gs, a).outcome.reply.receiver == id
    && M1At(c.Gs(), after.value.gs, a).outcome == Aborted(ReplayedNonce)
  }

  predicate BlocksM2(c: Config, w0: World, events: seq<Event>, u: int, a: Arrival) {
    |events| > 0 &&
    var n := |events| - 1;
    var before, after := Run(c, w0, events[..n]), Run(c, w0, events);
    && before.Some? && after.Some? && u in before.value.uavs && u in after.value.uavs
    && Deliverable(a.m, before.value.sent)
    && M2At(c.Uav(u), before.value.uavs[u], a).outcome.Replied?
    && M2At(c.Uav(u), after.value.uavs[u], a).outcome == Aborted(ReplayedNonce)
  }

  predicate BlocksP1(c: Config, w0: World, events: seq<Event>, sender: int, u: int, a: Arrival) {
    |events| > 0 &&
    var n := |events| - 1;
    var before, after := Run(c, w0, events[..n]), Run(c, w0, events);
    && before.Some? && after.Some? && u in before.value.uavs && u in after.value.uavs
    && Deliverable(a.m, before.value.sent)
    && P1At(c.Uav(u), before.value.uavs[u], a).outcome.Replied? && a.m.sender == sender
    && P1At(c.Uav(u), after.value.uavs[u], a).outcome == Aborted(ReplayedNonce)
  }

  // Delivering the forged copy first blocks a genuine message that could have been delivered.
  lemma BlockM1(c: Config, w0: World, events: seq<Event>, id: int, a: Arrival)
    requires c.capacity > 0 && Run(c, w0, events).Some? && Deliverable(a.m, Run(c, w0, events).value.sent)
    requires var o := M1At(c.Gs(), Run(c, w0, events).value.gs, a).outcome; o.Replied? && o.reply.receiver == id
    ensures exists more :: BlocksM1(c, w0, more, id, a)
  {
    hide Run, GS.OnM1, Deliverable, Forged;
    var w := Run(c, w0, events).value;
    var f := Forged(a.m);
    ForgedDeliverable(a.m, w.sent);
    var e := GsM1(f, a.now, a.nonce, a.scalar);
    RunExtends(c, w0, events, e);
    ForgedM1(c.Gs(), w.gs, a);
    assert (events + [e])[..|events|] == events;
    assert BlocksM1(c, w0, events + [e], id, a);
  }

  lemma BlockM2(c: Config, w0: World, events: seq<Event>, u: int, a: Arrival)
    requires c.capacity > 0 && Run(c, w0, events).Some? && Deliverable(a.m, Run(c, w0, events).value.sent)
    requires u in Run(c, w0, events).value.uavs
    requires M2At(c.Uav(u), Run(c, w0, events).value.uavs[u], a).outcome.Replied?
    ensures exists more :: BlocksM2(c, w0, more, u, a)
  {
    hide Run, U.OnM2, Deliverable, Forged;
    var w := Run(c, w0, events).value;
    ForgedDeliverable(a.m, w.sent);
    var e := UavM2(u, Forged(a.m), a.now);
    RunExtends(c, w0, events, e);
    ForgedM2(c.Uav(u), w.uavs[u], a);
    assert (events + [e])[..|events|] == events;
    assert BlocksM2(c, w0, events + [e], u, a);
  }

  lemma BlockP1(c: Config, w0: World, events: seq<Event>, u: int, a: Arrival)
    requires c.capacity > 0 && Run(c, w0, events).Some? && Deliverable(a.m, Run(c, w0, events).value.sent)
    requires u in Run(c, w0, events).value.uavs
    requires P1At(c.Uav(u), Run(c, w0, events).value.uavs[u], a).outcome.Replied?
    ensures exists more :: BlocksP1(c, w0, more, a.m.sender, u, a)
  {
    hide Run, U.OnP1, Deliverable, Forged;
    var w := Run(c, w0, events).value;
    ForgedDeliverable(a.m, w.sent);
    var e := UavP1(u, Forged(a.m), a.now, a.nonce, a.scalar);
    RunExtends(c, w0, events, e);
    ForgedP1(c.Uav(u), w.uavs[u], a);
    assert (events + [e])[..|events|] == events;
    assert BlocksP1(c, w0, events + [e], a.m.sender, u, a);
  }

  // In every deployment with a replay cache a forged copy can block the first M1 and the first M2 of any UAV.
  lemma BlockedPhase2Exists(c: Config, w0: World, id: int)
    requires c.Valid() && Initial(c, w0) && id in c.ids && c.capacity > 0
    ensures exists events, a :: BlocksM1(c, w0, events, id, a)
    ensures exists events, a :: BlocksM2(c, w0, events, id, a)
  {
    hide Run, U.OnStart2, GS.OnM1, U.OnM2, GS.OnM3, U.OnM4, Deliverable, Fields, GS.DeviceWith, BlocksM1, BlocksM2;
    InitiallyReady(c, w0, id);
    var u := w0.uavs[id];
    Phase2Completes(c, w0.gs, id, u, 0, 1, 2, 3, 4);
    var e1 := Start2(id, Some(Master(id)), 0, 1, 2);
    var s1 := U.OnStart2(c.Uav(id), u, true, Some(Master(id)), 0, 1, 2);
    var m1 := s1.outcome.reply;
    RunNone(c, w0);
    RunExtends(c, w0, [], e1);
    var w1 := Next(c, w0, e1);
    ReplyDeliverable(m1, w1.sent);
    StartAnswers(c, id, u, 0, 1, 2);
    M1Carries(c, id, u, 0, 1, 2);
    ToSender(c, w0, id, u, m1, 0, 3, 4);
    BlockM1(c, w0, [] + [e1], id, Arrival(m1, 0, 3, 4));
    var e2 := GsM1(m1, 0, 3, 4);
    RunExtends(c, w0, [] + [e1], e2);
    var w2 := Next(c, w1, e2);
    var m2 := GS.OnM1(c.Gs(), w0.gs, m1, 0, 3, 4).outcome.reply;
    ReplyDeliverable(m2, w2.sent);
    BlockM2(c, w0, [] + [e1] + [e2], id, Arrival(m2, 0, 0, 0));
  }

  // The ground station's reply goes to the UAV whose identity M1 carries.
  lemma ToSender(c: Config, w: World, id: int, u: U.State, m1: Message, now: nat, n2: nat, y: nat)
    requires GS.DeviceWith(w.gs.devices, u.tid) == Some(id) && TID in m1.fields && m1.fields[TID] == u.tid
    requires GS.OnM1(c.Gs(), w.gs, m1, now, n2, y).outcome.Replied?
    ensures GS.OnM1(c.Gs(), w.gs, m1, now, n2, y).outcome.reply.receiver == id
  {
    hide GS.DeviceWith, GS.RC.Last, Size, DecodeStamp, TimestampFresh, GS.NewSession, GS.M1Signed;
  }

  lemma P1Sender(c: U.Config, u: U.State, peer: int, now: nat, nonce: nat, scalar: nat)
    ensures var o := U.OnStart3(c, u, peer, now, nonce, scalar).outcome; o.Replied? ==> o.reply.sender == c.id
  {
    hide U.P1Signed, U.Opening;
  }

  lemma RunNone(c: Config, w: World) ensures Run(c, w, []) == Some(w) {}

  // And the first P1 between any two UAVs.
  lemma BlockedPhase3Exists(c: Config, w0: World, i: int, j: int)
    requires c.Valid() && Initial(c, w0) && i in c.ids && j in c.ids && i != j && c.capacity > 0
    ensures exists events, a :: BlocksP1(c, w0, events, i, j, a)
  {
    hide Run, U.OnStart3, U.OnP1, U.OnP2, U.OnP3, Deliverable, Fields, BlocksP1, PairCredential, ValidId;
    IdsValid(c, i, j);
    var first, w := BothPaired(c, w0, i, j);
    PairCredentialUnique(i, j, i, j);
    Phase3Completes(c, i, j, w.uavs[i], w.uavs[j], 0, 9, 10, 11, 12);
    var e := Start3(i, j, 0, 9, 10);
    var p1 := U.OnStart3(c.Uav(i), w.uavs[i], j, 0, 9, 10).outcome.reply;
    RunExtends(c, w0, first, e);
    ReplyDeliverable(p1, Next(c, w, e).sent);
    P1Sender(c.Uav(i), w.uavs[i], j, 0, 9, 10);
    BlockP1(c, w0, first + [e], j, Arrival(p1, 0, 11, 12));
  }
}
