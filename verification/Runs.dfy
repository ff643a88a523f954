// The invariants hold after every run.
module Runs {
  import opened Wrappers
  import opened Symbols
  import GS = GroundStation
  import U = UavProtocol
  import opened Network
  import opened Invariants
  import opened Preservation

  lemma InitialInv(c: Config, w: World)
    requires c.Valid() && Initial(c, w)
    ensures Inv(c, w)
  {
    hide UavOk, DeviceOk, SentOk, CompletionOk, ConfirmedOk, ResponseOk, AnswerOk, IsRotation, TidsOk, ValidId;
    forall id | id in c.ids
      ensures DeviceOk(id, w.gs.devices[id]) && UavOk(c.ids, id, w.uavs[id]) && TidsOk(w, id)
    {
      InitialParty(c, w, id);
    }
  }

  lemma InitialParty(c: Config, w: World, id: int)
    requires Initial(c, w) && id in c.ids
    ensures DeviceOk(id, w.gs.devices[id]) && UavOk(c.ids, id, w.uavs[id]) && TidsOk(w, id)
  {}

  // What arrives has only tags that were sent.
  lemma DeliveredTags(c: Config, w: World, m: Message)
    requires Inv(c, w) && Deliverable(m, w.sent)
    ensures TagsOk(m)
    ensures CRED_PKG in m.fields && m.fields[CRED_PKG].Sealed? ==>
              exists i :: 0 <= i < |w.answers| && w.answers[i].sealed == m.fields[CRED_PKG]
  {
    hide GsOk, UavOk, TidsOk, CompletionOk, ResponseOk, ConfirmedOk, AnswerOk, IsRotation;
    forall f | f in m.fields ensures M2TagOk(m.fields[f]) {
      if Guarded(m.fields[f]) { assert SentOk(w, m.fields[f]); }
    }
    if CRED_PKG in m.fields && m.fields[CRED_PKG].Sealed? { assert SentOk(w, m.fields[CRED_PKG]); }
  }

  // Sent terms stay justified when the history grows.
  lemma SentStays(w: World, v: World)
    requires w.responses <= v.responses && w.completions <= v.completions && w.confirmed <= v.confirmed
    requires w.answers <= v.answers
    requires forall t :: t in w.sent ==> SentOk(w, t)
    ensures forall t :: t in w.sent ==> SentOk(v, t)
  {
    hide M2TagOk, IsM3Tag, IsP2Tag, IsP3Tag;
    forall t | t in w.sent ensures SentOk(v, t) {
      assert SentOk(w, t);
      if t.Sealed? {
        var i :| 0 <= i < |w.answers| && w.answers[i].sealed == t;
        assert v.answers[i].sealed == t;
      }
    }
  }

  lemma PlainIsOk(w: World, o: Outcome)
    requires AllPlain(o)
    ensures forall t :: t in Fields(o) ==> SentOk(w, t)
  {
    hide M2TagOk, IsM3Tag, IsP2Tag, IsP3Tag;
  }

  lemma UavStepKeeps(c: Config, w: World, u: int, s: U.Step)
    requires Inv(c, w) && u in c.ids
    requires UavOk(c.ids, u, s.next) && s.next.tid == w.uavs[u].tid && AllPlain(s.outcome)
    ensures Inv(c, UavStep(w, u, s))
  {
    hide GsOk, UavOk, CompletionOk, ResponseOk, ConfirmedOk, AnswerOk, IsRotation, SentOk, AllPlain, Fields;
    var v := UavStep(w, u, s);
    PlainIsOk(v, s.outcome);
    SentStays(w, v);
  }

  lemma GsM1Keeps(c: Config, w: World, m: Message, now: nat, nonce: nat, scalar: nat)
    requires Inv(c, w)
    ensures Inv(c, GsStep(w, GS.OnM1(c.Gs(), w.gs, m, now, nonce, scalar)))
  {
    hide GsOk, UavOk, CompletionOk, ResponseOk, ConfirmedOk, AnswerOk, IsRotation, SentOk, AllPlain, Fields, GS.OnM1;
    OnM1Keeps(c.Gs(), c.ids, w.gs, m, now, nonce, scalar);
    var s := GS.OnM1(c.Gs(), w.gs, m, now, nonce, scalar);
    PlainIsOk(GsStep(w, s), s.outcome);
    SentStays(w, GsStep(w, s));
    DevicesAre(c.ids, w.gs);
  }

  lemma DevicesAre(ids: set<int>, g: GS.State)
    requires GsOk(ids, g)
    ensures g.devices.Keys == ids
  {}

  lemma LastSealedSnoc(answers: seq<Answer>, a: Answer, u: int)
    ensures LastSealed(answers + [a], u) == if a.uav == u then Some(a.sealed) else LastSealed(answers, u)
  {
    assert (answers + [a])[..|answers|] == answers;
  }

  lemma LastRotationSnoc(rotations: seq<Rotation>, r: Rotation, u: int)
    ensures LastRotation(rotations + [r], u) == if r.uav == u then Some(r.tid) else LastRotation(rotations, u)
  {
    assert (rotations + [r])[..|rotations|] == rotations;
  }

  lemma GsM3Keeps(c: Config, w: World, m: Message)
    requires Inv(c, w) && Enabled(c, w, GsM3(m))
    ensures Inv(c, Next(c, w, GsM3(m)))
  {
    hide GsOk, UavOk, CompletionOk, ResponseOk, ConfirmedOk, AnswerOk, IsRotation, SentOk, AllPlain, Fields, GS.OnM3, LastSealed, AnswerOf, Plain,
      Deliverable, LastRotation;
    OnM3Keeps(c.ids, w.gs, m);
    var s := GS.OnM3(w.gs, m);
    var v := Next(c, w, GsM3(m));
    DevicesAre(c.ids, w.gs);
    SentStays(w, v);
    if s.outcome.Replied? {
      var a := AnswerOf(s);
      AnswerSealed(c.ids, a);
      forall u | u in c.ids ensures TidsOk(v, u) {
        assert TidsOk(w, u);
        LastSealedSnoc(w.answers, a, u);
      }
      forall t | t in Fields(s.outcome) ensures SentOk(v, t) {
        assert v.answers[|w.answers|] == a;
        NewTermOk(v, t, |w.answers|);
      }
    } else {
      PlainIsOk(v, s.outcome);
    }
  }

  lemma AnswerSealed(ids: set<int>, a: Answer)
    requires AnswerOk(ids, a)
    ensures a.uav in ids && a.sealed.Sealed?
  {
    hide FullPackage;
  }

  lemma NewTermOk(w: World, t: Term, i: nat)
    requires i < |w.answers| && (Plain(t) || (t == w.answers[i].sealed && t.Sealed?))
    ensures SentOk(w, t)
  {}

  lemma UavM4Keeps(c: Config, w: World, u: int, m: Message)
    requires Inv(c, w) && Enabled(c, w, UavM4(u, m))
    ensures Inv(c, Next(c, w, UavM4(u, m)))
  {
    hide GsOk, UavOk, CompletionOk, ResponseOk, ConfirmedOk, AnswerOk, IsRotation, SentOk, AllPlain, Fields, U.OnM4, LastRotation,
      Deliverable, M2TagOk, PairCredential, LastSealed;
    DeliveredTags(c, w, m);
    OnM4Keeps(c.ids, u, w.uavs[u], m, w.answers);
    DevicesAre(c.ids, w.gs);
    var s := U.OnM4(w.uavs[u], m);
    var v := Next(c, w, UavM4(u, m));
    SentStays(w, v);
    PlainIsOk(v, s.outcome);
    if s.outcome.Accepted? {
      forall id | id in c.ids ensures TidsOk(v, id) {
        assert TidsOk(w, id);
        LastRotationSnoc(w.rotations, Rotation(u, s.next.tid), id);
      }
    } else {
      assert v.uavs == w.uavs;
      forall id | id in c.ids ensures TidsOk(v, id) { assert TidsOk(w, id); }
    }
  }

  lemma UavM2Keeps(c: Config, w: World, u: int, m: Message, now: nat)
    requires Inv(c, w) && Enabled(c, w, UavM2(u, m, now))
    ensures Inv(c, Next(c, w, UavM2(u, m, now)))
  {
    hide GsOk, UavOk, CompletionOk, ResponseOk, ConfirmedOk, AnswerOk, IsRotation, SentOk, AllPlain, Plain, Fields, U.OnM2, TidsOk;
    DeliveredTags(c, w, m);
    OnM2Keeps(c.Uav(u), c.ids, w.uavs[u], m, now);
    DevicesAre(c.ids, w.gs);
    var s := U.OnM2(c.Uav(u), w.uavs[u], m, now);
    if s.outcome.Replied? {
      var v := Next(c, w, UavM2(u, m, now));
      SentStays(w, v);
      forall t | t in Fields(s.outcome) ensures SentOk(v, t) { M3TermOk(v, t, s.next.phase2); }
      forall id | id in c.ids ensures TidsOk(v, id) { assert TidsOk(w, id); SameTids(w, v, id); }
    } else {
      UavStepKeeps(c, w, u, s);
    }
  }

  lemma M3TermOk(w: World, t: Term, s: U.Phase2)
    requires s in w.confirmed && (Plain(t) || (IsM3Tag(t) && Confirms(s, t)))
    ensures SentOk(w, t)
  {}

  lemma UavP2Keeps(c: Config, w: World, u: int, m: Message)
    requires Inv(c, w) && Enabled(c, w, UavP2(u, m))
    ensures Inv(c, Next(c, w, UavP2(u, m)))
  {
    hide GsOk, UavOk, CompletionOk, ResponseOk, ConfirmedOk, AnswerOk, IsRotation, SentOk, AllPlain, Fields, U.OnP2, TidsOk;
    OnP2Keeps(c.ids, u, w.uavs[u], m);
    DevicesAre(c.ids, w.gs);
    var s := U.OnP2(w.uavs[u], m);
    if s.outcome.Replied? {
      var v := Next(c, w, UavP2(u, m));
      SentStays(w, v);
      var x := s.next.peers[m.sender];
      forall t | t in Fields(s.outcome) ensures SentOk(v, t) { P3TermOk(v, t, x); }
      forall id | id in c.ids ensures TidsOk(v, id) { assert TidsOk(w, id); SameTids(w, v, id); }
    } else {
      UavStepKeeps(c, w, u, s);
    }
  }

  lemma UavP1Keeps(c: Config, w: World, u: int, m: Message, now: nat, nonce: nat, scalar: nat)
    requires Inv(c, w) && Enabled(c, w, UavP1(u, m, now, nonce, scalar))
    ensures Inv(c, Next(c, w, UavP1(u, m, now, nonce, scalar)))
  {
    hide GsOk, UavOk, CompletionOk, ConfirmedOk, ResponseOk, AnswerOk, IsRotation, SentOk, AllPlain, Plain, Fields, U.OnP1, TidsOk;
    OnP1Keeps(c.Uav(u), c.ids, w.uavs[u], m, now, nonce, scalar);
    DevicesAre(c.ids, w.gs);
    var s := U.OnP1(c.Uav(u), w.uavs[u], m, now, nonce, scalar);
    if s.outcome.Replied? {
      var v := Next(c, w, UavP1(u, m, now, nonce, scalar));
      SentStays(w, v);
      var y := s.next.peers[s.outcome.reply.receiver];
      forall t | t in Fields(s.outcome) ensures SentOk(v, t) { P2TermOk(v, t, y); }
      forall id | id in c.ids ensures TidsOk(v, id) { assert TidsOk(w, id); SameTids(w, v, id); }
    } else {
      UavStepKeeps(c, w, u, s);
    }
  }

  lemma P2TermOk(w: World, t: Term, y: U.Exchange)
    requires y in w.responses && (Plain(t) || (IsP2Tag(t) && Offers(y, t)))
    ensures SentOk(w, t)
  {}

  lemma SameTids(w: World, v: World, u: int)
    requires u in w.gs.devices && u in w.uavs && TidsOk(w, u)
    requires v.gs == w.gs && v.answers == w.answers && v.rotations == w.rotations
    requires u in v.uavs && v.uavs[u].tid == w.uavs[u].tid
    ensures TidsOk(v, u)
  {}

  lemma P3TermOk(w: World, t: Term, x: U.Exchange)
    requires x in w.completions && IsP3Tag(t) && Vouches(x, t)
    ensures SentOk(w, t)
  {}

  // Every event keeps the invariants.
  lemma NextKeeps(c: Config, w: World, e: Event)
    requires Inv(c, w) && Enabled(c, w, e)
    ensures Inv(c, Next(c, w, e))
  {
    hide Inv, UavOk, TagsOk, AllPlain, Deliverable, Regenerates, GsStep, UavStep,
      GS.OnM1, GS.OnM3, U.OnStart2, U.OnM2, U.OnM4, U.OnStart3, U.OnP1, U.OnP2, U.OnP3;
    match e {
      case GsM1(m, now, nonce, scalar) => GsM1Keeps(c, w, m, now, nonce, scalar);
      case GsM3(m) => GsM3Keeps(c, w, m);
      case UavM4(u, m) => Parts(c, w, u); UavM4Keeps(c, w, u, m);
      case UavP2(u, m) => Parts(c, w, u); UavP2Keeps(c, w, u, m);
      case Start2(u, mk, now, nonce, scalar) =>
        Parts(c, w, u);
        OnStart2Keeps(c.Uav(u), c.ids, w.uavs[u], mk, now, nonce, scalar);
        UavStepKeeps(c, w, u, U.OnStart2(c.Uav(u), w.uavs[u], true, mk, now, nonce, scalar));
      case UavM2(u, m, now) => Parts(c, w, u); UavM2Keeps(c, w, u, m, now);
      case Start3(u, peer, now, nonce, scalar) =>
        Parts(c, w, u);
        OnStart3Keeps(c.Uav(u), c.ids, w.uavs[u], peer, now, nonce, scalar);
        UavStepKeeps(c, w, u, U.OnStart3(c.Uav(u), w.uavs[u], peer, now, nonce, scalar));
      case UavP1(u, m, now, nonce, scalar) => Parts(c, w, u); UavP1Keeps(c, w, u, m, now, nonce, scalar);
      case UavP3(u, m) =>
        Parts(c, w, u);
        OnP3Keeps(c.ids, u, w.uavs[u], m);
        UavStepKeeps(c, w, u, U.OnP3(w.uavs[u], m));
    }
  }

  lemma Parts(c: Config, w: World, u: int)
    requires Inv(c, w) && u in w.uavs
    ensures u in c.ids && UavOk(c.ids, u, w.uavs[u])
    ensures forall id :: id in c.ids ==> ValidId(id)
  {
    hide GsOk, UavOk, CompletionOk, ResponseOk, ConfirmedOk, AnswerOk, IsRotation, SentOk, TidsOk;
  }

  // The invariants hold after every run from enrolment.
  lemma {:induction false} RunInv(c: Config, w: World, events: seq<Event>)
    requires c.Valid() && Initial(c, w) && Run(c, w, events).Some?
    ensures Inv(c, Run(c, w, events).value)
    decreases |events|
  {
    hide Inv, Next, Enabled;
    if |events| == 0 {
      InitialInv(c, w);
    } else {
      RunInv(c, w, events[..|events| - 1]);
      NextKeeps(c, Run(c, w, events[..|events| - 1]).value, events[|events| - 1]);
    }
  }
}
