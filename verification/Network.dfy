// Runs of one ground station and many UAVs over a network that drops, duplicates, reorders, redirects and
// rewrites messages, but can deliver a tag or a sealed package only if some honest handler has sent it.
module Network {
  import opened Wrappers
  import opened Symbols
  import GS = GroundStation
  import U = UavProtocol

  // The enrolled UAVs, and the parameters every party shares.
  datatype Config = Config(ids: set<int>, suite: nat, window: nat, capacity: nat) {
    predicate Valid() { forall id :: id in ids ==> ValidId(id) }

    function Gs(): GS.Config { GS.Config(window, capacity) }

    function Uav(id: int): U.Config { U.Config(id, suite, window, capacity) }
  }

  // A package the ground station sealed for a UAV, with its session at that time, and an identity a UAV took
  // over from a package.
  datatype Answer = Answer(uav: int, sealed: Term, session: GS.Session)
  datatype Rotation = Rotation(uav: int, tid: Term)

  // A message as an honest party sent it; the ground station is -1.
  datatype Letter = Letter(from: int, m: Message)

  // The parties' states, everything ever sent, and the history: packages sealed, packages accepted, Phase 2 sessions
  // confirmed with M3, exchanges answered by their responders with P2, and completed by their initiators with P3, and
  // whole messages.
  datatype World = World(gs: GS.State, uavs: map<int, U.State>, sent: set<Term>,
                         answers: seq<Answer>, rotations: seq<Rotation>, confirmed: set<U.Phase2>,
                         responses: set<U.Exchange>, completions: set<U.Exchange>, letters: set<Letter>)

  datatype Event =
    | GsM1(m: Message, now: nat, nonce: nat, scalar: nat)
    | GsM3(m: Message)
    | Start2(u: int, mk: Option<Term>, now: nat, nonce: nat, scalar: nat)
    | UavM2(u: int, m: Message, now: nat)
    | UavM4(u: int, m: Message)
    | Start3(u: int, peer: int, now: nat, nonce: nat, scalar: nat)
    | UavP1(u: int, m: Message, now: nat, nonce: nat, scalar: nat)
    | UavP2(u: int, m: Message)
    | UavP3(u: int, m: Message)

  // A key derived from an empty credential is known to everyone.
  predicate Guarded(t: Term) { (t.Mac? && t.key != PeerAuthKey(Empty)) || t.Sealed? }

  // Ideal authentication: tags under secret keys and packages come from earlier messages, everything else is up to
  // the network.
  predicate Deliverable(m: Message, sent: set<Term>) {
    forall f :: f in m.fields && Guarded(m.fields[f]) ==> m.fields[f] in sent
  }

  // The regenerated key is the enrolled one, a wrong one, or none at all.
  predicate Regenerates(u: int, mk: Option<Term>) {
    mk.None? || mk.value == Master(u) || mk.value.Garbled?
  }

  // An exchange is open until its key has been derived.
  predicate Open(x: U.Exchange) { x.ephemeral.secret.Some? }

  predicate NoOpenExchange(u: U.State) { forall p :: p in u.peers ==> !Open(u.peers[p]) }

  predicate Enabled(c: Config, w: World, e: Event) {
    match e
    case GsM1(m, _, _, _) => Deliverable(m, w.sent)
    case GsM3(m) => Deliverable(m, w.sent)
    case Start2(u, mk, _, _, _) => u in w.uavs && Regenerates(u, mk)
    case UavM2(u, m, _) => u in w.uavs && Deliverable(m, w.sent)
    case UavM4(u, m) => u in w.uavs && Deliverable(m, w.sent)
    case Start3(u, _, _, _, _) => u in w.uavs
    case UavP1(u, m, _, _, _) => u in w.uavs && Deliverable(m, w.sent)
    case UavP2(u, m) => u in w.uavs && Deliverable(m, w.sent)
    case UavP3(u, m) => u in w.uavs && Deliverable(m, w.sent)
  }

  // Every field of a reply becomes known to the network.
  function Fields(o: Outcome): set<Term> {
    if o.Replied? then o.reply.fields.Values else {}
  }

  function Mailed(from: int, o: Outcome): set<Letter> { if o.Replied? then {Letter(from, o.reply)} else {} }

  function GsStep(w: World, s: GS.Step): World {
    w.(gs := s.next, sent := w.sent + Fields(s.outcome), letters := w.letters + Mailed(-1, s.outcome))
  }

  function UavStep(w: World, u: int, s: U.Step): World {
    w.(uavs := w.uavs[u := s.next], sent := w.sent + Fields(s.outcome), letters := w.letters + Mailed(u, s.outcome))
  }

  function Next(c: Config, w: World, e: Event): World
    requires Enabled(c, w, e)
  {
    match e
    case GsM1(m, now, nonce, scalar) => GsStep(w, GS.OnM1(c.Gs(), w.gs, m, now, nonce, scalar))
    case GsM3(m) =>
      var s := GS.OnM3(w.gs, m);
      if Answers(s) then GsStep(w, s).(answers := w.answers + [AnswerOf(s)]) else GsStep(w, s)
    case Start2(u, mk, now, nonce, scalar) =>
      UavStep(w, u, U.OnStart2(c.Uav(u), w.uavs[u], true, mk, now, nonce, scalar))
    case UavM2(u, m, now) =>
      var s := U.OnM2(c.Uav(u), w.uavs[u], m, now);
      if s.outcome.Replied? then UavStep(w, u, s).(confirmed := w.confirmed + {s.next.phase2}) else UavStep(w, u, s)
    case UavM4(u, m) =>
      var s := U.OnM4(w.uavs[u], m);
      if s.outcome.Accepted? then UavStep(w, u, s).(rotations := w.rotations + [Rotation(u, s.next.tid)])
      else UavStep(w, u, s)
    case Start3(u, peer, now, nonce, scalar) =>
      UavStep(w, u, U.OnStart3(c.Uav(u), w.uavs[u], peer, now, nonce, scalar))
    case UavP1(u, m, now, nonce, scalar) =>
      var s := U.OnP1(c.Uav(u), w.uavs[u], m, now, nonce, scalar);
      if s.outcome.Replied? && s.outcome.reply.receiver in s.next.peers then
        UavStep(w, u, s).(responses := w.responses + {s.next.peers[s.outcome.reply.receiver]})
      else UavStep(w, u, s)
    case UavP2(u, m) =>
      var s := U.OnP2(w.uavs[u], m);
      if s.outcome.Replied? && m.sender in s.next.peers then
        UavStep(w, u, s).(completions := w.completions + {s.next.peers[m.sender]})
      else UavStep(w, u, s)
    case UavP3(u, m) => UavStep(w, u, U.OnP3(w.uavs[u], m))
  }

  predicate Answers(s: GS.Step) {
    && s.outcome.Replied? && CRED_PKG in s.outcome.reply.fields
    && s.outcome.reply.receiver in s.next.sessions
  }

  function AnswerOf(s: GS.Step): Answer
    requires Answers(s)
  {
    var id := s.outcome.reply.receiver;
    Answer(id, s.outcome.reply.fields[CRED_PKG], s.next.sessions[id])
  }

  // After enrolment.
  predicate Initial(c: Config, w: World) {
    && w.gs.devices.Keys == c.ids == w.uavs.Keys
    && (forall id :: id in c.ids ==> w.gs.devices[id] == GS.Device(FirstTid(Master(id), id), Empty, Master(id)))
    && (forall id :: id in c.ids ==> w.uavs[id] == U.State(FirstTid(Master(id), id), U.NO_SESSION, map[], []))
    && w.gs.sessions == map[] && w.gs.recent == []
    && w.sent == {} && w.answers == [] && w.rotations == [] && w.confirmed == {}
    && w.responses == {} && w.completions == {} && w.letters == {}
  }

  // The world after a run of events; None if some event was not possible when its turn came.
  function Run(c: Config, w: World, events: seq<Event>): Option<World>
    decreases |events|
  {
    if |events| == 0 then Some(w) else
      var before := Run(c, w, events[..|events| - 1]);
      var e := events[|events| - 1];
      if before.Some? && Enabled(c, before.value, e) then Some(Next(c, before.value, e)) else None
  }

  // A run in which no UAV restarts Phase 2 while one of its peer exchanges is open.
  predicate Careful(c: Config, w: World, events: seq<Event>)
    decreases |events|
  {
    |events| > 0 ==>
      var before := Run(c, w, events[..|events| - 1]);
      var e := events[|events| - 1];
      && Careful(c, w, events[..|events| - 1])
      && (before.Some? && e.Start2? && e.u in before.value.uavs ==> NoOpenExchange(before.value.uavs[e.u]))
  }

  // A nonce drawn for a new Phase 2 session, at either end, has never been sent before.
  predicate DrawsFresh(c: Config, w: World, e: Event) {
    match e
    case Start2(u, mk, now, nonce, scalar) =>
      u in w.uavs && U.OnStart2(c.Uav(u), w.uavs[u], true, mk, now, nonce, scalar).outcome.Replied? ==>
        Nonce(nonce) !in w.sent
    case GsM1(m, now, nonce, scalar) =>
      GS.OnM1(c.Gs(), w.gs, m, now, nonce, scalar).outcome.Replied? ==> Nonce(nonce) !in w.sent
    case _ => true
  }

  predicate Fresh(c: Config, w: World, events: seq<Event>)
    decreases |events|
  {
    |events| > 0 ==>
      var before := Run(c, w, events[..|events| - 1]);
      && Fresh(c, w, events[..|events| - 1])
      && (before.Some? ==> DrawsFresh(c, before.value, events[|events| - 1]))
  }
}
