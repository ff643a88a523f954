// The package of M4 as bytes: what the ground station packs and seals is what the UAV unpacks and installs.
module Packages {
  import opened Wrappers
  import opened Bits
  import opened Symbols
  import GS = GroundStation
  import U = UavProtocol
  import C = Credentials
  import opened Network
  import opened Invariants
  import opened Preservation
  import opened Runs
  import opened Agreement

  // Any assignment of byte strings to values, each of the value's size.
  ghost predicate Renders(bytes: Term -> Bytes) { forall t :: |bytes(t)| == Size(t) }

  function Rendered(m: map<int, Term>, bytes: Term -> Bytes): map<int, Bytes> { map k | k in m :: bytes(m[k]) }

  function Packed(p: Package, bytes: Term -> Bytes): Bytes {
    C.Pack(Rendered(p.creds, bytes), Rendered(p.tids, bytes), bytes(p.tidNew))
  }

  lemma {:induction false} BoundedSize(s: set<int>, n: nat)
    requires forall x :: x in s ==> 0 <= x < n
    ensures |s| <= n
  {
    if n == 0 {
      assert forall x :: x !in s;
    } else {
      BoundedSize(s - {n - 1}, n - 1);
      if n - 1 in s { assert s == (s - {n - 1}) + {n - 1}; } else { assert s == s - {n - 1}; }
    }
  }

  lemma FullUnpacks(ids: set<int>, u: int, p: Package, bytes: Term -> Bytes)
    requires FullPackage(ids, u, p) && Renders(bytes) && forall id :: id in ids ==> ValidId(id)
    ensures C.Unpack(Packed(p, bytes)) == Some(C.Package(Rendered(p.creds, bytes), Rendered(p.tids, bytes), bytes(p.tidNew)))
  {
    hide C.Unpack, C.Pack, C.Fits, FullPackage, Rendered, Renders, ValidId, C.TidOf;
    var creds, tids := Rendered(p.creds, bytes), Rendered(p.tids, bytes);
    FullFits(ids, u, p, bytes);
    C.RoundTrip(creds, tids, bytes(p.tidNew));
  }

  // The fields are wide enough for every enrolled id and every value a package holds.
  lemma FullFits(ids: set<int>, u: int, p: Package, bytes: Term -> Bytes)
    requires FullPackage(ids, u, p) && Renders(bytes) && forall id :: id in ids ==> ValidId(id)
    ensures var creds, tids := Rendered(p.creds, bytes), Rendered(p.tids, bytes);
            C.Fits(creds, tids, bytes(p.tidNew)) && WithTids(creds, tids) == tids
  {
    hide PairCredential, Renders, IsRotation, Size, C.Fits, WithTids;
    var creds, tids := Rendered(p.creds, bytes), Rendered(p.tids, bytes);
    SmallPackage(ids, u, p, bytes);
    assert creds.Keys == ids - {u} && tids.Keys == ids - {u};
    BoundedIds(ids, u);
    SmallFits(creds, tids, bytes(p.tidNew));
  }

  // An identity for every peer, as unpacking gives it.
  function WithTids(creds: map<int, Bytes>, tids: map<int, Bytes>): map<int, Bytes> {
    map id | id in creds :: C.TidOf(tids, id)
  }

  lemma SmallFits(creds: map<int, Bytes>, tids: map<int, Bytes>, tidNew: Bytes)
    requires |creds.Keys| < 65536 && tids.Keys == creds.Keys && |tidNew| == 16
    requires forall id :: id in creds ==> 0 <= id < 65536 && |creds[id]| == 32
    requires forall id :: id in tids ==> |tids[id]| == 16
    ensures C.Fits(creds, tids, tidNew) && WithTids(creds, tids) == tids
  {
    assert |creds| == |creds.Keys|;
    assert forall id :: id in creds.Keys ==> id in tids.Keys;
    assert WithTids(creds, tids).Keys == tids.Keys;
  }

  lemma SmallPackage(ids: set<int>, u: int, p: Package, bytes: Term -> Bytes)
    requires FullPackage(ids, u, p) && Renders(bytes)
    ensures |bytes(p.tidNew)| == 16
    ensures forall id :: id in p.creds ==> |bytes(p.creds[id])| == 32
    ensures forall id :: id in p.tids ==> |bytes(p.tids[id])| == 16
  {
    assert |bytes(p.tidNew)| == Size(p.tidNew);
    forall id | id in p.creds ensures |bytes(p.creds[id])| == 32 { assert |bytes(p.creds[id])| == Size(p.creds[id]); }
    forall id | id in p.tids ensures |bytes(p.tids[id])| == 16 { assert |bytes(p.tids[id])| == Size(p.tids[id]); }
  }

  lemma BoundedIds(ids: set<int>, u: int)
    requires forall id :: id in ids ==> ValidId(id)
    ensures |ids - {u}| < 65536
  {
    BoundedSize(ids - {u}, 0xFFFF);
  }

  // Over all runs: whatever the ground station has packed and sealed unpacks, so a UAV that opens a package never has
  // to refuse it as malformed.
  lemma SealedUnpacks(c: Config, w0: World, events: seq<Event>, i: nat, bytes: Term -> Bytes)
    requires c.Valid() && Initial(c, w0) && Run(c, w0, events).Some? && i < |Run(c, w0, events).value.answers|
    requires Renders(bytes)
    ensures var sealed := Run(c, w0, events).value.answers[i].sealed;
            && sealed.Sealed?
            && C.Unpack(Packed(sealed.package, bytes)) ==
               Some(C.Package(Rendered(sealed.package.creds, bytes), Rendered(sealed.package.tids, bytes),
                              bytes(sealed.package.tidNew)))
  {
    hide *;
    RunInv(c, w0, events);
    var w := Run(c, w0, events).value;
    AnswersAre(c, w, i);
    AnswerFull(c.ids, w.answers[i]);
    IdsAre(c);
    FullUnpacks(c.ids, w.answers[i].uav, w.answers[i].sealed.package, bytes);
  }

  lemma IdsAre(c: Config) requires c.Valid() ensures forall id :: id in c.ids ==> ValidId(id) {}

  // Over all runs: a UAV that accepts M4 installs exactly what unpacking the ground station's bytes gives, the pair's
  // credential and the enrolled identity of every other UAV.
  lemma AcceptedUnpacks(c: Config, w0: World, events: seq<Event>, u: int, m: Message, bytes: Term -> Bytes)
    requires c.Valid() && Initial(c, w0) && Run(c, w0, events).Some? && Renders(bytes)
    requires Enabled(c, Run(c, w0, events).value, UavM4(u, m))
    requires U.OnM4(Run(c, w0, events).value.uavs[u], m).outcome.Accepted?
    ensures var w := Run(c, w0, events).value;
            var x := U.OnM4(w.uavs[u], m).next;
            && CRED_PKG in m.fields && m.fields[CRED_PKG].Sealed?
            && (exists i :: 0 <= i < |w.answers| && w.answers[i].uav == u && w.answers[i].sealed == m.fields[CRED_PKG])
            && C.Unpack(Packed(m.fields[CRED_PKG].package, bytes)) ==
               Some(C.Package(Rendered(x.phase2.creds, bytes), Rendered(x.phase2.tids, bytes), bytes(x.tid)))
            && x.phase2.creds == (map p | p in c.ids && p != u :: PairCredential(u, p))
            && x.phase2.tids == (map p | p in c.ids && p != u :: FirstTid(Master(p), p))
  {
    hide *;
    M4EventIs(c, Run(c, w0, events).value, u, m);
    Phase2Agreement(c, w0, events, u, m);
    var w := Run(c, w0, events).value;
    var i :| 0 <= i < |w.answers| && AnsweredBy(w.answers[i], u, w.uavs[u], m);
    AnsweredByIs(w.answers[i], u, w.uavs[u], m);
    SealedUnpacks(c, w0, events, i, bytes);
    RunInv(c, w0, events);
    AnswersAre(c, w, i);
    AnswerFull(c.ids, w.answers[i]);
    InstalledIs(c.ids, w.uavs[u], u, m);
  }

  lemma AnsweredByIs(a: Answer, u: int, x: U.State, m: Message)
    requires AnsweredBy(a, u, x, m)
    ensures a.uav == u && CRED_PKG in m.fields && a.sealed == m.fields[CRED_PKG]
  {}

  lemma InstalledIs(ids: set<int>, x: U.State, u: int, m: Message)
    requires U.OnM4(x, m).outcome.Accepted? && CRED_PKG in m.fields && m.fields[CRED_PKG].Sealed?
    requires FullPackage(ids, u, m.fields[CRED_PKG].package)
    ensures var s, p := U.OnM4(x, m).next, m.fields[CRED_PKG].package;
            && s.phase2.creds == p.creds && s.phase2.tids == p.tids && s.tid == p.tidNew
            && s.phase2.tids == map q | q in ids && q != u :: FirstTid(Master(q), q)
  {
    hide U.Opens, PairCredential;
  }
}
