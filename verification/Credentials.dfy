// The credential package of message M4: count, then for every peer its id, credential and identity, then the new identity.
module Credentials {
  import opened Wrappers
  import opened Bits
  import opened Encoding
  import opened OrderedKeys

  datatype Package = Package(creds: map<int, Bytes>, tids: map<int, Bytes>, tidNew: Bytes)

  // A peer without a known identity gets an empty one.
  function TidOf(tids: map<int, Bytes>, id: int): Bytes { if id in tids then tids[id] else [] }

  function Entry(id: int, cred: Bytes, tid: Bytes): Bytes {
    U16be(id) + LengthPrefixed(cred) + LengthPrefixed(tid)
  }

  function Entries(ids: seq<int>, creds: map<int, Bytes>, tids: map<int, Bytes>): Bytes
    requires forall id :: id in ids ==> id in creds
  {
    if |ids| == 0 then [] else
      var id := ids[|ids| - 1];
      Entries(ids[..|ids| - 1], creds, tids) + Entry(id, creds[id], TidOf(tids, id))
  }

  function Pack(creds: map<int, Bytes>, tids: map<int, Bytes>, tidNew: Bytes): Bytes {
    U16be(|creds|) + Entries(Ascending(creds.Keys), creds, tids) + LengthPrefixed(tidNew)
  }

  method PackCredentials(creds: map<int, Bytes>, tids: map<int, Bytes>, tidNew: Bytes) returns (out: Bytes)
    ensures out == Pack(creds, tids, tidNew)
  {
    hide U16be, LengthPrefixed, Entries, Ascending, TidOf;
    var ids := Ascending(creds.Keys);
    out := U16be(|creds|);
    EntriesOfNone(ids, creds, tids);
    assert out == out + [];
    for i := 0 to |ids|
      invariant forall id :: id in ids[..i] ==> id in creds
      invariant out == U16be(|creds|) + Entries(ids[..i], creds, tids)
    {
      EntriesNext(ids, i, creds, tids);
      var id := ids[i];
      EntryInPieces(U16be(|creds|), Entries(ids[..i], creds, tids), id, creds[id], TidOf(tids, id));
      out := out + U16be(id);
      out := out + LengthPrefixed(creds[id]);
      out := out + LengthPrefixed(TidOf(tids, id));
    }
    assert ids[..|ids|] == ids;
    out := out + LengthPrefixed(tidNew);
  }

  lemma EntriesNext(ids: seq<int>, i: nat, creds: map<int, Bytes>, tids: map<int, Bytes>)
    requires i < |ids| && forall id :: id in ids ==> id in creds
    ensures forall id :: id in ids[..i] || id in ids[..i + 1] ==> id in creds
    ensures Entries(ids[..i + 1], creds, tids)
         == Entries(ids[..i], creds, tids) + Entry(ids[i], creds[ids[i]], TidOf(tids, ids[i]))
  {
    hide Entry, TidOf;
    assert ids[..i + 1][..i] == ids[..i];
  }

  lemma EntriesOfNone(ids: seq<int>, creds: map<int, Bytes>, tids: map<int, Bytes>)
    ensures Entries(ids[..0], creds, tids) == []
  {}

  lemma EntryInPieces(head: Bytes, body: Bytes, id: int, cred: Bytes, tid: Bytes)
    ensures head + body + U16be(id) + LengthPrefixed(cred) + LengthPrefixed(tid) == head + (body + Entry(id, cred, tid))
  {
    hide U16be, LengthPrefixed;
  }

  // ---------- reading ----------

  datatype Field = Field(value: Bytes, next: nat)

  function ReadField(blob: Bytes, at: nat): (r: Option<Field>)
    ensures r.Some? ==> at < r.value.next <= |blob|
  {
    match ReadU16be(blob, at)
    case None => None
    case Some(n) => if at + 2 + n > |blob| then None else Some(Field(blob[at + 2..at + 2 + n], at + 2 + n))
  }

  datatype Table = Table(creds: map<int, Bytes>, tids: map<int, Bytes>, next: nat)

  function ReadEntry(blob: Bytes, t: Table): (r: Option<Table>) {
    match ReadU16be(blob, t.next)
    case None => None
    case Some(id) =>
      match ReadField(blob, t.next + 2)
      case None => None
      case Some(cred) =>
        match ReadField(blob, cred.next)
        case None => None
        case Some(tid) => Some(Table(t.creds[id := cred.value], t.tids[id := tid.value], tid.next))
  }

  function ReadEntries(blob: Bytes, count: nat, t: Table): Option<Table>
    decreases count
  {
    if count == 0 then Some(t) else
      match ReadEntry(blob, t)
      case None => None
      case Some(u) => ReadEntries(blob, count - 1, u)
  }

  function Unpack(blob: Bytes): Option<Package> {
    match ReadU16be(blob, 0)
    case None => None
    case Some(count) =>
      match ReadEntries(blob, count, Table(map[], map[], 2))
      case None => None
      case Some(t) =>
        match ReadU16be(blob, t.next)
        case None => None
        case Some(n) =>
          if t.next + 2 + n != |blob| then None else Some(Package(t.creds, t.tids, blob[t.next + 2..]))
  }

  // Reads one entry: id, credential, identity.
  method UnpackEntry(blob: Bytes, creds: map<int, Bytes>, tids: map<int, Bytes>, at: nat)
    returns (ok: bool, credsOut: map<int, Bytes>, tidsOut: map<int, Bytes>, next: nat)
    ensures ok <==> ReadEntry(blob, Table(creds, tids, at)).Some?
    ensures ok ==> ReadEntry(blob, Table(creds, tids, at)) == Some(Table(credsOut, tidsOut, next))
  {
    hide ReadU16be;
    ok, credsOut, tidsOut, next := false, creds, tids, at;
    var peer := ReadU16be(blob, next);
    if peer.None? { return; }
    next := next + 2;
    var credLen := ReadU16be(blob, next);
    if credLen.None? { return; }
    next := next + 2;
    if next + credLen.value > |blob| { return; }
    credsOut := credsOut[peer.value := blob[next..next + credLen.value]];
    next := next + credLen.value;
    var tidLen := ReadU16be(blob, next);
    if tidLen.None? { return; }
    next := next + 2;
    if next + tidLen.value > |blob| { return; }
    tidsOut := tidsOut[peer.value := blob[next..next + tidLen.value]];
    next := next + tidLen.value;
    ok := true;
  }

  // On failure the maps may hold the entries read so far; the caller discards them.
  method UnpackCredentials(blob: Bytes) returns (ok: bool, creds: map<int, Bytes>, tids: map<int, Bytes>, tidNew: Bytes)
    ensures ok <==> Unpack(blob).Some?
    ensures ok ==> Unpack(blob) == Some(Package(creds, tids, tidNew))
  {
    hide ReadU16be, ReadEntry;
    ok, creds, tids, tidNew := false, map[], map[], [];
    var count := ReadU16be(blob, 0);
    if count.None? { return; }
    var off: nat := 2;
    var i := 0;
    while i < count.value
      invariant 0 <= i <= count.value
      invariant ReadEntries(blob, count.value - i, Table(creds, tids, off))
             == ReadEntries(blob, count.value, Table(map[], map[], 2))
    {
      var read: bool;
      ghost var before := Table(creds, tids, off);
      read, creds, tids, off := UnpackEntry(blob, creds, tids, off);
      assert !read ==> ReadEntries(blob, count.value - i, before).None?;
      if !read { return; }
      i := i + 1;
    }
    var tidLen := ReadU16be(blob, off);
    if tidLen.None? { return; }
    off := off + 2;
    if off + tidLen.value != |blob| { return; }
    tidNew := blob[off..];
    ok := true;
  }

  // ---------- round trip ----------

  // Ids, lengths and the number of entries all fit their sixteen-bit fields.
  predicate Fits(creds: map<int, Bytes>, tids: map<int, Bytes>, tidNew: Bytes) {
    && |creds| < 65536
    && |tidNew| < 65536
    && forall id :: id in creds ==> 0 <= id < 65536 && |creds[id]| < 65536 && |TidOf(tids, id)| < 65536
  }

  lemma ReadFieldWritten(before: Bytes, x: Bytes, after: Bytes)
    requires |x| < 65536
    ensures ReadField(before + LengthPrefixed(x) + after, |before|) == Some(Field(x, |before| + 2 + |x|))
  {
    hide U16be, ReadU16be;
    var blob := before + LengthPrefixed(x) + after;
    ReadWritten(before, |x|, x + after);
    assert blob == before + U16be(|x|) + (x + after);
    assert blob[|before| + 2..|before| + 2 + |x|] == x;
  }

  lemma ReadEntryWritten(before: Bytes, id: int, cred: Bytes, tid: Bytes, after: Bytes, t: Table)
    requires 0 <= id < 65536 && |cred| < 65536 && |tid| < 65536 && t.next == |before|
    ensures ReadEntry(before + Entry(id, cred, tid) + after, t)
         == Some(Table(t.creds[id := cred], t.tids[id := tid], |before| + |Entry(id, cred, tid)|))
  {
    hide U16be, ReadU16be, ReadField, LengthPrefixed;
    var blob := before + Entry(id, cred, tid) + after;
    var c, d := LengthPrefixed(cred), LengthPrefixed(tid);
    ReadWritten(before, id, c + d + after);
    assert blob == before + U16be(id) + (c + d + after);
    ReadFieldWritten(before + U16be(id), cred, d + after);
    assert blob == (before + U16be(id)) + c + (d + after);
    ReadFieldWritten(before + U16be(id) + c, tid, after);
    assert blob == (before + U16be(id) + c) + d + after;
    PrefixedLength(cred);
    PrefixedLength(tid);
  }

  lemma PrefixedLength(b: Bytes)
    ensures |LengthPrefixed(b)| == 2 + |b|
  {}

  // What has been read after the entries of ids.
  function Restricted(ids: seq<int>, creds: map<int, Bytes>): map<int, Bytes>
    requires forall id :: id in ids ==> id in creds
  {
    map id | id in ids :: creds[id]
  }

  function Tids(ids: seq<int>, tids: map<int, Bytes>): map<int, Bytes> {
    map id | id in ids :: TidOf(tids, id)
  }

  lemma Reassociate(a: Bytes, b: Bytes, c: Bytes)
    ensures a + b + c == a + (b + c)
  {}

  lemma {:induction false} EntriesSplit(ids: seq<int>, k: nat, creds: map<int, Bytes>, tids: map<int, Bytes>)
    requires k < |ids| && forall id :: id in ids ==> id in creds
    ensures exists after :: Entries(ids, creds, tids)
                         == Entries(ids[..k], creds, tids) + Entry(ids[k], creds[ids[k]], TidOf(tids, ids[k])) + after
  {
    hide Entry;
    var n := |ids| - 1;
    var e := Entry(ids[n], creds[ids[n]], TidOf(tids, ids[n]));
    if k == n {
      assert Entries(ids, creds, tids) == Entries(ids[..k], creds, tids) + e + [];
    } else {
      EntriesSplit(ids[..n], k, creds, tids);
      assert ids[..n][..k] == ids[..k];
      var f := Entry(ids[k], creds[ids[k]], TidOf(tids, ids[k]));
      var after :| Entries(ids[..n], creds, tids) == Entries(ids[..k], creds, tids) + f + after;
      Reassociate(Entries(ids[..k], creds, tids) + f, after, e);
    }
  }

  // The table once the first k entries have been read.
  function TableAt(ids: seq<int>, k: nat, creds: map<int, Bytes>, tids: map<int, Bytes>): Table
    requires k <= |ids| && forall id :: id in ids ==> id in creds
  {
    Table(Restricted(ids[..k], creds), Tids(ids[..k], tids), 2 + |Entries(ids[..k], creds, tids)|)
  }

  lemma TableNext(ids: seq<int>, k: nat, creds: map<int, Bytes>, tids: map<int, Bytes>)
    requires k < |ids| && forall id :: id in ids ==> id in creds
    ensures TableAt(ids, k + 1, creds, tids)
         == Table(TableAt(ids, k, creds, tids).creds[ids[k] := creds[ids[k]]],
                  TableAt(ids, k, creds, tids).tids[ids[k] := TidOf(tids, ids[k])],
                  TableAt(ids, k, creds, tids).next + |Entry(ids[k], creds[ids[k]], TidOf(tids, ids[k]))|)
  {
    hide Entry, TidOf, Entries;
    EntriesNext(ids, k, creds, tids);
    var id := ids[k];
    var t := TableAt(ids, k, creds, tids);
    assert ids[..k + 1] == ids[..k] + [id];
    assert Restricted(ids[..k + 1], creds) == t.creds[id := creds[id]];
    assert Tids(ids[..k + 1], tids) == t.tids[id := TidOf(tids, id)];
  }

  lemma ReadNext(head: Bytes, ids: seq<int>, k: nat, creds: map<int, Bytes>, tids: map<int, Bytes>, tail: Bytes)
    requires k < |ids| && |head| == 2 && forall id :: id in ids ==> id in creds
    requires 0 <= ids[k] < 65536 && |creds[ids[k]]| < 65536 && |TidOf(tids, ids[k])| < 65536
    ensures ReadEntry(head + Entries(ids, creds, tids) + tail, TableAt(ids, k, creds, tids))
         == Some(TableAt(ids, k + 1, creds, tids))
  {
    hide Entry, ReadEntry, TidOf, Entries;
    var id := ids[k];
    var e := Entry(id, creds[id], TidOf(tids, id));
    EntriesSplit(ids, k, creds, tids);
    var after :| Entries(ids, creds, tids) == Entries(ids[..k], creds, tids) + e + after;
    var before := head + Entries(ids[..k], creds, tids);
    assert head + Entries(ids, creds, tids) + tail == before + e + (after + tail);
    ReadEntryWritten(before, id, creds[id], TidOf(tids, id), after + tail, TableAt(ids, k, creds, tids));
    TableNext(ids, k, creds, tids);
  }

  // Reading on from entry k gives the whole table.
  lemma {:induction false} ReadAll(head: Bytes, ids: seq<int>, k: nat, creds: map<int, Bytes>, tids: map<int, Bytes>, tail: Bytes)
    requires k <= |ids| && |head| == 2
    requires forall id :: id in ids ==> id in creds && 0 <= id < 65536 && |creds[id]| < 65536 && |TidOf(tids, id)| < 65536
    ensures ReadEntries(head + Entries(ids, creds, tids) + tail, |ids| - k, TableAt(ids, k, creds, tids))
         == Some(TableAt(ids, |ids|, creds, tids))
    decreases |ids| - k
  {
    hide Entry, ReadEntry, TidOf, Entries, TableAt;
    if k < |ids| {
      assert ids[k] in ids;
      ReadNext(head, ids, k, creds, tids, tail);
      ReadAll(head, ids, k + 1, creds, tids, tail);
    }
  }

  // Unpacking a package gives back every credential, an identity for every peer, and the new identity.
  lemma RoundTrip(creds: map<int, Bytes>, tids: map<int, Bytes>, tidNew: Bytes)
    requires Fits(creds, tids, tidNew)
    ensures Unpack(Pack(creds, tids, tidNew))
         == Some(Package(creds, map id | id in creds :: TidOf(tids, id), tidNew))
  {
    hide U16be, ReadU16be, LengthPrefixed, Entries, ReadEntries, Ascending, TidOf, Unpack, TableAt;
    var ids := Ascending(creds.Keys);
    var head, body := U16be(|creds|), Entries(ids, creds, tids);
    var blob := head + body + LengthPrefixed(tidNew);
    ReadCount(|creds|, body + LengthPrefixed(tidNew));
    assert blob == head + (body + LengthPrefixed(tidNew));
    assert forall id :: id in ids ==> id in creds.Keys;
    ReadAll(head, ids, 0, creds, tids, LengthPrefixed(tidNew));
    TableEnds(creds, tids, ids);
    ReadLast(head + body, tidNew);
    UnpackParts(blob, |creds|, TableAt(ids, |ids|, creds, tids), |tidNew|);
  }

  lemma UnpackParts(blob: Bytes, count: nat, t: Table, n: nat)
    requires ReadU16be(blob, 0) == Some(count)
    requires ReadEntries(blob, count, Table(map[], map[], 2)) == Some(t)
    requires ReadU16be(blob, t.next) == Some(n) && t.next + 2 + n == |blob|
    ensures Unpack(blob) == Some(Package(t.creds, t.tids, blob[t.next + 2..]))
  {}

  lemma ReadCount(count: nat, rest: Bytes)
    requires count < 65536
    ensures ReadU16be(U16be(count) + rest, 0) == Some(count)
  {
    hide U16be, ReadU16be;
    ReadWritten([], count, rest);
    assert U16be(count) + rest == [] + U16be(count) + rest;
  }

  lemma TableEnds(creds: map<int, Bytes>, tids: map<int, Bytes>, ids: seq<int>)
    requires forall id :: id in ids <==> id in creds
    ensures TableAt(ids, 0, creds, tids) == Table(map[], map[], 2)
    ensures TableAt(ids, |ids|, creds, tids)
         == Table(creds, map id | id in creds :: TidOf(tids, id), 2 + |Entries(ids, creds, tids)|)
  {
    hide TidOf;
    EntriesOfNone(ids, creds, tids);
    hide Entries;
    assert ids[..|ids|] == ids;
    var r := Restricted(ids, creds);
    assert forall id :: id in r <==> id in creds;
    assert r.Keys == creds.Keys && forall id :: id in creds ==> r[id] == creds[id];
    assert r == creds;
  }

  lemma ReadLast(before: Bytes, tidNew: Bytes)
    requires |tidNew| < 65536
    ensures ReadU16be(before + LengthPrefixed(tidNew), |before|) == Some(|tidNew|)
    ensures |before + LengthPrefixed(tidNew)| == |before| + 2 + |tidNew|
    ensures (before + LengthPrefixed(tidNew))[|before| + 2..] == tidNew
  {
    hide U16be, ReadU16be;
    ReadWritten(before, |tidNew|, tidNew);
    assert before + LengthPrefixed(tidNew) == before + U16be(|tidNew|) + tidNew;
  }

  // ---------- exactness ----------

  // Reading does not look past what it reads.
  lemma ReadEntryPrefix(a: Bytes, c: Bytes, t: Table)
    requires ReadEntry(a, t).Some?
    ensures ReadEntry(a + c, t) == ReadEntry(a, t)
  {
    hide NatOf, ReadField, ReadU16be;
    ReadFieldPrefix(a, c, t.next);
    ReadFieldPrefix(a, c, t.next + 2);
    ReadFieldPrefix(a, c, ReadField(a, t.next + 2).value.next);
  }

  lemma ReadFieldPrefix(a: Bytes, c: Bytes, at: nat)
    ensures ReadU16be(a, at).Some? ==> ReadU16be(a + c, at) == ReadU16be(a, at)
    ensures ReadField(a, at).Some? ==> ReadField(a + c, at) == ReadField(a, at)
  {
    hide NatOf;
    if ReadField(a, at).Some? {
      var n := ReadField(a, at).value.next;
      assert (a + c)[at + 2..n] == a[at + 2..n];
    }
  }

  lemma {:induction false} ReadEntriesPrefix(a: Bytes, c: Bytes, count: nat, t: Table)
    requires ReadEntries(a, count, t).Some?
    ensures ReadEntries(a + c, count, t) == ReadEntries(a, count, t)
    decreases count
  {
    hide ReadEntry;
    if count > 0 {
      ReadEntryPrefix(a, c, t);
      ReadEntriesPrefix(a, c, count - 1, ReadEntry(a, t).value);
    }
  }

  // Nothing may follow a package and nothing may be cut off: of two blobs that unpack, neither is a prefix of the other.
  lemma PrefixFree(a: Bytes, b: Bytes)
    requires Unpack(a).Some? && Unpack(b).Some? && a <= b
    ensures a == b
  {
    hide ReadEntries, ReadU16be;
    var c := b[|a|..];
    assert b == a + c;
    ReadFieldPrefix(a, c, 0);
    var count := ReadU16be(a, 0).value;
    ReadEntriesPrefix(a, c, count, Table(map[], map[], 2));
    var t := ReadEntries(a, count, Table(map[], map[], 2)).value;
    ReadFieldPrefix(a, c, t.next);
  }

  // An entry sets the credential and the identity of the peer it names, replacing earlier ones, and no other.
  lemma EntryRead(blob: Bytes, t: Table)
    requires ReadEntry(blob, t).Some?
    ensures var u, id := ReadEntry(blob, t).value, ReadU16be(blob, t.next).value;
            var cred := ReadField(blob, t.next + 2).value;
            && id in u.creds && u.creds[id] == cred.value && id in u.tids
            && u.tids[id] == ReadField(blob, cred.next).value.value
            && u.creds - {id} == t.creds - {id} && u.tids - {id} == t.tids - {id}
  {
    hide NatOf;
  }
}
