// Protocol values under ideal cryptography: every derived key, tag, package and shared secret is a term,
// so that distinct inputs give distinct values and nothing but equality can be learned from them.
module Symbols {
  import opened Wrappers

  datatype Term =
    | Empty                                  // the empty byte string
    | Opaque(id: nat, size: nat)             // any other string the network makes up
    | Nonce(n: nat)                          // sixteen random bytes
    | Stamp(ms: nat)                         // any four bytes
    | Id(v: nat)                             // any two bytes
    | Share(scalar: nat)                     // the X25519 public key of a scalar
    | LowOrder(n: nat)                       // a 32-byte point of small order
    | Dh(low: nat, high: nat)                // the secret shared by two scalars
    | DhWith(scalar: nat, point: Term)       // the secret of a scalar and a point that is no scalar's public key
    | Master(uav: int)                       // the key enrolled for a UAV
    | Garbled(n: nat)                        // a wrong key, from a response outside the decoding radius
    | PairCred(low: nat, high: nat)
    | AuthKey(mk: Term)
    | SessionKey(mk: Term, shared: Term, transcript: seq<Input>)
    | AeadKey(session: Term)
    | AeadNonce(session: Term)
    | FirstTid(mk: Term, uav: int)
    | NextTid(mk: Term, tid: Term, n1: Term, n2: Term)
    | PeerAuthKey(cred: Term)
    | PeerKey(cred: Term, shared: Term, transcript: seq<Input>)
    | Mac(key: Term, text: seq<Input>)
    | Sealed(key: Term, nonce: Term, aad: Input, package: Package)

  // What a tag is computed over: one constructor for each message type and its signed fields.
  datatype Input =
    | InputM1(suite: nat, tid: Term, n1: Term, t1: Term, epkA: Term)
    | InputM2(suite: nat, tid: Term, n1: Term, n2: Term, t2: Term, epkA: Term, epkB: Term)
    | InputM3(suite: nat, tid: Term)
    | AadM4(suite: nat, tid: Term, n1: Term, n2: Term)
    | InputP1(suite: nat, sender: Term, receiver: Term, n1: Term, t: Term, epkA: Term)
    | InputP2(suite: nat, sender: Term, receiver: Term, n1: Term, n2: Term, epkA: Term, epkB: Term)
    | InputP3(suite: nat)

  datatype Package = Package(creds: map<int, Term>, tids: map<int, Term>, tidNew: Term)

  const NONCE_LEN: nat := 16
  const X25519_LEN: nat := 32

  function Size(t: Term): nat {
    match t
    case Empty => 0
    case Opaque(_, n) => n
    case Nonce(_) => 16
    case Stamp(_) => 4
    case Id(_) => 2
    case FirstTid(_, _) => 16
    case NextTid(_, _, _, _) => 16
    case Mac(_, _) => 16
    case _ => 32
  }

  // Throws unless the field has four bytes.
  function DecodeStamp(t: Term): Option<nat> { if t.Stamp? then Some(t.ms) else None }

  // The ground station, -1, is 0xFFFF on the wire.
  function EncodeId(id: int): Term { if id < 0 then Id(0xFFFF) else Id(id % 0x1_0000) }

  // Throws unless the field has two bytes.
  function DecodeId(t: Term): Option<int> {
    if t.Id? && t.v < 0x1_0000 then Some(if t.v == 0xFFFF then -1 else t.v) else None
  }

  function TimestampFresh(now: nat, ms: nat, window: nat): bool {
    (if now >= ms then now - ms else ms - now) <= window
  }

  // An ephemeral key pair; erasing it removes the secret.
  datatype KeyPair = KeyPair(secret: Option<nat>, publicKey: Term) {
    function Erase(): KeyPair { this.(secret := None) }
  }

  function Generate(scalar: nat): KeyPair { KeyPair(Some(scalar), Share(scalar)) }

  // Fails on an erased secret, on a peer key of the wrong length, and on a point of small order.
  function Derive(secret: Option<nat>, peer: Term): Option<Term> {
    if secret.None? || Size(peer) != X25519_LEN || peer.LowOrder? then None else
      var a := secret.value;
      Some(if !peer.Share? then DhWith(a, peer) else if a <= peer.scalar then Dh(a, peer.scalar) else Dh(peer.scalar, a))
  }

  // What a scalar and another's public key give.
  function Shared(a: nat, b: nat): Term { Derive(Some(a), Share(b)).value }

  lemma DhCommutes(a: nat, b: nat)
    ensures Derive(Some(a), Share(b)) == Derive(Some(b), Share(a))
  {}

  // The credential of a pair does not depend on the order of the two ids.
  function PairCredential(a: int, b: int): Term {
    var lo, hi := if a <= b then a else b, if a <= b then b else a;
    PairCred(lo % 0x1_0000, hi % 0x1_0000)
  }

  predicate ValidId(id: int) { 0 <= id < 0xFFFF }

  // Pairs of enrolled UAVs have the same credential only if they are the same pair.
  lemma PairCredentialUnique(a: int, b: int, c: int, d: int)
    requires ValidId(a) && ValidId(b) && ValidId(c) && ValidId(d)
    ensures PairCredential(a, b) == PairCredential(b, a)
    ensures PairCredential(a, b) == PairCredential(c, d) <==> (a == c && b == d) || (a == d && b == c)
  {}

  lemma EncodeIdUnique(a: int, b: int)
    requires ValidId(a) && ValidId(b) && EncodeId(a) == EncodeId(b)
    ensures a == b
  {}

  // ---------- messages ----------

  datatype MessageType = M1AuthRequest | M2GsResponse | M3UavConfirm | M4GsConfirm
                       | P1PeerRequest | P2PeerResponse | P3PeerComplete | OtherType

  datatype FieldId = TID | NONCE_1 | NONCE_2 | TIMESTAMP | EPK_A | EPK_B | MAC_TAG | AEAD_NONCE | CRED_PKG
                   | SENDER_ID | RECEIVER_ID

  datatype Message = Message(kind: MessageType, suite: nat, sender: int, receiver: int, fields: map<FieldId, Term>) {
    predicate Has(ids: set<FieldId>) { ids <= fields.Keys }
  }

  datatype AbortReason = UnknownIdentity | StaleTimestamp | ReplayedNonce | MacVerifyFailed | AeadOpenFailed
                       | MissingField | MalformedField | DhFailed | FuzzyExtractorFailed | NoSuchPeer
                       | NotAuthenticated | UnexpectedMessage

  datatype Outcome = Aborted(reason: AbortReason) | Accepted | Replied(reply: Message)
}
