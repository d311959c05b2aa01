/** One side of a pairing exchange and the book of offers (shared/security/src/pairing.cpp).

    The group is a parameter: group elements are byte strings and only the laws in `Lawful`
    are used about them.  The session-key hash and the signatures are ideal: a key stands
    for exactly the secret and transcript it was derived from, and a signature for its
    signer and message. */
module Pairing {
  import opened Encoding

  // ---------------------------------------------------------------- ideal primitives

  datatype Group = Group(
    generator: Bytes -> Bytes,      // hash-to-group of an encoded seed
    times: (nat, Bytes) -> Bytes,   // scalar multiplication
    isPoint: Bytes -> bool)
  {
    /** A valid element other than the identity, whose encoding is all zeros. */
    predicate Usable(p: Bytes) {
      isPoint(p) && !IsZero(p)
    }

    ghost predicate Lawful() {
      && (forall seed: Bytes :: Usable(generator(seed)))
      && (forall p: Bytes {:trigger Usable(p)} | Usable(p) :: |p| < LIMIT)
      && (forall x: nat, p: Bytes | Usable(p) :: Usable(times(x, p)))
      && (forall x: nat, y: nat, p: Bytes | Usable(p) :: times(x, times(y, p)) == times(y, times(x, p)))
      && (forall x: nat, p: Bytes, q: Bytes {:trigger times(x, p), times(x, q)}
            | Usable(p) && Usable(q) && times(x, p) == times(x, q) :: p == q)
    }
  }

  predicate IsZero(p: Bytes) {
    forall i | 0 <= i < |p| :: p[i] == 0
  }

  /** A toy group: 250 points, on which scalar x moves x places round a circle. */
  function Circle(x: nat, p: Bytes): Bytes
    requires |p| == 1
  {
    [((p[0] as int + x) % 250 + 1) as byte]
  }

  predicate OnCircle(p: Bytes) {
    |p| == 1 && 0 < p[0] <= 250
  }

  lemma CircleCommutes(x: nat, y: nat, p: Bytes)
    requires OnCircle(p)
    ensures Circle(x, Circle(y, p)) == Circle(y, Circle(x, p))
  {
    var k := p[0] as int;
    ModAdd(k + y, x + 1);
    ModAdd(k + x, y + 1);
  }

  lemma ModAdd(a: nat, b: nat)
    ensures (a % 250 + b) % 250 == (a + b) % 250
  {
  }

  lemma CircleInjective(x: nat, p: Bytes, q: Bytes)
    requires OnCircle(p) && OnCircle(q) && Circle(x, p) == Circle(x, q)
    ensures p == q
  {
    assert (p[0] as int + x) % 250 == (q[0] as int + x) % 250;
  }

  /** The laws can be met, by a group in which scalars can be told apart. */
  lemma LawfulGroupExists() returns (g: Group)
    ensures g.Lawful()
    ensures forall seed: Bytes :: var p := g.generator(seed);
      g.times(0, p) != g.times(1, p) && g.times(0, p) != g.times(2, p) && g.times(1, p) != g.times(2, p)
  {
    var one: Bytes := [1];
    g := Group(seed => one, (x: nat, p: Bytes) => if OnCircle(p) then Circle(x, p) else p, OnCircle);
    forall x: nat, y: nat, p: Bytes | g.Usable(p)
      ensures g.times(x, g.times(y, p)) == g.times(y, g.times(x, p))
    {
      CircleCommutes(x, y, p);
    }
    forall x: nat, p: Bytes, q: Bytes | g.Usable(p) && g.Usable(q) && g.times(x, p) == g.times(x, q)
      ensures p == q
    {
      CircleInjective(x, p, q);
    }
    forall x: nat, p: Bytes | g.Usable(p)
      ensures g.Usable(g.times(x, p))
    {
      CircleUsable(Circle(x, p));
    }
    CircleUsable(one);
    assert Circle(0, one)[0] == 2 && Circle(1, one)[0] == 3 && Circle(2, one)[0] == 4;
  }

  lemma CircleUsable(p: Bytes)
    requires OnCircle(p)
    ensures !IsZero(p)
  {
    assert p[0] != 0;
  }

  datatype SessionKey = SessionKey(secret: Bytes, transcript: Bytes)

  /** What a signature covers: the auth label, the transcript and the session key. */
  datatype Auth = Auth(transcript: Bytes, key: SessionKey)

  datatype Signature = Sig(signer: Bytes, auth: Auth) | NoSignature

  predicate Verifies(signer: Bytes, auth: Auth, sig: Signature) {
    sig == Sig(signer, auth)
  }

  // ---------------------------------------------------------------- the exchange

  function Ascii(s: string): Bytes {
    seq(|s|, i requires 0 <= i < |s| => (s[i] as int % 256) as byte)
  }

  const GENERATOR_LABEL: Bytes := Ascii("SmartMic-CPace-v1-generator")
  const TRANSCRIPT_LABEL: Bytes := Ascii("SmartMic-CPace-v1-transcript")
  const VERSION: Bytes := [1, 0, 0, 0]

  datatype Role = Initiator | Responder

  datatype PairingError = NoError | NotReady | InvalidPeerElement | ScalarMultFailed | BadSignature | WrongState

  function SeedFields(code: Bytes, session: Bytes): Fields {
    And(And(And(Start, GENERATOR_LABEL), code), session)
  }

  function Seed(code: Bytes, session: Bytes): Bytes {
    Encode(SeedFields(code, session))
  }

  function TranscriptFields(session: Bytes, initiatorKey: Bytes, responderKey: Bytes,
                            initiatorShare: Bytes, responderShare: Bytes): Fields
  {
    And(And(And(And(And(And(And(Start,
      TRANSCRIPT_LABEL), VERSION), session), initiatorKey), responderKey), initiatorShare), responderShare)
  }

  /** The public half of an exchange; both sides order it by role. */
  function Transcript(session: Bytes, initiatorKey: Bytes, responderKey: Bytes,
                      initiatorShare: Bytes, responderShare: Bytes): Bytes
  {
    Encode(TranscriptFields(session, initiatorKey, responderKey, initiatorShare, responderShare))
  }

  datatype Exchange = Exchange(
    role: Role, self: Bytes, session: Bytes, scalar: nat, generator: Bytes, share: Bytes,
    derived: bool, peer: Bytes, peerShare: Bytes, auth: Auth)
  {
    function Key(): SessionKey { auth.key }

    /** The transcript with the given peer, in the order its role prescribes. */
    function TranscriptWith(peerKey: Bytes, theirShare: Bytes): Bytes {
      match role
      case Initiator => Transcript(session, self, peerKey, share, theirShare)
      case Responder => Transcript(session, peerKey, self, theirShare, share)
    }

    /** A derived exchange holds the key for its own share and the peer's. */
    ghost predicate Sound(g: Group) {
      && g.Usable(generator) && share == g.times(scalar, generator)
      && (derived ==>
            && g.Usable(peerShare)
            && auth == Auth(TranscriptWith(peer, peerShare),
                            SessionKey(g.times(scalar, peerShare), TranscriptWith(peer, peerShare))))
    }
  }

  const NO_AUTH: Auth := Auth([], SessionKey([], []))

  function NewExchange(g: Group, role: Role, self: Bytes, session: Bytes, code: Bytes, scalar: nat): Exchange {
    var gen := g.generator(Seed(code, session));
    Exchange(role, self, session, scalar, gen, g.times(scalar, gen), false, [], [], NO_AUTH)
  }

  /** Consumes the peer's public key and share, at most once. */
  function Receive(g: Group, e: Exchange, peer: Bytes, theirShare: Bytes): (Exchange, PairingError) {
    if e.derived then (e, WrongState)
    else if IsZero(theirShare) || !g.isPoint(theirShare) then (e, InvalidPeerElement)
    else if IsZero(g.times(e.scalar, theirShare)) then (e.(peer := peer, peerShare := theirShare), ScalarMultFailed)
    else
      var t := e.TranscriptWith(peer, theirShare);
      (e.(peer := peer, peerShare := theirShare, derived := true,
          auth := Auth(t, SessionKey(g.times(e.scalar, theirShare), t))), NoError)
  }

  function SignatureOf(e: Exchange): Signature {
    if e.derived then Sig(e.self, e.auth) else NoSignature
  }

  function Judge(e: Exchange, sig: Signature): PairingError {
    if !e.derived then NotReady
    else if Verifies(e.peer, e.auth, sig) then NoError
    else BadSignature
  }

  lemma ReceiveSound(g: Group, e: Exchange, peer: Bytes, theirShare: Bytes)
    requires g.Lawful() && e.Sound(g)
    ensures Receive(g, e, peer, theirShare).0.Sound(g)
    ensures Receive(g, e, peer, theirShare).1 == NoError <==> !e.derived && g.Usable(theirShare)
  {
  }

  /** Why a hello is refused: a second one, an element that is none or the identity, or a
      product that is the identity, in that order; and a refusal derives nothing. */
  lemma RefusedBecause(g: Group, e: Exchange, peer: Bytes, theirShare: Bytes)
    ensures var (t, why) := Receive(g, e, peer, theirShare);
      && (why == WrongState <==> e.derived)
      && (why == InvalidPeerElement <==> !e.derived && !g.Usable(theirShare))
      && (why == ScalarMultFailed <==> !e.derived && g.Usable(theirShare) && IsZero(g.times(e.scalar, theirShare)))
      && why != NotReady && why != BadSignature
      && (why != NoError ==> t.derived == e.derived && t.auth == e.auth)
      && (e.derived ==> t == e)
  {
  }

  predicate Short(session: Bytes, a: Bytes, b: Bytes) {
    |session| < LIMIT && |a| < LIMIT && |b| < LIMIT
  }

  lemma TranscriptEncodable(s: Bytes, ik: Bytes, rk: Bytes, iy: Bytes, ry: Bytes)
    requires Short(s, ik, rk) && Short(s, iy, ry)
    ensures TranscriptFields(s, ik, rk, iy, ry).Encodable()
  {
    var labels := And(And(Start, TRANSCRIPT_LABEL), VERSION);
    assert labels.Encodable();
    var keys := And(And(And(labels, s), ik), rk);
    assert And(labels, s).Encodable() && keys.Encodable();
    assert And(And(keys, iy), ry).Encodable();
  }

  /** Equal transcripts name the same session, the same keys and the same shares. */
  lemma TranscriptInjective(
    s: Bytes, ik: Bytes, rk: Bytes, iy: Bytes, ry: Bytes,
    s': Bytes, ik': Bytes, rk': Bytes, iy': Bytes, ry': Bytes)
    requires Short(s, ik, rk) && Short(s', ik', rk') && Short(s, iy, ry) && Short(s', iy', ry')
    requires Transcript(s, ik, rk, iy, ry) == Transcript(s', ik', rk', iy', ry')
    ensures s == s' && ik == ik' && rk == rk' && iy == iy' && ry == ry'
  {
    TranscriptEncodable(s, ik, rk, iy, ry);
    TranscriptEncodable(s', ik', rk', iy', ry');
    EncodeInjective(TranscriptFields(s, ik, rk, iy, ry), TranscriptFields(s', ik', rk', iy', ry'));
  }

  lemma SeedInjective(code: Bytes, session: Bytes, code': Bytes, session': Bytes)
    requires Short(session, code, code) && Short(session', code', code')
    requires Seed(code, session) == Seed(code', session')
    ensures code == code' && session == session'
  {
    assert And(And(Start, GENERATOR_LABEL), code).Encodable();
    assert And(And(Start, GENERATOR_LABEL), code').Encodable();
    EncodeInjective(SeedFields(code, session), SeedFields(code', session'));
  }

  /** What is hashed to a generator is never a transcript. */
  lemma SeedIsNoTranscript(code: Bytes, session: Bytes, s: Bytes, ik: Bytes, rk: Bytes, iy: Bytes, ry: Bytes)
    requires Short(session, code, code) && Short(s, ik, rk) && Short(s, iy, ry)
    ensures Seed(code, session) != Transcript(s, ik, rk, iy, ry)
  {
    assert And(And(Start, GENERATOR_LABEL), code).Encodable();
    TranscriptEncodable(s, ik, rk, iy, ry);
    assert SeedFields(code, session).front.front.front == Start;
    assert TranscriptFields(s, ik, rk, iy, ry).front.front.front.And?;
    if Seed(code, session) == Transcript(s, ik, rk, iy, ry) {
      EncodeInjective(SeedFields(code, session), TranscriptFields(s, ik, rk, iy, ry));
    }
  }

  lemma Begins(start: Bytes, fields: Fields, last: Bytes)
    requires start <= Encode(fields)
    ensures start <= Encode(And(fields, last))
  {
  }

  /** A seed begins with the bytes of its label behind their length, and a transcript with
      those of its own and of version 1. */
  lemma SeedBegins(code: Bytes, session: Bytes)
    ensures [27, 0, 0, 0] + Ascii("SmartMic-CPace-v1-generator") <= Seed(code, session)
  {
    var start, front := [27, 0, 0, 0] + Ascii("SmartMic-CPace-v1-generator"), And(Start, GENERATOR_LABEL);
    assert start == Field(GENERATOR_LABEL) == [] + Field(GENERATOR_LABEL) == Encode(front);
    Begins(start, front, code);
    Begins(start, And(front, code), session);
  }

  lemma TranscriptBegins(s: Bytes, ik: Bytes, rk: Bytes, iy: Bytes, ry: Bytes)
    ensures LabelAndVersion() <= Transcript(s, ik, rk, iy, ry)
  {
    var labels := And(And(Start, TRANSCRIPT_LABEL), VERSION);
    LabelsEncode();
    Begins(LabelAndVersion(), labels, s);
    Begins(LabelAndVersion(), And(labels, s), ik);
    Begins(LabelAndVersion(), And(And(labels, s), ik), rk);
    Begins(LabelAndVersion(), And(And(And(labels, s), ik), rk), iy);
    Begins(LabelAndVersion(), And(And(And(And(labels, s), ik), rk), iy), ry);
  }

  function LabelAndVersion(): Bytes {
    [28, 0, 0, 0] + Ascii("SmartMic-CPace-v1-transcript") + [4, 0, 0, 0] + [1, 0, 0, 0]
  }

  lemma LabelsEncode()
    ensures Encode(And(And(Start, TRANSCRIPT_LABEL), VERSION)) == LabelAndVersion()
  {
    var front := Field(TRANSCRIPT_LABEL);
    assert Encode(And(Start, TRANSCRIPT_LABEL)) == [] + front == front;
    assert front == [28, 0, 0, 0] + Ascii("SmartMic-CPace-v1-transcript");
    assert Field(VERSION) == [4, 0, 0, 0] + [1, 0, 0, 0];
  }

  /** Two derived exchanges that meant each other agree on the key exactly when they used
      the same generator, that is the same code for the same session. */
  lemma KeysAgree(g: Group, i: Exchange, r: Exchange)
    requires g.Lawful() && i.Sound(g) && r.Sound(g) && i.derived && r.derived
    requires i.role.Initiator? && r.role.Responder? && i.session == r.session
    requires i.peer == r.self && r.peer == i.self && i.peerShare == r.share && r.peerShare == i.share
    ensures i.auth.transcript == r.auth.transcript
    ensures i.auth == r.auth <==> i.generator == r.generator
  {
    SecretsAgree(g, i.scalar, i.generator, r.scalar, r.generator);
  }

  lemma SecretsAgree(g: Group, x: nat, p: Bytes, y: nat, q: Bytes)
    requires g.Lawful() && g.Usable(p) && g.Usable(q)
    ensures g.times(x, g.times(y, q)) == g.times(y, g.times(x, p)) <==> p == q
  {
    assert g.times(x, g.times(y, q)) == g.times(y, g.times(x, q));
    assert g.Usable(g.times(x, p)) && g.Usable(g.times(x, q));
  }

  class PairingExchange {
    const group: Group
    const role: Role
    const self: Bytes
    const session: Bytes
    const generator: Bytes
    const share: Bytes
    const scalar: nat
    var derived: bool
    var peer: Bytes
    var peerShare: Bytes
    var transcript: Bytes
    var sessionKey: SessionKey

    ghost function View(): Exchange
      reads this
    {
      Exchange(role, self, session, scalar, generator, share, derived, peer, peerShare,
               Auth(transcript, sessionKey))
    }

    constructor (group: Group, role: Role, self: Bytes, session: Bytes, code: Bytes, scalar: nat)
      ensures View() == NewExchange(group, role, self, session, code, scalar) && this.group == group
    {
      this.group, this.role, this.self, this.session, this.scalar := group, role, self, session, scalar;
      var gen := group.generator(Seed(code, session));
      this.generator := gen;
      this.share := group.times(scalar, gen);
      derived, peer, peerShare := false, [], [];
      transcript, sessionKey := NO_AUTH.transcript, NO_AUTH.key;
    }

    method BuildTranscript()
      modifies this`transcript
      ensures transcript == View().TranscriptWith(peer, peerShare)
    {
      var initiatorKey := if role == Initiator then self else peer;
      var responderKey := if role == Initiator then peer else self;
      var initiatorShare := if role == Initiator then share else peerShare;
      var responderShare := if role == Initiator then peerShare else share;
      ghost var fields := And(And(Start, TRANSCRIPT_LABEL), VERSION);
      transcript := AppendLengthPrefixed([], TRANSCRIPT_LABEL);
      transcript := AppendLengthPrefixed(transcript, VERSION);
      assert transcript == Encode(fields);
      transcript := AppendLengthPrefixed(transcript, session);
      transcript := AppendLengthPrefixed(transcript, initiatorKey);
      transcript := AppendLengthPrefixed(transcript, responderKey);
      assert transcript == Encode(And(And(And(fields, session), initiatorKey), responderKey));
      transcript := AppendLengthPrefixed(transcript, initiatorShare);
      transcript := AppendLengthPrefixed(transcript, responderShare);
    }

    method OnPeer(peerKey: Bytes, theirShare: Bytes) returns (err: PairingError)
      modifies this
      ensures (View(), err) == Receive(group, old(View()), peerKey, theirShare)
    {
      if derived {
        return WrongState;
      }
      if IsZero(theirShare) {
        return InvalidPeerElement;
      }
      if !group.isPoint(theirShare) {
        return InvalidPeerElement;
      }
      peer := peerKey;
      peerShare := theirShare;
      var shared := group.times(scalar, peerShare);
      if IsZero(shared) {
        return ScalarMultFailed;
      }
      BuildTranscript();
      sessionKey := SessionKey(shared, transcript);
      derived := true;
      err := NoError;
    }

    method AuthSignature() returns (sig: Signature)
      ensures sig == SignatureOf(View())
    {
      sig := if derived then Sig(self, Auth(transcript, sessionKey)) else NoSignature;
    }

    method VerifyPeerAuth(sig: Signature) returns (err: PairingError)
      ensures err == Judge(View(), sig)
    {
      if !derived {
        return NotReady;
      }
      err := if Verifies(peer, Auth(transcript, sessionKey), sig) then NoError else BadSignature;
    }
  }
}
