/** The pairing handshake between one initiator and one responder over a network that may
    drop, duplicate, reorder and reflect the messages the two of them sent.  Either side may
    be armed or told to begin again at any time, and the offer book may answer anything. */
module PairingAgreement {
  import opened Basics
  import opened Encoding
  import opened Pairing
  import opened PairingOffers
  import opened SecureChannels
  import opened PeerSessionModel

  /** Both sessions, every message ever sent, and four histories: shares ever drawn, the
      exchanges the initiator signed in order, for each establishment of the responder the
      signed exchange it matched, and the generators used on either side. */
  datatype World = World(
    i: Session, r: Session, net: set<PairingMessage>,
    used: set<Bytes>, signed: seq<Exchange>, met: seq<nat>,
    begun: set<Bytes>, armed: set<Bytes>)

  function Generator(g: Group, code: Bytes, session: Bytes): Bytes {
    g.generator(Seed(code, session))
  }

  /** Before it is armed the responder holds the empty session and the empty code. */
  function NewWorld(g: Group, iKey: Bytes, rKey: Bytes): World {
    World(NewSession(Initiator, iKey), NewSession(Responder, rKey), {}, {}, [], [], {},
          {Generator(g, [], [])})
  }

  datatype Act =
    | ArmResponder(session: Bytes, code: Bytes)
    | BeginInitiator(session: Bytes, code: Bytes, scalar: nat)
    | ResendHello
    | ToInitiator(m: PairingMessage)
    | ToResponder(m: PairingMessage, offer: Maybe<OfferStatus>, scalar: nat)

  function NextShare(g: Group, w: World, scalar: nat): Bytes {
    g.times(scalar, Generator(g, w.r.code, w.r.session))
  }

  /** Only sent messages arrive, and a freshly drawn share has not been drawn before. */
  predicate Enabled(g: Group, w: World, a: Act) {
    match a
    case ArmResponder(session, code) => |session| < LIMIT
    case BeginInitiator(session, code, scalar) =>
      |session| < LIMIT && g.times(scalar, Generator(g, code, session)) !in w.used
    case ResendHello => true
    case ToInitiator(m) => m in w.net
    case ToResponder(m, _, scalar) => m in w.net && NextShare(g, w, scalar) !in w.used
  }

  function Find(signed: seq<Exchange>, auth: Auth): (k: nat)
    ensures k <= |signed|
    ensures k < |signed| ==> signed[k].auth == auth
    ensures forall j | 0 <= j < k :: signed[j].auth != auth
  {
    if signed == [] || signed[0].auth == auth then 0 else 1 + Find(signed[1..], auth)
  }

  function Elements(messages: seq<PairingMessage>): set<PairingMessage> {
    set m | m in messages
  }

  function Step(g: Group, w: World, a: Act): World {
    match a
    case ArmResponder(session, code) =>
      w.(r := Arm(w.r, session, code), armed := w.armed + {Generator(g, code, session)})
    case BeginInitiator(session, code, scalar) =>
      var (i, hello) := Begin(g, w.i, session, code, scalar);
      w.(i := i, net := w.net + {hello}, used := w.used + {i.exchange.value.share},
         begun := w.begun + {Generator(g, code, session)})
    case ResendHello =>
      var hello := Resend(w.i);
      if hello.Just? then w.(net := w.net + {hello.value}) else w
    case ToInitiator(m) =>
      var o := Handle(g, w.i, m, Nothing, 0);
      w.(i := o.session, net := w.net + Elements(o.replies),
         signed := if m.Pair2? && o.replies != [] && o.session.exchange.Just?
                   then w.signed + [o.session.exchange.value] else w.signed)
    case ToResponder(m, offer, scalar) =>
      var o := Handle(g, w.r, m, offer, scalar);
      w.(r := o.session, net := w.net + Elements(o.replies), used := w.used + {NextShare(g, w, scalar)},
         met := if o.established && o.session.exchange.Just?
                then w.met + [Find(w.signed, o.session.exchange.value.auth)] else w.met)
  }

  function Run(g: Group, w: World, acts: seq<Act>): World {
    if acts == [] then w else Step(g, Run(g, w, acts[..|acts| - 1]), acts[|acts| - 1])
  }

  ghost predicate AllEnabled(g: Group, w: World, acts: seq<Act>) {
    forall n | 0 <= n < |acts| :: Enabled(g, Run(g, w, acts[..n]), acts[n])
  }

  // ---------------------------------------------------------------- the invariant

  ghost predicate SignedBy(w: World, sig: Signature) {
    exists k: nat :: k < |w.signed| && sig == Sig(w.i.self, w.signed[k].auth)
  }

  ghost predicate MetBy(w: World, auth: Auth) {
    exists j: nat :: j < |w.met| && w.met[j] < |w.signed| && w.signed[w.met[j]].auth == auth
  }

  /** What each kind of message in the network says about the past. */
  ghost predicate MessageOk(g: Group, w: World, m: PairingMessage) {
    match m
    case Pair1(_, h) => h.Just? && h.value.key == w.i.self && h.value.share in w.used && g.Usable(h.value.share)
    case Pair2(h) => h.Just? && h.value.key == w.r.self && h.value.share in w.used && g.Usable(h.value.share)
    case Pair3(sig) => sig.Just? && SignedBy(w, sig.value)
    case Pair4(sig) => sig.Just? && exists auth :: sig.value == Sig(w.r.self, auth) && MetBy(w, auth)
    case _ => true
  }

  /** An exchange of the given role between these two keys. */
  ghost predicate Between(g: Group, w: World, e: Exchange, role: Role) {
    && e.Sound(g) && e.role == role && |e.session| < LIMIT && e.share in w.used
    && e.self == (if role.Initiator? then w.i.self else w.r.self)
    && (e.derived ==> e.peer == (if role.Initiator? then w.r.self else w.i.self) && e.peerShare in w.used)
  }

  ghost predicate SignedOk(g: Group, w: World) {
    && (forall k | 0 <= k < |w.signed| ::
          w.signed[k].derived && Between(g, w, w.signed[k], Initiator) && w.signed[k].generator in w.begun)
    && (forall k, l | 0 <= k < l < |w.signed| :: w.signed[k].share != w.signed[l].share)
  }

  ghost predicate MetOk(w: World) {
    && (forall j | 0 <= j < |w.met| :: w.met[j] < |w.signed| && w.signed[w.met[j]].generator in w.armed)
    && (forall j, l | 0 <= j < l < |w.met| :: w.met[j] <= w.met[l])
  }

  ghost predicate InitiatorOk(g: Group, w: World) {
    && w.i.role.Initiator?
    && (w.i.hello.Just? ==> w.i.hello.value in w.net)
    && (w.i.exchange.Just? ==>
          var e := w.i.exchange.value;
          && Between(g, w, e, Initiator) && e.generator in w.begun
          && (if e.derived then |w.signed| > 0 && w.signed[|w.signed| - 1] == e
              else forall k | 0 <= k < |w.signed| :: w.signed[k].share != e.share))
    && (w.i.state.Authenticated? ==>
          && w.i.exchange.Just? && w.i.exchange.value.derived
          && w.i.key == w.i.exchange.value.Key()
          && MetBy(w, w.i.exchange.value.auth))
  }

  /** Nothing established so far matches a later signature than this exchange does. */
  ghost predicate Latest(w: World, auth: Auth) {
    forall j, k | 0 <= j < |w.met| && 0 <= k < |w.signed| && w.signed[k].auth == auth :: w.met[j] <= k
  }

  ghost predicate ResponderOk(g: Group, w: World) {
    && w.r.role.Responder? && |w.r.session| < LIMIT
    && (w.r.exchange.Just? ==>
          var e := w.r.exchange.value;
          && Between(g, w, e, Responder) && e.generator in w.armed
          && (e.derived ==> w.r.havePeer && w.r.peer == w.i.self && Latest(w, e.auth)))
    && (w.r.exchange.Nothing? || !w.r.havePeer || w.r.peer != w.i.self ==>
          Generator(g, w.r.code, w.r.session) in w.armed)
    && (w.r.state.Authenticated? ==>
          && |w.met| > 0 && w.met[|w.met| - 1] < |w.signed|
          && w.r.key == w.signed[w.met[|w.met| - 1]].Key())
  }

  ghost predicate Inv(g: Group, w: World) {
    && g.Lawful() && |w.i.self| < LIMIT && |w.r.self| < LIMIT
    && (forall m | m in w.net :: MessageOk(g, w, m))
    && SignedOk(g, w) && MetOk(w)
    && InitiatorOk(g, w) && ResponderOk(g, w)
  }

  // ---------------------------------------------------------------- two exchanges

  lemma TranscriptsAgree(g: Group, w: World, a: Exchange, b: Exchange)
    requires g.Lawful() && |w.i.self| < LIMIT && |w.r.self| < LIMIT
    requires Between(g, w, a, Initiator) && Between(g, w, b, Responder) && a.derived && b.derived
    requires a.auth == b.auth
    ensures a.session == b.session && a.share == b.peerShare && a.peerShare == b.share
    ensures a.generator == b.generator
  {
    TranscriptInjective(a.session, a.self, a.peer, a.share, a.peerShare,
                        b.session, b.peer, b.self, b.peerShare, b.share);
    KeysAgree(g, a, b);
  }

  lemma SameAuthSameShare(g: Group, w: World, a: Exchange, b: Exchange)
    requires g.Lawful() && |w.i.self| < LIMIT && |w.r.self| < LIMIT
    requires Between(g, w, a, Initiator) && Between(g, w, b, Initiator) && a.derived && b.derived
    requires a.auth == b.auth
    ensures a.share == b.share
  {
    TranscriptInjective(a.session, a.self, a.peer, a.share, a.peerShare,
                        b.session, b.self, b.peer, b.share, b.peerShare);
  }

  /** A signature identifies the exchange it was made for. */
  lemma AuthIsUnique(g: Group, w: World, k: nat, l: nat)
    requires g.Lawful() && |w.i.self| < LIMIT && |w.r.self| < LIMIT
    requires SignedOk(g, w) && k < |w.signed| && l < |w.signed| && w.signed[k].auth == w.signed[l].auth
    ensures k == l
  {
    SameAuthSameShare(g, w, w.signed[k], w.signed[l]);
  }

  // ---------------------------------------------------------------- growing histories

  /** `w'` has the same keys and at least the history of `w`. */
  ghost predicate Grows(w: World, w': World) {
    && w'.i.self == w.i.self && w'.r.self == w.r.self
    && w.used <= w'.used && w.begun <= w'.begun && w.armed <= w'.armed
    && w.signed <= w'.signed && w.met <= w'.met
  }

  lemma MessageOkGrows(g: Group, w: World, w': World, m: PairingMessage)
    requires Grows(w, w') && MessageOk(g, w, m)
    ensures MessageOk(g, w', m)
  {
    match m
    case Pair3(sig) =>
      var k: nat :| k < |w.signed| && sig.value == Sig(w.i.self, w.signed[k].auth);
      assert w'.signed[k] == w.signed[k];
    case Pair4(sig) =>
      var auth :| sig.value == Sig(w.r.self, auth) && MetBy(w, auth);
      MetByGrows(w, w', auth);
    case _ =>
  }

  lemma MetByGrows(w: World, w': World, auth: Auth)
    requires Grows(w, w') && MetBy(w, auth)
    ensures MetBy(w', auth)
  {
    var j: nat :| j < |w.met| && w.met[j] < |w.signed| && w.signed[w.met[j]].auth == auth;
    assert w'.met[j] == w.met[j] && w'.signed[w'.met[j]].auth == auth;
  }

  lemma NetGrows(g: Group, w: World, w': World, sent: set<PairingMessage>)
    requires Grows(w, w') && w'.net == w.net + sent
    requires forall m | m in w.net :: MessageOk(g, w, m)
    requires forall m | m in sent :: MessageOk(g, w', m)
    ensures forall m | m in w'.net :: MessageOk(g, w', m)
  {
    forall m | m in w'.net
      ensures MessageOk(g, w', m)
    {
      if m in w.net {
        MessageOkGrows(g, w, w', m);
      }
    }
  }

  lemma SignedSame(g: Group, w: World, w': World)
    requires Grows(w, w') && w'.signed == w.signed && SignedOk(g, w)
    ensures SignedOk(g, w')
  {
    forall k | 0 <= k < |w'.signed|
      ensures Between(g, w', w'.signed[k], Initiator)
    {
      assert Between(g, w, w.signed[k], Initiator);
    }
  }

  lemma MetSame(w: World, w': World)
    requires Grows(w, w') && w'.met == w.met && MetOk(w)
    ensures MetOk(w')
  {
    forall j | 0 <= j < |w'.met|
      ensures w'.met[j] < |w'.signed| && w'.signed[w'.met[j]].generator in w'.armed
    {
      assert w'.signed[w.met[j]] == w.signed[w.met[j]];
    }
  }

  lemma InitiatorSame(g: Group, w: World, w': World)
    requires Grows(w, w') && w'.i == w.i && w'.signed == w.signed && w.net <= w'.net && InitiatorOk(g, w)
    ensures InitiatorOk(g, w')
  {
    if w.i.exchange.Just? {
      assert Between(g, w', w.i.exchange.value, Initiator);
    }
    if w.i.state.Authenticated? {
      MetByGrows(w, w', w.i.exchange.value.auth);
    }
  }

  lemma ResponderSame(g: Group, w: World, w': World)
    requires Grows(w, w') && w'.r == w.r && w'.signed == w.signed && w'.met == w.met && ResponderOk(g, w)
    ensures ResponderOk(g, w')
  {
    if w.r.exchange.Just? {
      assert Between(g, w', w.r.exchange.value, Responder);
    }
  }

  // ---------------------------------------------------------------- the calls

  lemma ArmKeeps(g: Group, w: World, session: Bytes, code: Bytes)
    requires Inv(g, w) && |session| < LIMIT
    ensures Inv(g, Step(g, w, ArmResponder(session, code)))
  {
    var w' := Step(g, w, ArmResponder(session, code));
    NetGrows(g, w, w', {});
    SignedSame(g, w, w');
    MetSame(w, w');
    InitiatorSame(g, w, w');
  }

  lemma BegunInitiatorOk(g: Group, w: World, session: Bytes, code: Bytes, scalar: nat)
    requires Inv(g, w) && Enabled(g, w, BeginInitiator(session, code, scalar))
    ensures var w' := Step(g, w, BeginInitiator(session, code, scalar));
      InitiatorOk(g, w') && MessageOk(g, w', w'.i.hello.value)
  {
    var w' := Step(g, w, BeginInitiator(session, code, scalar));
    var e := w'.i.exchange.value;
    assert g.Usable(e.generator) && g.Usable(e.share);
    forall k | 0 <= k < |w'.signed|
      ensures w'.signed[k].share != e.share
    {
      assert Between(g, w, w.signed[k], Initiator);
    }
  }

  lemma BeginKeeps(g: Group, w: World, session: Bytes, code: Bytes, scalar: nat)
    requires Inv(g, w) && Enabled(g, w, BeginInitiator(session, code, scalar))
    ensures Inv(g, Step(g, w, BeginInitiator(session, code, scalar)))
  {
    var w' := Step(g, w, BeginInitiator(session, code, scalar));
    BegunInitiatorOk(g, w, session, code, scalar);
    NetGrows(g, w, w', {w'.i.hello.value});
    SignedSame(g, w, w');
    MetSame(w, w');
    ResponderSame(g, w, w');
  }

  lemma ResendKeeps(g: Group, w: World)
    requires Inv(g, w)
    ensures Inv(g, Step(g, w, ResendHello))
  {
    if Resend(w.i).Just? {
      assert w.net + {Resend(w.i).value} == w.net;
    }
  }

  // ---------------------------------------------------------------- at the initiator

  /** The initiator changes state, but not its exchange, and sends nothing. */
  lemma InitiatorMoves(g: Group, w: World, i: Session)
    requires Inv(g, w)
    requires i.role == w.i.role && i.self == w.i.self && i.exchange == w.i.exchange && i.hello == w.i.hello
    requires i.state.Authenticated? ==>
               i.exchange.Just? && i.exchange.value.derived && i.key == i.exchange.value.Key()
               && MetBy(w, i.exchange.value.auth)
    ensures Inv(g, w.(i := i))
  {
    var w' := w.(i := i);
    assert w'.net == w.net + {};
    NetGrows(g, w, w', {});
    SignedSame(g, w, w');
    MetSame(w, w');
    ResponderSame(g, w, w');
    if i.exchange.Just? {
      assert Between(g, w', i.exchange.value, Initiator);
      if MetBy(w, i.exchange.value.auth) {
        MetByGrows(w, w', i.exchange.value.auth);
      }
    }
  }

  lemma SignedExtends(g: Group, w: World, w': World, e: Exchange)
    requires Grows(w, w') && w'.signed == w.signed + [e] && SignedOk(g, w)
    requires e.derived && Between(g, w', e, Initiator) && e.generator in w'.begun
    requires forall k | 0 <= k < |w.signed| :: w.signed[k].share != e.share
    ensures SignedOk(g, w')
  {
    forall k | 0 <= k < |w'.signed|
      ensures Between(g, w', w'.signed[k], Initiator)
    {
      if k < |w.signed| {
        assert Between(g, w, w.signed[k], Initiator);
      }
    }
  }

  lemma LatestExtends(w: World, w': World, auth: Auth)
    requires w.signed <= w'.signed && w'.met == w.met && MetOk(w) && Latest(w, auth)
    ensures Latest(w', auth)
  {
    forall j, k | 0 <= j < |w'.met| && 0 <= k < |w'.signed| && w'.signed[k].auth == auth
      ensures w'.met[j] <= k
    {
      if k < |w.signed| {
        assert w.signed[k] == w'.signed[k];
      }
    }
  }

  lemma ResponderSeesSignature(g: Group, w: World, w': World)
    requires Grows(w, w') && w'.r == w.r && w'.met == w.met && MetOk(w) && ResponderOk(g, w)
    ensures ResponderOk(g, w')
  {
    if w.r.exchange.Just? {
      assert Between(g, w', w.r.exchange.value, Responder);
      if w.r.exchange.value.derived {
        LatestExtends(w, w', w.r.exchange.value.auth);
      }
    }
    if w.r.state.Authenticated? {
      assert w'.signed[w.met[|w.met| - 1]] == w.signed[w.met[|w.met| - 1]];
    }
  }

  /** The initiator derives the key from a PAIR2 and signs the exchange. */
  lemma InitiatorSigns(g: Group, w: World, i: Session, e: Exchange)
    requires Inv(g, w) && w.i.exchange.Just? && !w.i.exchange.value.derived
    requires i.role == w.i.role && i.self == w.i.self && i.hello == w.i.hello
    requires i.exchange == Just(e) && i.state == w.i.state
    requires e.derived && Between(g, w, e, Initiator)
    requires e.share == w.i.exchange.value.share && e.generator == w.i.exchange.value.generator
    ensures Inv(g, w.(i := i, net := w.net + {Pair3(Just(Sig(w.i.self, e.auth)))}, signed := w.signed + [e]))
  {
    var reply := Pair3(Just(Sig(w.i.self, e.auth)));
    var w' := w.(i := i, net := w.net + {reply}, signed := w.signed + [e]);
    assert Between(g, w', e, Initiator);
    SignedExtends(g, w, w', e);
    assert w'.signed[|w.signed|] == e && SignedBy(w', reply.sig.value);
    NetGrows(g, w, w', {reply});
    MetSame(w, w');
    ResponderSeesSignature(g, w, w');
  }

  lemma ReceiveShape(g: Group, w: World, e: Exchange, hello: Hello)
    requires g.Lawful() && Between(g, w, e, Initiator)
    requires hello.key == w.r.self && hello.share in w.used && g.Usable(hello.share)
    ensures var (e', err) := Receive(g, e, hello.key, hello.share);
      && (err == NoError <==> !e.derived)
      && (err != NoError ==> e' == e)
      && Between(g, w, e', Initiator) && e'.share == e.share && e'.generator == e.generator
      && (err == NoError ==> e'.derived)
  {
    ReceiveSound(g, e, hello.key, hello.share);
  }

  /** The step taken on a PAIR2, spelled out. */
  lemma Pair2Step(g: Group, w: World, m: PairingMessage, e: Exchange, err: PairingError)
    requires w.i.role.Initiator? && m.Pair2? && m.hello.Just? && w.i.exchange.Just?
    requires (e, err) == Receive(g, w.i.exchange.value, m.hello.value.key, m.hello.value.share)
    ensures var o := OnPair2(g, w.i, m.hello);
      && o.session.exchange == Just(e)
      && Step(g, w, ToInitiator(m)) ==
           if err == NoError
           then w.(i := o.session, net := w.net + {Pair3(Just(SignatureOf(e)))}, signed := w.signed + [e])
           else w.(i := o.session)
  {
    assert Elements([Pair3(Just(SignatureOf(e)))]) == {Pair3(Just(SignatureOf(e)))};
    assert w.net + Elements([]) == w.net;
  }

  lemma InitiatorPair2Keeps(g: Group, w: World, m: PairingMessage)
    requires Inv(g, w) && m in w.net && m.Pair2? && w.i.exchange.Just?
    ensures Inv(g, Step(g, w, ToInitiator(m)))
  {
    assert MessageOk(g, w, m);
    var hello := m.hello.value;
    var (e, err) := Receive(g, w.i.exchange.value, hello.key, hello.share);
    ReceiveShape(g, w, w.i.exchange.value, hello);
    Pair2Step(g, w, m, e, err);
    var o := OnPair2(g, w.i, m.hello);
    if err == NoError {
      InitiatorSigns(g, w, o.session, e);
    } else {
      InitiatorMoves(g, w, o.session);
    }
  }

  /** The step taken on any other message, spelled out. */
  lemma QuietInitiatorStep(g: Group, w: World, m: PairingMessage)
    requires w.i.role.Initiator? && !(m.Pair2? && w.i.exchange.Just?)
    ensures var o := Handle(g, w.i, m, Nothing, 0);
      && Step(g, w, ToInitiator(m)) == w.(i := o.session)
      && o.session == w.i.(state := o.session.state, key := o.session.key, code := o.session.code,
                           rejected := o.session.rejected, failures := o.session.failures)
      && (o.session.state.Authenticated? ==>
            (w.i.state.Authenticated? && o.session.key == w.i.key)
            || (m.Pair4? && w.i.exchange.Just? && m.sig.Just? && w.i.exchange.value.derived
                && o.session.key == w.i.exchange.value.Key()
                && m.sig.value == Sig(w.i.exchange.value.peer, w.i.exchange.value.auth)))
  {
    assert w.net + Elements([]) == w.net;
  }

  lemma ToInitiatorKeeps(g: Group, w: World, m: PairingMessage)
    requires Inv(g, w) && m in w.net
    ensures Inv(g, Step(g, w, ToInitiator(m)))
  {
    if m.Pair2? && w.i.exchange.Just? {
      InitiatorPair2Keeps(g, w, m);
    } else {
      QuietInitiatorStep(g, w, m);
      var o := Handle(g, w.i, m, Nothing, 0);
      if o.session.state.Authenticated? && m.Pair4? && m.sig.Just? {
        AcceptedPair4(g, w, m);
      }
      InitiatorMoves(g, w, o.session);
    }
  }

  /** A PAIR4 in the network tells of an establishment at the responder. */
  lemma AcceptedPair4(g: Group, w: World, m: PairingMessage)
    requires Inv(g, w) && m in w.net && m.Pair4? && m.sig.Just?
    ensures m.sig.value.Sig? && MetBy(w, m.sig.value.auth)
  {
    assert MessageOk(g, w, m);
  }

  // ---------------------------------------------------------------- at the responder

  /** The responder answers without touching its exchange; a share may have been drawn. */
  lemma ResponderMoves(g: Group, w: World, r: Session, sent: set<PairingMessage>, used: set<Bytes>)
    requires Inv(g, w) && w.used <= used
    requires r.role == w.r.role && r.self == w.r.self && r.exchange == w.r.exchange && r.session == w.r.session
    requires r.code == w.r.code && r.havePeer == w.r.havePeer && r.peer == w.r.peer
    requires r.state.Authenticated? ==> w.r.state.Authenticated? && r.key == w.r.key
    requires forall m | m in sent :: MessageOk(g, w, m)
    ensures Inv(g, w.(r := r, net := w.net + sent, used := used))
  {
    var w' := w.(r := r, net := w.net + sent, used := used);
    forall m | m in sent
      ensures MessageOk(g, w', m)
    {
      MessageOkGrows(g, w, w', m);
    }
    NetGrows(g, w, w', sent);
    SignedSame(g, w, w');
    MetSame(w, w');
    InitiatorSame(g, w, w');
    if r.exchange.Just? {
      assert Between(g, w, w.r.exchange.value, Responder);
      assert Between(g, w', r.exchange.value, Responder);
    }
  }

  /** A new exchange uses a fresh share, so nothing signed can match it yet. */
  lemma FreshMatchesNothing(g: Group, w: World, w': World, e: Exchange)
    requires g.Lawful() && |w.i.self| < LIMIT && |w.r.self| < LIMIT
    requires SignedOk(g, w) && Grows(w, w') && w'.signed == w.signed
    requires Between(g, w', e, Responder) && e.derived && e.share !in w.used
    ensures Latest(w', e.auth)
  {
    forall k | 0 <= k < |w'.signed|
      ensures w'.signed[k].auth != e.auth
    {
      assert Between(g, w, w.signed[k], Initiator);
      if w'.signed[k].auth == e.auth {
        assert Between(g, w', w.signed[k], Initiator);
        TranscriptsAgree(g, w', w.signed[k], e);
      }
    }
  }

  /** The responder answers a PAIR1 with a new exchange. */
  lemma ResponderStarts(g: Group, w: World, r: Session, e: Exchange)
    requires Inv(g, w)
    requires r == w.r.(exchange := Just(e), havePeer := true, peer := w.i.self)
    requires e.share !in w.used && e.derived && e.generator in w.armed
    requires Between(g, w.(used := w.used + {e.share}), e, Responder)
    ensures Inv(g, w.(r := r, net := w.net + {Pair2(Just(Hello(r.self, e.share)))}, used := w.used + {e.share}))
  {
    var reply := Pair2(Just(Hello(r.self, e.share)));
    var w' := w.(r := r, net := w.net + {reply}, used := w.used + {e.share});
    assert Between(g, w', e, Responder);
    FreshMatchesNothing(g, w, w', e);
    StartedResponderOk(g, w, w', e);
    NetGrows(g, w, w', {reply});
    SignedSame(g, w, w');
    MetSame(w, w');
    InitiatorSame(g, w, w');
  }

  lemma StartedResponderOk(g: Group, w: World, w': World, e: Exchange)
    requires ResponderOk(g, w) && Grows(w, w') && w'.signed == w.signed && w'.met == w.met
    requires w'.r == w.r.(exchange := Just(e), havePeer := true, peer := w.i.self)
    requires Between(g, w', e, Responder) && e.derived && e.generator in w'.armed && Latest(w', e.auth)
    ensures ResponderOk(g, w')
  {
  }

  /** What a new exchange looks like once it has received the initiator's hello. */
  lemma StartShape(g: Group, w: World, scalar: nat, hello: Hello)
    requires g.Lawful() && |w.r.session| < LIMIT
    requires hello.key == w.i.self && hello.share in w.used && g.Usable(hello.share)
    ensures var share := NextShare(g, w, scalar);
      var (e, err) := Receive(g, NewExchange(g, Responder, w.r.self, w.r.session, w.r.code, scalar), hello.key, hello.share);
      && err == NoError && e.derived && e.share == share
      && e.generator == Generator(g, w.r.code, w.r.session)
      && Between(g, w.(used := w.used + {share}), e, Responder)
  {
    var e0 := NewExchange(g, Responder, w.r.self, w.r.session, w.r.code, scalar);
    assert g.Usable(e0.generator) && g.Usable(e0.share) && e0.Sound(g);
    ReceiveSound(g, e0, hello.key, hello.share);
  }

  /** Whether a PAIR1 makes the responder start a new exchange. */
  predicate Starts(w: World, m: PairingMessage, offer: Maybe<OfferStatus>) {
    && m.Pair1? && m.hello.Just? && m.session == w.r.session && !(offer.Just? && offer.value != Valid)
    && !(w.r.exchange.Just? && w.r.havePeer && w.r.peer == m.hello.value.key)
  }

  /** The step taken on a PAIR1 that starts an exchange, spelled out. */
  lemma StartStep(g: Group, w: World, m: PairingMessage, offer: Maybe<OfferStatus>, scalar: nat, e: Exchange)
    requires w.r.role.Responder? && Starts(w, m, offer)
    requires (e, NoError) == Receive(g, NewExchange(g, Responder, w.r.self, w.r.session, w.r.code, scalar),
                                     m.hello.value.key, m.hello.value.share)
    requires e.share == NextShare(g, w, scalar)
    ensures var r := w.r.(exchange := Just(e), peer := m.hello.value.key, havePeer := true);
      Step(g, w, ToResponder(m, offer, scalar)) ==
        w.(r := r, net := w.net + {Pair2(Just(Hello(w.r.self, e.share)))}, used := w.used + {e.share})
  {
    assert Elements([Pair2(Just(Hello(w.r.self, e.share)))]) == {Pair2(Just(Hello(w.r.self, e.share)))};
  }

  lemma RepeatStep(g: Group, w: World, m: PairingMessage, offer: Maybe<OfferStatus>, scalar: nat)
    requires w.r.role.Responder? && m.Pair1? && !Starts(w, m, offer)
    ensures var o := OnPair1(g, w.r, m.session, m.hello, offer, scalar);
      && !o.established
      && Step(g, w, ToResponder(m, offer, scalar)) ==
           w.(r := o.session, net := w.net + Elements(o.replies), used := w.used + {NextShare(g, w, scalar)})
  {
  }

  lemma ResponderPair1Keeps(g: Group, w: World, m: PairingMessage, offer: Maybe<OfferStatus>, scalar: nat)
    requires Inv(g, w) && Enabled(g, w, ToResponder(m, offer, scalar)) && m.Pair1?
    ensures Inv(g, Step(g, w, ToResponder(m, offer, scalar)))
  {
    assert MessageOk(g, w, m);
    if Starts(w, m, offer) {
      var hello := m.hello.value;
      StartShape(g, w, scalar, hello);
      var e := Receive(g, NewExchange(g, Responder, w.r.self, w.r.session, w.r.code, scalar), hello.key, hello.share).0;
      StartStep(g, w, m, offer, scalar, e);
      ResponderStarts(g, w, w.r.(exchange := Just(e), peer := hello.key, havePeer := true), e);
    } else {
      RepeatedReplies(g, w, m, offer, scalar);
      RepeatStep(g, w, m, offer, scalar);
      var o := OnPair1(g, w.r, m.session, m.hello, offer, scalar);
      ResponderMoves(g, w, o.session, Elements(o.replies), w.used + {NextShare(g, w, scalar)});
    }
  }

  /** A refused or retried PAIR1 repeats the old share or refuses. */
  lemma RepeatedReplies(g: Group, w: World, m: PairingMessage, offer: Maybe<OfferStatus>, scalar: nat)
    requires Inv(g, w) && m.Pair1? && MessageOk(g, w, m) && !Starts(w, m, offer)
    ensures var o := OnPair1(g, w.r, m.session, m.hello, offer, scalar);
      && !o.established && o.session == w.r.(state := o.session.state, rejected := o.session.rejected)
      && (o.session.state.Authenticated? ==> w.r.state.Authenticated?)
      && forall reply | reply in Elements(o.replies) :: MessageOk(g, w, reply)
  {
    if w.r.exchange.Just? {
      var e := w.r.exchange.value;
      assert Between(g, w, e, Responder) && g.Usable(e.generator) && g.Usable(e.share);
    }
  }

  /** A verified PAIR3 was signed by the initiator for this very exchange. */
  lemma VerifiedWasSigned(g: Group, w: World, m: PairingMessage) returns (k: nat)
    requires Inv(g, w) && m in w.net && m.Pair3? && w.r.exchange.Just?
    requires m.sig.Just? && Judge(w.r.exchange.value, m.sig.value) == NoError
    ensures k < |w.signed| && k == Find(w.signed, w.r.exchange.value.auth)
    ensures w.signed[k].auth == w.r.exchange.value.auth
    ensures w.signed[k].generator in w.armed
    ensures forall l | 0 <= l < |w.signed| && w.signed[l].auth == w.r.exchange.value.auth :: l == k
  {
    var e := w.r.exchange.value;
    assert MessageOk(g, w, m);
    var l: nat :| l < |w.signed| && m.sig.value == Sig(w.i.self, w.signed[l].auth);
    k := Find(w.signed, e.auth);
    assert k <= l;
    assert Between(g, w, w.signed[k], Initiator);
    TranscriptsAgree(g, w, w.signed[k], e);
    forall n | 0 <= n < |w.signed| && w.signed[n].auth == e.auth
      ensures n == k
    {
      AuthIsUnique(g, w, k, n);
    }
  }

  lemma MetExtends(w: World, w': World, k: nat, auth: Auth)
    requires MetOk(w) && w'.signed == w.signed && w'.armed == w.armed && w'.met == w.met + [k]
    requires k < |w.signed| && w.signed[k].generator in w.armed && w.signed[k].auth == auth
    requires Latest(w, auth)
    requires forall l | 0 <= l < |w.signed| && w.signed[l].auth == auth :: l == k
    ensures MetOk(w') && Latest(w', auth) && MetBy(w', auth)
  {
    assert w'.met[|w.met|] == k;
  }

  /** The responder verifies a PAIR3 and establishes. */
  lemma ResponderEstablishes(g: Group, w: World, r: Session, e: Exchange, k: nat, used: set<Bytes>)
    requires Inv(g, w) && w.used <= used && w.r.exchange == Just(e) && e.derived
    requires r.role == w.r.role && r.self == w.r.self && r.session == w.r.session && r.exchange == w.r.exchange
    requires r.havePeer == w.r.havePeer && r.peer == w.r.peer && r.key == e.Key()
    requires k < |w.signed| && w.signed[k].auth == e.auth && w.signed[k].generator in w.armed
    requires forall l | 0 <= l < |w.signed| && w.signed[l].auth == e.auth :: l == k
    ensures Inv(g, w.(r := r, net := w.net + {Pair4(Just(Sig(w.r.self, e.auth)))}, used := used, met := w.met + [k]))
  {
    var reply := Pair4(Just(Sig(w.r.self, e.auth)));
    var w' := w.(r := r, net := w.net + {reply}, used := used, met := w.met + [k]);
    MetExtends(w, w', k, e.auth);
    assert Grows(w, w');
    assert MessageOk(g, w', reply);
    NetGrows(g, w, w', {reply});
    SignedSame(g, w, w');
    InitiatorSame(g, w, w');
    EstablishedResponderOk(g, w, w', e, k);
  }

  lemma EstablishedResponderOk(g: Group, w: World, w': World, e: Exchange, k: nat)
    requires ResponderOk(g, w) && Grows(w, w') && w.r.exchange == Just(e) && e.derived
    requires w'.r.role == w.r.role && w'.r.session == w.r.session && w'.r.exchange == w.r.exchange
    requires w'.r.havePeer == w.r.havePeer && w'.r.peer == w.r.peer && w'.r.key == e.Key()
    requires k < |w'.signed| && w'.signed[k].auth == e.auth && w'.met == w.met + [k] && Latest(w', e.auth)
    ensures ResponderOk(g, w')
  {
    assert Between(g, w, e, Responder);
  }

  /** The step taken on a verified PAIR3, spelled out. */
  lemma EstablishStep(g: Group, w: World, m: PairingMessage, offer: Maybe<OfferStatus>, scalar: nat, e: Exchange)
    requires w.r.role.Responder? && m.Pair3? && m.sig.Just? && w.r.exchange == Just(e)
    requires Judge(e, m.sig.value) == NoError && e.self == w.r.self
    ensures Step(g, w, ToResponder(m, offer, scalar)) ==
      w.(r := w.r.(key := e.Key(), code := [], state := Authenticated),
         net := w.net + {Pair4(Just(Sig(w.r.self, e.auth)))},
         used := w.used + {NextShare(g, w, scalar)}, met := w.met + [Find(w.signed, e.auth)])
  {
    assert Elements([Pair4(Just(SignatureOf(e)))]) == {Pair4(Just(SignatureOf(e)))};
  }

  lemma ResponderPair3Keeps(g: Group, w: World, m: PairingMessage, offer: Maybe<OfferStatus>, scalar: nat)
    requires Inv(g, w) && Enabled(g, w, ToResponder(m, offer, scalar)) && m.Pair3? && w.r.exchange.Just?
    requires m.sig.Just? && Judge(w.r.exchange.value, m.sig.value) == NoError
    ensures Inv(g, Step(g, w, ToResponder(m, offer, scalar)))
  {
    var e := w.r.exchange.value;
    var k := VerifiedWasSigned(g, w, m);
    assert e.self == w.r.self by { assert Between(g, w, e, Responder); }
    EstablishStep(g, w, m, offer, scalar, e);
    ResponderEstablishes(g, w, w.r.(key := e.Key(), code := [], state := Authenticated), e, k,
                         w.used + {NextShare(g, w, scalar)});
  }

  /** Any other message leaves the exchange alone and sends at most an error. */
  lemma QuietResponderShape(g: Group, r: Session, m: PairingMessage, offer: Maybe<OfferStatus>, scalar: nat)
    requires r.role.Responder? && !m.Pair1?
    requires !(m.Pair3? && r.exchange.Just? && m.sig.Just? && Judge(r.exchange.value, m.sig.value) == NoError)
    ensures var o := Handle(g, r, m, offer, scalar);
      && !o.established
      && o.session == r.(state := o.session.state, rejected := o.session.rejected, failures := o.session.failures)
      && (o.session.state.Authenticated? ==> r.state.Authenticated?)
      && forall reply | reply in Elements(o.replies) :: reply == PairErr
  {
  }

  lemma QuietResponderStep(g: Group, w: World, m: PairingMessage, offer: Maybe<OfferStatus>, scalar: nat)
    requires !Handle(g, w.r, m, offer, scalar).established
    ensures var o := Handle(g, w.r, m, offer, scalar);
      Step(g, w, ToResponder(m, offer, scalar)) ==
        w.(r := o.session, net := w.net + Elements(o.replies), used := w.used + {NextShare(g, w, scalar)})
  {
  }

  lemma ToResponderKeeps(g: Group, w: World, m: PairingMessage, offer: Maybe<OfferStatus>, scalar: nat)
    requires Inv(g, w) && Enabled(g, w, ToResponder(m, offer, scalar))
    ensures Inv(g, Step(g, w, ToResponder(m, offer, scalar)))
  {
    if m.Pair1? {
      ResponderPair1Keeps(g, w, m, offer, scalar);
    } else if m.Pair3? && w.r.exchange.Just? && m.sig.Just? && Judge(w.r.exchange.value, m.sig.value) == NoError {
      ResponderPair3Keeps(g, w, m, offer, scalar);
    } else {
      QuietResponderShape(g, w.r, m, offer, scalar);
      QuietResponderStep(g, w, m, offer, scalar);
      var o := Handle(g, w.r, m, offer, scalar);
      ResponderMoves(g, w, o.session, Elements(o.replies), w.used + {NextShare(g, w, scalar)});
    }
  }

  // ---------------------------------------------------------------- every run

  lemma StepKeeps(g: Group, w: World, a: Act)
    requires Inv(g, w) && Enabled(g, w, a)
    ensures Inv(g, Step(g, w, a))
  {
    match a
    case ArmResponder(session, code) => ArmKeeps(g, w, session, code);
    case BeginInitiator(session, code, scalar) => BeginKeeps(g, w, session, code, scalar);
    case ResendHello => ResendKeeps(g, w);
    case ToInitiator(m) => ToInitiatorKeeps(g, w, m);
    case ToResponder(m, offer, scalar) => ToResponderKeeps(g, w, m, offer, scalar);
  }

  lemma {:induction false} EveryRunKeeps(g: Group, iKey: Bytes, rKey: Bytes, acts: seq<Act>)
    requires g.Lawful() && |iKey| < LIMIT && |rKey| < LIMIT
    requires AllEnabled(g, NewWorld(g, iKey, rKey), acts)
    ensures Inv(g, Run(g, NewWorld(g, iKey, rKey), acts))
  {
    if acts != [] {
      var front := acts[..|acts| - 1];
      forall n | 0 <= n < |front|
        ensures Enabled(g, Run(g, NewWorld(g, iKey, rKey), front[..n]), front[n])
      {
        assert front[..n] == acts[..n];
      }
      EveryRunKeeps(g, iKey, rKey, front);
      StepKeeps(g, Run(g, NewWorld(g, iKey, rKey), front), acts[|acts| - 1]);
    }
  }

  /** If the newest signature has been met, it is the one met last. */
  lemma NewestMetLast(g: Group, w: World, last: nat)
    requires g.Lawful() && |w.i.self| < LIMIT && |w.r.self| < LIMIT
    requires SignedOk(g, w) && MetOk(w) && last + 1 == |w.signed| && MetBy(w, w.signed[last].auth)
    ensures |w.met| > 0 && w.met[|w.met| - 1] == last
  {
    var j: nat :| j < |w.met| && w.met[j] < |w.signed| && w.signed[w.met[j]].auth == w.signed[last].auth;
    AuthIsUnique(g, w, w.met[j], last);
    assert w.met[j] <= w.met[|w.met| - 1];
  }

  lemma SignedLast(g: Group, w: World)
    requires InitiatorOk(g, w) && w.i.state.Authenticated?
    ensures |w.signed| > 0 && w.i.key == w.signed[|w.signed| - 1].Key()
    ensures MetBy(w, w.signed[|w.signed| - 1].auth)
  {
  }

  lemma AgreementNow(g: Group, w: World)
    requires Inv(g, w) && w.i.state.Authenticated? && w.r.state.Authenticated?
    ensures w.i.key == w.r.key
  {
    SignedLast(g, w);
    NewestMetLast(g, w, |w.signed| - 1);
  }

  /** Agreement: whenever both sides are authenticated they hold the same key, and the
      channels they hold point in complementary directions. */
  lemma Agreement(g: Group, iKey: Bytes, rKey: Bytes, acts: seq<Act>)
    requires g.Lawful() && |iKey| < LIMIT && |rKey| < LIMIT
    requires AllEnabled(g, NewWorld(g, iKey, rKey), acts)
    ensures var w := Run(g, NewWorld(g, iKey, rKey), acts);
      w.i.state.Authenticated? && w.r.state.Authenticated? ==>
        && w.i.key == w.r.key
        && SendDirection(w.i.role) == Other(SendDirection(w.r.role))
  {
    EveryRunKeeps(g, iKey, rKey, acts);
    var w := Run(g, NewWorld(g, iKey, rKey), acts);
    if w.i.state.Authenticated? && w.r.state.Authenticated? {
      AgreementNow(g, w);
    }
  }

  // ---------------------------------------------------------------- in terms of codes

  ghost predicate Begun(acts: seq<Act>, session: Bytes, code: Bytes) {
    exists n :: 0 <= n < |acts| && BeginsWith(acts[n], session, code)
  }

  predicate BeginsWith(a: Act, session: Bytes, code: Bytes) {
    a.BeginInitiator? && a.session == session && a.code == code
  }

  /** A responder that was never armed answers for the empty session and code. */
  ghost predicate Armed(acts: seq<Act>, session: Bytes, code: Bytes) {
    (session == [] && code == []) || ArmResponder(session, code) in acts
  }

  /** Hashing to the group does not confuse a seed begun with and a seed armed with. */
  ghost predicate NoCollision(g: Group, acts: seq<Act>) {
    forall s, c, s', c' | Begun(acts, s, c) && Armed(acts, s', c') ::
      |c| < LIMIT && |c'| < LIMIT && |s| < LIMIT && |s'| < LIMIT
      && (Generator(g, c, s) == Generator(g, c', s') ==> Seed(c, s) == Seed(c', s'))
  }
}
