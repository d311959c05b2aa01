/** Which code an authenticated side has proved: not some code of the past but, attempt by
    attempt, the one it last began or was last armed with. */
module PairingAttempts {
  import opened Basics
  import opened Encoding
  import opened Pairing
  import opened PairingOffers
  import opened PeerSessionModel
  import opened PairingAgreement

  datatype Attempt = Attempt(session: Bytes, code: Bytes)

  /** What the initiator last began with, if it ever did. */
  function LastBegin(acts: seq<Act>): Maybe<Attempt> {
    if acts == [] then Nothing
    else
      var last := acts[|acts| - 1];
      if last.BeginInitiator? then Just(Attempt(last.session, last.code)) else LastBegin(acts[..|acts| - 1])
  }

  /** What the responder was last armed with; an unarmed one holds the empty session and code. */
  function LastArm(acts: seq<Act>): Attempt {
    if acts == [] then Attempt([], [])
    else
      var last := acts[|acts| - 1];
      if last.ArmResponder? then Attempt(last.session, last.code) else LastArm(acts[..|acts| - 1])
  }

  function GeneratorOf(g: Group, a: Attempt): Bytes {
    Generator(g, a.code, a.session)
  }

  // ---------------------------------------------------------------- whose exchange it is

  ghost predicate InitiatorCurrent(g: Group, w: World, begin: Maybe<Attempt>) {
    w.i.exchange.Just? ==> begin.Just? && w.i.exchange.value.generator == GeneratorOf(g, begin.value)
  }

  ghost predicate ResponderCurrent(g: Group, w: World, arm: Attempt) {
    match w.r.exchange
    case Nothing => w.r.session == arm.session && w.r.code == arm.code && !w.r.state.Authenticated?
    case Just(e) => e.derived && w.r.havePeer && w.r.peer == w.i.self && e.generator == GeneratorOf(g, arm)
  }

  /** An authenticated responder met a signature of the very exchange it holds. */
  ghost predicate ResponderMatched(w: World) {
    w.r.state.Authenticated? ==>
      && w.r.exchange.Just? && |w.met| > 0 && w.met[|w.met| - 1] < |w.signed|
      && w.signed[w.met[|w.met| - 1]].auth == w.r.exchange.value.auth
  }

  ghost predicate Current(g: Group, w: World, acts: seq<Act>) {
    InitiatorCurrent(g, w, LastBegin(acts)) && ResponderCurrent(g, w, LastArm(acts)) && ResponderMatched(w)
  }

  /** Receiving a share does not change the generator. */
  lemma GeneratorStays(g: Group, s: Session, m: PairingMessage)
    requires s.role.Initiator?
    ensures var s' := Handle(g, s, m, Nothing, 0).session;
      && (s'.exchange.Just? <==> s.exchange.Just?)
      && (s.exchange.Just? ==> s'.exchange.value.generator == s.exchange.value.generator)
      && s'.self == s.self
  {
  }

  lemma ToInitiatorCurrent(g: Group, w: World, m: PairingMessage, begin: Maybe<Attempt>, arm: Attempt)
    requires w.i.role.Initiator? && InitiatorCurrent(g, w, begin) && ResponderCurrent(g, w, arm) && ResponderMatched(w)
    ensures var w' := Step(g, w, ToInitiator(m));
      InitiatorCurrent(g, w', begin) && ResponderCurrent(g, w', arm) && ResponderMatched(w')
  {
    GeneratorStays(g, w.i, m);
    var w' := Step(g, w, ToInitiator(m));
    assert w'.r == w.r && w'.met == w.met && w.signed <= w'.signed;
    if w.r.state.Authenticated? {
      assert w'.signed[w.met[|w.met| - 1]] == w.signed[w.met[|w.met| - 1]];
    }
  }

  /** A responder that holds an exchange keeps it until it is armed again. */
  lemma HeldExchangeStays(g: Group, s: Session, m: PairingMessage, offer: Maybe<OfferStatus>, scalar: nat)
    requires s.role.Responder? && s.exchange.Just? && s.havePeer
    requires m.Pair1? && m.hello.Just? ==> m.hello.value.key == s.peer
    ensures var o := Handle(g, s, m, offer, scalar);
      && o.session.exchange == s.exchange && o.session.havePeer && o.session.peer == s.peer
      && (o.established ==> Judge(s.exchange.value, m.sig.value) == NoError)
      && (o.session.state.Authenticated? ==> s.state.Authenticated? || o.established)
  {
  }

  lemma StartedCurrent(g: Group, w: World, m: PairingMessage, offer: Maybe<OfferStatus>, scalar: nat, arm: Attempt)
    requires Inv(g, w) && m in w.net && Starts(w, m, offer)
    requires w.r.exchange.Nothing? && ResponderCurrent(g, w, arm)
    ensures var w' := Step(g, w, ToResponder(m, offer, scalar));
      w'.i == w.i && ResponderCurrent(g, w', arm) && ResponderMatched(w')
  {
    assert MessageOk(g, w, m);
    var hello := m.hello.value;
    StartShape(g, w, scalar, hello);
    var e := Receive(g, NewExchange(g, Responder, w.r.self, w.r.session, w.r.code, scalar), hello.key, hello.share).0;
    StartStep(g, w, m, offer, scalar, e);
  }

  lemma UnstartedCurrent(g: Group, w: World, m: PairingMessage, offer: Maybe<OfferStatus>, scalar: nat, arm: Attempt)
    requires w.r.role.Responder? && !Starts(w, m, offer) && w.r.exchange.Nothing? && ResponderCurrent(g, w, arm)
    ensures var w' := Step(g, w, ToResponder(m, offer, scalar));
      w'.i == w.i && ResponderCurrent(g, w', arm) && ResponderMatched(w')
  {
  }

  lemma HeldBetween(g: Group, w: World, arm: Attempt)
    requires Inv(g, w) && ResponderCurrent(g, w, arm) && w.r.exchange.Just?
    ensures Between(g, w, w.r.exchange.value, Responder) && w.r.exchange.value.derived
  {
  }

  /** Whatever is established is matched with its signature. */
  lemma EstablishedCurrent(g: Group, w: World, m: PairingMessage, offer: Maybe<OfferStatus>, scalar: nat, arm: Attempt)
    requires Inv(g, w) && m in w.net && w.r.exchange.Just? && ResponderCurrent(g, w, arm)
    requires m.Pair3? && m.sig.Just? && Judge(w.r.exchange.value, m.sig.value) == NoError
    ensures var w' := Step(g, w, ToResponder(m, offer, scalar));
      w'.i == w.i && ResponderCurrent(g, w', arm) && ResponderMatched(w')
  {
    var k := VerifiedWasSigned(g, w, m);
    HeldBetween(g, w, arm);
    EstablishStep(g, w, m, offer, scalar, w.r.exchange.value);
  }

  lemma HeldCurrent(g: Group, w: World, m: PairingMessage, offer: Maybe<OfferStatus>, scalar: nat, arm: Attempt)
    requires Inv(g, w) && m in w.net && w.r.exchange.Just? && ResponderCurrent(g, w, arm) && ResponderMatched(w)
    ensures var w' := Step(g, w, ToResponder(m, offer, scalar));
      w'.i == w.i && ResponderCurrent(g, w', arm) && ResponderMatched(w')
  {
    assert MessageOk(g, w, m);
    if m.Pair3? && m.sig.Just? && Judge(w.r.exchange.value, m.sig.value) == NoError {
      EstablishedCurrent(g, w, m, offer, scalar, arm);
    } else {
      QuietHeldCurrent(g, w, m, offer, scalar, arm);
    }
  }

  lemma QuietHeldCurrent(g: Group, w: World, m: PairingMessage, offer: Maybe<OfferStatus>, scalar: nat, arm: Attempt)
    requires w.r.role.Responder? && w.r.exchange.Just? && ResponderCurrent(g, w, arm) && ResponderMatched(w)
    requires m.Pair1? && m.hello.Just? ==> m.hello.value.key == w.i.self
    requires !(m.Pair3? && m.sig.Just? && Judge(w.r.exchange.value, m.sig.value) == NoError)
    ensures var w' := Step(g, w, ToResponder(m, offer, scalar));
      w'.i == w.i && ResponderCurrent(g, w', arm) && ResponderMatched(w')
  {
    HeldExchangeStays(g, w.r, m, offer, scalar);
  }

  lemma ToResponderCurrent(g: Group, w: World, m: PairingMessage, offer: Maybe<OfferStatus>, scalar: nat,
                           begin: Maybe<Attempt>, arm: Attempt)
    requires Inv(g, w) && m in w.net
    requires InitiatorCurrent(g, w, begin) && ResponderCurrent(g, w, arm) && ResponderMatched(w)
    ensures var w' := Step(g, w, ToResponder(m, offer, scalar));
      InitiatorCurrent(g, w', begin) && ResponderCurrent(g, w', arm) && ResponderMatched(w')
  {
    if w.r.exchange.Just? {
      HeldCurrent(g, w, m, offer, scalar, arm);
    } else if Starts(w, m, offer) {
      StartedCurrent(g, w, m, offer, scalar, arm);
    } else {
      UnstartedCurrent(g, w, m, offer, scalar, arm);
    }
  }

  lemma ArmCurrent(g: Group, w: World, arm: Attempt, begin: Maybe<Attempt>)
    requires InitiatorCurrent(g, w, begin)
    ensures var w' := Step(g, w, ArmResponder(arm.session, arm.code));
      InitiatorCurrent(g, w', begin) && ResponderCurrent(g, w', arm) && ResponderMatched(w')
  {
  }

  lemma BeginCurrent(g: Group, w: World, begin: Attempt, scalar: nat, arm: Attempt)
    requires ResponderCurrent(g, w, arm) && ResponderMatched(w)
    ensures var w' := Step(g, w, BeginInitiator(begin.session, begin.code, scalar));
      InitiatorCurrent(g, w', Just(begin)) && ResponderCurrent(g, w', arm) && ResponderMatched(w')
  {
  }

  lemma ResendCurrent(g: Group, w: World, begin: Maybe<Attempt>, arm: Attempt)
    requires InitiatorCurrent(g, w, begin) && ResponderCurrent(g, w, arm) && ResponderMatched(w)
    ensures var w' := Step(g, w, ResendHello);
      InitiatorCurrent(g, w', begin) && ResponderCurrent(g, w', arm) && ResponderMatched(w')
  {
  }

  lemma LastAppend(front: seq<Act>, a: Act)
    ensures LastBegin(front + [a]) ==
      if a.BeginInitiator? then Just(Attempt(a.session, a.code)) else LastBegin(front)
    ensures LastArm(front + [a]) == if a.ArmResponder? then Attempt(a.session, a.code) else LastArm(front)
  {
    assert (front + [a])[..|front|] == front;
  }

  lemma StepCurrent(g: Group, w: World, front: seq<Act>, a: Act)
    requires Inv(g, w) && Enabled(g, w, a) && Current(g, w, front)
    ensures Current(g, Step(g, w, a), front + [a])
  {
    var begin, arm := LastBegin(front), LastArm(front);
    LastAppend(front, a);
    match a
    case ArmResponder(session, code) => ArmCurrent(g, w, Attempt(session, code), begin);
    case BeginInitiator(session, code, scalar) => BeginCurrent(g, w, Attempt(session, code), scalar, arm);
    case ResendHello => ResendCurrent(g, w, begin, arm);
    case ToInitiator(m) => ToInitiatorCurrent(g, w, m, begin, arm);
    case ToResponder(m, offer, scalar) => ToResponderCurrent(g, w, m, offer, scalar, begin, arm);
  }

  lemma FrontEnabled(g: Group, w: World, front: seq<Act>, a: Act)
    requires AllEnabled(g, w, front + [a])
    ensures AllEnabled(g, w, front) && Enabled(g, Run(g, w, front), a)
    ensures Run(g, w, front + [a]) == Step(g, Run(g, w, front), a)
  {
    var all := front + [a];
    assert all[..|front|] == front;
    forall n | 0 <= n < |front|
      ensures Enabled(g, Run(g, w, front[..n]), front[n])
    {
      assert all[..n] == front[..n];
    }
  }

  lemma NewWorldCurrent(g: Group, iKey: Bytes, rKey: Bytes)
    ensures Current(g, NewWorld(g, iKey, rKey), [])
  {
  }

  lemma {:induction false} EveryRunCurrent(g: Group, iKey: Bytes, rKey: Bytes, acts: seq<Act>)
    requires g.Lawful() && |iKey| < LIMIT && |rKey| < LIMIT
    requires AllEnabled(g, NewWorld(g, iKey, rKey), acts)
    ensures Current(g, Run(g, NewWorld(g, iKey, rKey), acts), acts)
  {
    var start := NewWorld(g, iKey, rKey);
    if acts == [] {
      NewWorldCurrent(g, iKey, rKey);
    } else {
      var front, last := acts[..|acts| - 1], acts[|acts| - 1];
      assert front + [last] == acts;
      FrontEnabled(g, start, front, last);
      EveryRunKeeps(g, iKey, rKey, front);
      EveryRunCurrent(g, iKey, rKey, front);
      StepCurrent(g, Run(g, start, front), front, last);
    }
  }

  // ---------------------------------------------------------------- what was proved

  /** What the responder matched has the generator of the exchange it holds. */
  lemma MatchedGenerator(g: Group, w: World, k: nat, e: Exchange)
    requires g.Lawful() && |w.i.self| < LIMIT && |w.r.self| < LIMIT && SignedOk(g, w)
    requires k < |w.signed| && w.signed[k].auth == e.auth && Between(g, w, e, Responder) && e.derived
    ensures e.generator == w.signed[k].generator && e.generator in w.begun
  {
    TranscriptsAgree(g, w, w.signed[k], e);
  }

  lemma ResponderProved(g: Group, w: World, arm: Attempt)
    requires Inv(g, w) && ResponderCurrent(g, w, arm) && ResponderMatched(w) && w.r.state.Authenticated?
    ensures GeneratorOf(g, arm) in w.begun
    ensures w.signed[w.met[|w.met| - 1]].generator == GeneratorOf(g, arm)
  {
    HeldBetween(g, w, arm);
    MatchedGenerator(g, w, w.met[|w.met| - 1], w.r.exchange.value);
  }

  lemma SignedIsHeld(g: Group, w: World)
    requires InitiatorOk(g, w) && (w.i.state.Authenticated? || (w.i.exchange.Just? && w.i.exchange.value.derived))
    ensures w.i.exchange.Just? && |w.signed| > 0 && w.signed[|w.signed| - 1] == w.i.exchange.value
  {
  }

  lemma MetLast(g: Group, w: World)
    requires Inv(g, w) && w.i.state.Authenticated?
    ensures |w.signed| > 0 && |w.met| > 0 && w.met[|w.met| - 1] == |w.signed| - 1
  {
    SignedLast(g, w);
    NewestMetLast(g, w, |w.signed| - 1);
  }

  /** What the initiator signed last is what the responder met last. */
  lemma BothProved(g: Group, w: World)
    requires Inv(g, w) && w.i.state.Authenticated?
    ensures w.i.exchange.Just? && |w.met| > 0 && w.met[|w.met| - 1] < |w.signed|
    ensures w.signed[w.met[|w.met| - 1]].generator == w.i.exchange.value.generator
  {
    SignedIsHeld(g, w);
    MetLast(g, w);
  }

  // ---------------------------------------------------------------- and when

  /** A moment from which on the initiator has not begun again. */
  predicate SinceBegin(acts: seq<Act>, n: nat) {
    n <= |acts| && forall k | n <= k < |acts| :: !acts[k].BeginInitiator?
  }

  predicate SinceArm(acts: seq<Act>, n: nat) {
    n <= |acts| && forall k | n <= k < |acts| :: !acts[k].ArmResponder?
  }

  /** At some moment since the initiator last began, the responder was armed with this. */
  ghost predicate InForce(g: Group, acts: seq<Act>, p: Bytes) {
    exists n: nat :: SinceBegin(acts, n) && GeneratorOf(g, LastArm(acts[..n])) == p
  }

  /** At some moment since the responder was last armed, the initiator had begun with this. */
  ghost predicate AtHand(g: Group, acts: seq<Act>, p: Bytes) {
    exists n: nat ::
      SinceArm(acts, n) && LastBegin(acts[..n]).Just? && GeneratorOf(g, LastBegin(acts[..n]).value) == p
  }

  lemma InForceLater(g: Group, front: seq<Act>, a: Act, p: Bytes)
    requires InForce(g, front, p) && !a.BeginInitiator?
    ensures InForce(g, front + [a], p)
  {
    var n: nat :| SinceBegin(front, n) && GeneratorOf(g, LastArm(front[..n])) == p;
    assert (front + [a])[..n] == front[..n];
    assert SinceBegin(front + [a], n);
  }

  lemma AtHandLater(g: Group, front: seq<Act>, a: Act, p: Bytes)
    requires AtHand(g, front, p) && !a.ArmResponder?
    ensures AtHand(g, front + [a], p)
  {
    var n: nat :|
      SinceArm(front, n) && LastBegin(front[..n]).Just? && GeneratorOf(g, LastBegin(front[..n]).value) == p;
    assert (front + [a])[..n] == front[..n];
    assert SinceArm(front + [a], n);
  }

  lemma InForceNow(g: Group, acts: seq<Act>)
    ensures InForce(g, acts, GeneratorOf(g, LastArm(acts)))
  {
    assert acts[..|acts|] == acts;
    assert SinceBegin(acts, |acts|);
  }

  lemma AtHandNow(g: Group, acts: seq<Act>)
    requires LastBegin(acts).Just?
    ensures AtHand(g, acts, GeneratorOf(g, LastBegin(acts).value))
  {
    assert acts[..|acts|] == acts;
    assert SinceArm(acts, |acts|);
  }

  /** What the responder met last is what the initiator signed last and still holds. */
  predicate MetWhatIsHeld(w: World) {
    w.i.exchange.Just? && w.i.exchange.value.derived && |w.met| > 0 && w.met[|w.met| - 1] + 1 == |w.signed|
  }

  /** Then the responder was armed with its generator since the initiator began; and what
      the responder's exchange matches was begun since the responder was armed. */
  ghost predicate Timely(g: Group, w: World, acts: seq<Act>) {
    && (MetWhatIsHeld(w) ==> InForce(g, acts, w.i.exchange.value.generator))
    && (w.r.exchange.Just? ==>
          forall k | 0 <= k < |w.signed| && w.signed[k].auth == w.r.exchange.value.auth ::
            AtHand(g, acts, w.signed[k].generator))
  }

  /** Either nothing is signed and the exchange stays underived or derived, or it is signed. */
  lemma SignsOrNot(g: Group, w: World, m: PairingMessage)
    requires w.i.role.Initiator?
    ensures var w' := Step(g, w, ToInitiator(m));
      && w'.r == w.r && w'.met == w.met
      && if w'.signed == w.signed
         then w'.i.exchange.Just? ==>
                w.i.exchange.Just? && w'.i.exchange.value.derived == w.i.exchange.value.derived
                && w'.i.exchange.value.generator == w.i.exchange.value.generator
         else w'.i.exchange.Just? && w'.signed == w.signed + [w'.i.exchange.value]
  {
  }

  lemma ToInitiatorTimely(g: Group, w: World, m: PairingMessage, front: seq<Act>)
    requires w.i.role.Initiator? && MetOk(w) && Timely(g, w, front)
    requires InitiatorCurrent(g, Step(g, w, ToInitiator(m)), LastBegin(front + [ToInitiator(m)]))
    ensures Timely(g, Step(g, w, ToInitiator(m)), front + [ToInitiator(m)])
  {
    var a, w' := ToInitiator(m), Step(g, w, ToInitiator(m));
    SignsOrNot(g, w, m);
    if MetWhatIsHeld(w') {
      assert w.met[|w.met| - 1] < |w.signed|;
      InForceLater(g, front, a, w'.i.exchange.value.generator);
    }
    if w.r.exchange.Just? {
      forall k | 0 <= k < |w'.signed| && w'.signed[k].auth == w.r.exchange.value.auth
        ensures AtHand(g, front + [a], w'.signed[k].generator)
      {
        if k < |w.signed| {
          AtHandLater(g, front, a, w.signed[k].generator);
        } else {
          AtHandNow(g, front + [a]);
        }
      }
    }
  }

  /** What a step leaves of the signed exchanges and of the responder's own. */
  lemma ResponderTimely(g: Group, w: World, w': World, front: seq<Act>, a: Act)
    requires Timely(g, w, front) && !a.ArmResponder? && w'.signed == w.signed
    requires w'.r.exchange == w.r.exchange || NothingMatches(w')
    ensures w'.r.exchange.Just? ==>
      forall k | 0 <= k < |w'.signed| && w'.signed[k].auth == w'.r.exchange.value.auth ::
        AtHand(g, front + [a], w'.signed[k].generator)
  {
    if w'.r.exchange.Just? {
      forall k | 0 <= k < |w'.signed| && w'.signed[k].auth == w'.r.exchange.value.auth
        ensures AtHand(g, front + [a], w'.signed[k].generator)
      {
        AtHandLater(g, front, a, w.signed[k].generator);
      }
    }
  }

  predicate NothingMatches(w: World) {
    w.r.exchange.Just? ==> forall k | 0 <= k < |w.signed| :: w.signed[k].auth != w.r.exchange.value.auth
  }

  /** A responder's new exchange has a fresh share, so no signature matches it yet. */
  lemma StartedMatchesNothing(g: Group, w: World, m: PairingMessage, offer: Maybe<OfferStatus>, scalar: nat)
    requires Inv(g, w) && Enabled(g, w, ToResponder(m, offer, scalar)) && Starts(w, m, offer)
    ensures var w' := Step(g, w, ToResponder(m, offer, scalar));
      w'.i == w.i && w'.signed == w.signed && w'.met == w.met && NothingMatches(w')
  {
    assert MessageOk(g, w, m);
    var hello := m.hello.value;
    StartShape(g, w, scalar, hello);
    var e := Receive(g, NewExchange(g, Responder, w.r.self, w.r.session, w.r.code, scalar), hello.key, hello.share).0;
    StartStep(g, w, m, offer, scalar, e);
    FreshMatches(g, w, Step(g, w, ToResponder(m, offer, scalar)), e);
  }

  lemma FreshMatches(g: Group, w: World, w': World, e: Exchange)
    requires g.Lawful() && |w.i.self| < LIMIT && |w.r.self| < LIMIT
    requires SignedOk(g, w) && w'.i == w.i && w'.r.self == w.r.self && w'.signed == w.signed
    requires w'.used == w.used + {e.share}
    requires Between(g, w.(used := w.used + {e.share}), e, Responder) && e.derived && e.share !in w.used
    ensures forall k | 0 <= k < |w.signed| :: w.signed[k].auth != e.auth
  {
    forall k | 0 <= k < |w.signed|
      ensures w.signed[k].auth != e.auth
    {
      assert Between(g, w, w.signed[k], Initiator);
      if w.signed[k].auth == e.auth {
        var v := w.(used := w.used + {e.share});
        assert Between(g, v, w.signed[k], Initiator);
        TranscriptsAgree(g, v, w.signed[k], e);
      }
    }
  }

  /** Any other message leaves the responder's exchange as it was. */
  lemma ExchangeStays(g: Group, w: World, m: PairingMessage, offer: Maybe<OfferStatus>, scalar: nat)
    requires w.r.role.Responder? && !Starts(w, m, offer)
    ensures var w' := Step(g, w, ToResponder(m, offer, scalar));
      && w'.i == w.i && w'.signed == w.signed && w'.r.exchange == w.r.exchange
      && (w'.met != w.met ==> w'.r.state.Authenticated?)
  {
  }

  lemma ToResponderTimely(g: Group, w: World, m: PairingMessage, offer: Maybe<OfferStatus>, scalar: nat,
                          front: seq<Act>)
    requires Inv(g, w) && Enabled(g, w, ToResponder(m, offer, scalar)) && Timely(g, w, front)
    requires var w', a := Step(g, w, ToResponder(m, offer, scalar)), ToResponder(m, offer, scalar);
      Inv(g, w') && Current(g, w', front + [a])
    ensures var w', a := Step(g, w, ToResponder(m, offer, scalar)), ToResponder(m, offer, scalar);
      Timely(g, w', front + [a])
  {
    var a := ToResponder(m, offer, scalar);
    var w' := Step(g, w, a);
    if Starts(w, m, offer) {
      StartedMatchesNothing(g, w, m, offer, scalar);
    } else {
      ExchangeStays(g, w, m, offer, scalar);
    }
    if w'.met != w.met && MetWhatIsHeld(w') {
      HeldWasInForce(g, w', front + [a]);
    }
    AnsweredTimely(g, w, w', front, a);
  }

  /** The same, given what holds of a new establishment. */
  lemma AnsweredTimely(g: Group, w: World, w': World, front: seq<Act>, a: Act)
    requires Timely(g, w, front) && a.ToResponder?
    requires w'.i == w.i && w'.signed == w.signed
    requires w'.r.exchange == w.r.exchange || NothingMatches(w')
    requires w'.met != w.met && MetWhatIsHeld(w') ==> InForce(g, front + [a], w'.i.exchange.value.generator)
    ensures Timely(g, w', front + [a])
  {
    ResponderTimely(g, w, w', front, a);
    if MetWhatIsHeld(w') && w'.met == w.met {
      InForceLater(g, front, a, w.i.exchange.value.generator);
    }
  }

  /** At the moment the responder establishes, its latest arming is in force. */
  lemma HeldGenerator(g: Group, w: World, acts: seq<Act>)
    requires Inv(g, w) && Current(g, w, acts) && w.r.state.Authenticated? && MetWhatIsHeld(w)
    ensures w.i.exchange.Just? && w.i.exchange.value.generator == GeneratorOf(g, LastArm(acts))
  {
    ResponderProved(g, w, LastArm(acts));
    SignedIsHeld(g, w);
  }

  lemma HeldWasInForce(g: Group, w: World, acts: seq<Act>)
    requires Inv(g, w) && Current(g, w, acts) && w.r.state.Authenticated? && MetWhatIsHeld(w)
    ensures InForce(g, acts, w.i.exchange.value.generator)
  {
    HeldGenerator(g, w, acts);
    InForceNow(g, acts);
  }

  lemma StepTimely(g: Group, w: World, front: seq<Act>, a: Act)
    requires Inv(g, w) && Enabled(g, w, a) && Timely(g, w, front)
    requires Inv(g, Step(g, w, a)) && Current(g, Step(g, w, a), front + [a])
    ensures Timely(g, Step(g, w, a), front + [a])
  {
    match a
    case ArmResponder(_, _) => ArmTimely(g, w, front, a);
    case BeginInitiator(_, _, _) => BeginTimely(g, w, front, a);
    case ResendHello => ResendTimely(g, w, front);
    case ToInitiator(m) => ToInitiatorTimely(g, w, m, front);
    case ToResponder(m, offer, scalar) => ToResponderTimely(g, w, m, offer, scalar, front);
  }

  lemma ArmTimely(g: Group, w: World, front: seq<Act>, a: Act)
    requires a.ArmResponder? && Timely(g, w, front)
    ensures Timely(g, Step(g, w, a), front + [a])
  {
    if MetWhatIsHeld(w) {
      InForceLater(g, front, a, w.i.exchange.value.generator);
    }
  }

  lemma BeginTimely(g: Group, w: World, front: seq<Act>, a: Act)
    requires a.BeginInitiator? && Timely(g, w, front)
    ensures Timely(g, Step(g, w, a), front + [a])
  {
    var w' := Step(g, w, a);
    assert !w'.i.exchange.value.derived;
    ResponderTimely(g, w, w', front, a);
  }

  lemma ResendTimely(g: Group, w: World, front: seq<Act>)
    requires Timely(g, w, front)
    ensures Timely(g, Step(g, w, ResendHello), front + [ResendHello])
  {
    if MetWhatIsHeld(w) {
      InForceLater(g, front, ResendHello, w.i.exchange.value.generator);
    }
    ResponderTimely(g, w, Step(g, w, ResendHello), front, ResendHello);
  }

  lemma {:induction false} EveryRunTimely(g: Group, iKey: Bytes, rKey: Bytes, acts: seq<Act>)
    requires g.Lawful() && |iKey| < LIMIT && |rKey| < LIMIT
    requires AllEnabled(g, NewWorld(g, iKey, rKey), acts)
    ensures Timely(g, Run(g, NewWorld(g, iKey, rKey), acts), acts)
  {
    if acts != [] {
      var start, front, last := NewWorld(g, iKey, rKey), acts[..|acts| - 1], acts[|acts| - 1];
      assert front + [last] == acts;
      FrontEnabled(g, start, front, last);
      EveryRunTimely(g, iKey, rKey, front);
      EveryRunKeeps(g, iKey, rKey, front);
      EveryRunKeeps(g, iKey, rKey, acts);
      EveryRunCurrent(g, iKey, rKey, acts);
      StepTimely(g, Run(g, start, front), front, last);
    }
  }

  lemma InitiatorProved(g: Group, w: World, acts: seq<Act>)
    requires Inv(g, w) && InitiatorCurrent(g, w, LastBegin(acts)) && Timely(g, w, acts) && w.i.state.Authenticated?
    ensures LastBegin(acts).Just? && InForce(g, acts, GeneratorOf(g, LastBegin(acts).value))
  {
    MetLast(g, w);
  }

  lemma ResponderTimed(g: Group, w: World, acts: seq<Act>)
    requires Inv(g, w) && Current(g, w, acts) && Timely(g, w, acts) && w.r.state.Authenticated?
    ensures AtHand(g, acts, GeneratorOf(g, LastArm(acts)))
  {
    ResponderProved(g, w, LastArm(acts));
  }

  lemma BothCurrent(g: Group, w: World, acts: seq<Act>)
    requires Inv(g, w) && Current(g, w, acts) && w.i.state.Authenticated? && w.r.state.Authenticated?
    ensures LastBegin(acts).Just? && GeneratorOf(g, LastBegin(acts).value) == GeneratorOf(g, LastArm(acts))
  {
    BothProved(g, w);
    ResponderProved(g, w, LastArm(acts));
  }

  /** Attempt by attempt: if the initiator is authenticated, then at some moment since it
      last began the responder was armed with the generator it began with; if the responder
      is, then at some moment since it was last armed the initiator had begun with its
      generator; and if both are, the two are the same now. */
  lemma DifferentCodesNeverPair(g: Group, iKey: Bytes, rKey: Bytes, acts: seq<Act>)
    requires g.Lawful() && |iKey| < LIMIT && |rKey| < LIMIT
    requires AllEnabled(g, NewWorld(g, iKey, rKey), acts)
    ensures var w := Run(g, NewWorld(g, iKey, rKey), acts);
      && (w.i.state.Authenticated? ==>
            LastBegin(acts).Just? && InForce(g, acts, GeneratorOf(g, LastBegin(acts).value)))
      && (w.r.state.Authenticated? ==> AtHand(g, acts, GeneratorOf(g, LastArm(acts))))
      && (w.i.state.Authenticated? && w.r.state.Authenticated? ==>
            GeneratorOf(g, LastBegin(acts).value) == GeneratorOf(g, LastArm(acts)))
  {
    EveryRunKeeps(g, iKey, rKey, acts);
    EveryRunCurrent(g, iKey, rKey, acts);
    EveryRunTimely(g, iKey, rKey, acts);
    var w := Run(g, NewWorld(g, iKey, rKey), acts);
    if w.i.state.Authenticated? {
      InitiatorProved(g, w, acts);
    }
    if w.r.state.Authenticated? {
      ResponderTimed(g, w, acts);
      if w.i.state.Authenticated? {
        BothCurrent(g, w, acts);
      }
    }
  }

  // ---------------------------------------------------------------- in terms of codes

  lemma {:induction false} LastBeginWasBegun(acts: seq<Act>)
    requires LastBegin(acts).Just?
    ensures Begun(acts, LastBegin(acts).value.session, LastBegin(acts).value.code)
  {
    var front, last, b := acts[..|acts| - 1], acts[|acts| - 1], LastBegin(acts).value;
    if last.BeginInitiator? {
      assert BeginsWith(acts[|acts| - 1], b.session, b.code);
    } else {
      LastBeginWasBegun(front);
      var n :| 0 <= n < |front| && BeginsWith(front[n], b.session, b.code);
      assert BeginsWith(acts[n], b.session, b.code);
    }
  }

  lemma {:induction false} LastArmWasArmed(acts: seq<Act>)
    ensures Armed(acts, LastArm(acts).session, LastArm(acts).code)
  {
    if acts != [] && !acts[|acts| - 1].ArmResponder? {
      LastArmWasArmed(acts[..|acts| - 1]);
    }
  }

  lemma SameSeed(g: Group, acts: seq<Act>, begun: Attempt, armed: Attempt)
    requires NoCollision(g, acts) && Begun(acts, begun.session, begun.code) && Armed(acts, armed.session, armed.code)
    requires GeneratorOf(g, begun) == GeneratorOf(g, armed)
    ensures begun == armed
  {
    SeedInjective(begun.code, begun.session, armed.code, armed.session);
  }

  /** What was begun or armed by some moment still was later. */
  lemma BegunLater(acts: seq<Act>, n: nat, session: Bytes, code: Bytes)
    requires n <= |acts| && Begun(acts[..n], session, code)
    ensures Begun(acts, session, code)
  {
    var k :| 0 <= k < n && BeginsWith(acts[..n][k], session, code);
    assert BeginsWith(acts[k], session, code);
  }

  lemma ArmedLater(acts: seq<Act>, n: nat, session: Bytes, code: Bytes)
    requires n <= |acts| && Armed(acts[..n], session, code)
    ensures Armed(acts, session, code)
  {
  }

  lemma CodeInForce(g: Group, acts: seq<Act>)
    requires NoCollision(g, acts) && LastBegin(acts).Just? && InForce(g, acts, GeneratorOf(g, LastBegin(acts).value))
    ensures exists n: nat :: SinceBegin(acts, n) && LastArm(acts[..n]) == LastBegin(acts).value
  {
    var begun := LastBegin(acts).value;
    var n: nat :| SinceBegin(acts, n) && GeneratorOf(g, LastArm(acts[..n])) == GeneratorOf(g, begun);
    var armed := LastArm(acts[..n]);
    LastBeginWasBegun(acts);
    LastArmWasArmed(acts[..n]);
    ArmedLater(acts, n, armed.session, armed.code);
    SameSeed(g, acts, begun, armed);
  }

  lemma CodeAtHand(g: Group, acts: seq<Act>)
    requires NoCollision(g, acts) && AtHand(g, acts, GeneratorOf(g, LastArm(acts)))
    ensures exists n: nat :: SinceArm(acts, n) && LastBegin(acts[..n]) == Just(LastArm(acts))
  {
    var armed := LastArm(acts);
    var n: nat :| SinceArm(acts, n) && LastBegin(acts[..n]).Just?
      && GeneratorOf(g, LastBegin(acts[..n]).value) == GeneratorOf(g, armed);
    var begun := LastBegin(acts[..n]).value;
    LastArmWasArmed(acts);
    LastBeginWasBegun(acts[..n]);
    BegunLater(acts, n, begun.session, begun.code);
    SameSeed(g, acts, begun, armed);
  }

  /** No attempt with a wrong code succeeds, whatever was paired or armed before it: if the
      initiator is authenticated, then since it last began there was a moment at which its
      session and code were the ones the responder was armed with; if the responder is,
      then since it was last armed there was a moment at which its session and code were
      the ones the initiator had begun with; and if both are, they are the same now. */
  lemma WrongCodeNeverPairs(g: Group, iKey: Bytes, rKey: Bytes, acts: seq<Act>)
    requires g.Lawful() && |iKey| < LIMIT && |rKey| < LIMIT && NoCollision(g, acts)
    requires AllEnabled(g, NewWorld(g, iKey, rKey), acts)
    ensures var w := Run(g, NewWorld(g, iKey, rKey), acts);
      && (w.i.state.Authenticated? ==>
            LastBegin(acts).Just?
            && exists n: nat :: SinceBegin(acts, n) && LastArm(acts[..n]) == LastBegin(acts).value)
      && (w.r.state.Authenticated? ==>
            exists n: nat :: SinceArm(acts, n) && LastBegin(acts[..n]) == Just(LastArm(acts)))
      && (w.i.state.Authenticated? && w.r.state.Authenticated? ==> LastBegin(acts) == Just(LastArm(acts)))
  {
    DifferentCodesNeverPair(g, iKey, rKey, acts);
    var w := Run(g, NewWorld(g, iKey, rKey), acts);
    if w.i.state.Authenticated? {
      CodeInForce(g, acts);
      if w.r.state.Authenticated? {
        LastBeginWasBegun(acts);
        LastArmWasArmed(acts);
        SameSeed(g, acts, LastBegin(acts).value, LastArm(acts));
      }
    }
    if w.r.state.Authenticated? {
      CodeAtHand(g, acts);
    }
  }
}
