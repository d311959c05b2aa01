/** The handshake can complete: with the same code for the same session and no loss, both
    sides authenticate.  So what module PairingAgreement proves is not empty. */
module PairingCompletes {
  import opened Basics
  import opened Encoding
  import opened Pairing
  import opened PairingOffers
  import opened SecureChannels
  import opened PeerSessionModel
  import opened PairingAgreement

  /** The two exchanges of a completed handshake. */
  function FirstHalf(g: Group, iKey: Bytes, session: Bytes, code: Bytes, x: nat): Exchange {
    NewExchange(g, Initiator, iKey, session, code, x)
  }

  function Responding(g: Group, iKey: Bytes, rKey: Bytes, session: Bytes, code: Bytes, x: nat, y: nat): Exchange {
    Receive(g, NewExchange(g, Responder, rKey, session, code, y), iKey, FirstHalf(g, iKey, session, code, x).share).0
  }

  function Initiating(g: Group, iKey: Bytes, rKey: Bytes, session: Bytes, code: Bytes, x: nat, y: nat): Exchange {
    Receive(g, FirstHalf(g, iKey, session, code, x), rKey,
            NewExchange(g, Responder, rKey, session, code, y).share).0
  }

  lemma BothDerive(g: Group, iKey: Bytes, rKey: Bytes, session: Bytes, code: Bytes, x: nat, y: nat)
    requires g.Lawful()
    ensures var i, r := Initiating(g, iKey, rKey, session, code, x, y), Responding(g, iKey, rKey, session, code, x, y);
      && i.derived && r.derived && i.peer == rKey && r.peer == iKey && i.self == iKey && r.self == rKey
      && i.auth == r.auth && r.share == g.times(y, g.generator(Seed(code, session)))
      && Receive(g, FirstHalf(g, iKey, session, code, x), rKey, r.share) == (i, NoError)
      && Receive(g, NewExchange(g, Responder, rKey, session, code, y), iKey,
                 FirstHalf(g, iKey, session, code, x).share) == (r, NoError)
  {
    var p := g.generator(Seed(code, session));
    assert g.Usable(p) && g.Usable(g.times(x, p)) && g.Usable(g.times(y, p));
    var e := NewExchange(g, Responder, rKey, session, code, y);
    ReceiveSound(g, FirstHalf(g, iKey, session, code, x), rKey, e.share);
    ReceiveSound(g, e, iKey, FirstHalf(g, iKey, session, code, x).share);
    KeysAgree(g, Initiating(g, iKey, rKey, session, code, x, y), Responding(g, iKey, rKey, session, code, x, y));
  }

  lemma Extend(g: Group, w: World, acts: seq<Act>, a: Act)
    requires AllEnabled(g, w, acts) && Enabled(g, Run(g, w, acts), a)
    ensures AllEnabled(g, w, acts + [a])
    ensures Run(g, w, acts + [a]) == Step(g, Run(g, w, acts), a)
  {
    assert (acts + [a])[..|acts|] == acts;
    forall n | 0 <= n < |acts + [a]|
      ensures Enabled(g, Run(g, w, (acts + [a])[..n]), (acts + [a])[n])
    {
      assert n < |acts| ==> (acts + [a])[..n] == acts[..n];
    }
  }

  /** The responder, waiting with its code, hears the hello. */
  lemma OnHello(g: Group, w: World, iKey: Bytes, session: Bytes, x: nat, y: nat)
    requires g.Lawful() && w.r.role.Responder? && w.r.session == session && w.r.exchange.Nothing?
    requires var e := FirstHalf(g, iKey, session, w.r.code, x);
      Pair1(session, Just(Hello(iKey, e.share))) in w.net
    ensures var e := FirstHalf(g, iKey, session, w.r.code, x);
      var r := Responding(g, iKey, w.r.self, session, w.r.code, x, y);
      var w' := Step(g, w, ToResponder(Pair1(session, Just(Hello(iKey, e.share))), Nothing, y));
      && w'.r == w.r.(exchange := Just(r), peer := iKey, havePeer := true) && w'.i == w.i
      && w'.net == w.net + {Pair2(Just(Hello(w.r.self, r.share)))} && w'.used == w.used + {r.share}
  {
    BothDerive(g, iKey, w.r.self, session, w.r.code, x, y);
    var e := FirstHalf(g, iKey, session, w.r.code, x);
    StartStep(g, w, Pair1(session, Just(Hello(iKey, e.share))), Nothing, y,
              Responding(g, iKey, w.r.self, session, w.r.code, x, y));
  }

  /** The initiator hears the responder's share and signs. */
  lemma OnShare(g: Group, w: World, e: Exchange, i: Exchange, key: Bytes, share: Bytes)
    requires w.i.role.Initiator? && w.i.exchange == Just(e) && Receive(g, e, key, share) == (i, NoError)
    ensures var w' := Step(g, w, ToInitiator(Pair2(Just(Hello(key, share)))));
      && w'.i == w.i.(exchange := Just(i), peer := key, havePeer := true) && w'.r == w.r && w'.used == w.used
      && w'.net == w.net + {Pair3(Just(SignatureOf(i)))}
  {
    assert Elements([Pair3(Just(SignatureOf(i)))]) == {Pair3(Just(SignatureOf(i)))};
  }

  lemma OnAnswer(g: Group, w: World, i: Exchange, auth: Auth)
    requires w.i.role.Initiator? && w.i.exchange == Just(i) && i.derived && i.auth == auth
    ensures var w' := Step(g, w, ToInitiator(Pair4(Just(Sig(i.peer, auth)))));
      w'.i.state.Authenticated? && w'.r == w.r
  {
  }

  /** The responder waits with its code; the initiator's hello is under way. */
  ghost predicate Waiting(w: World, e: Exchange, rKey: Bytes, session: Bytes, code: Bytes) {
    && w.i.role.Initiator? && w.i.exchange == Just(e) && w.used == {e.share}
    && w.r == Arm(NewSession(Responder, rKey), session, code)
    && Pair1(session, Just(Hello(e.self, e.share))) in w.net
  }

  /** Both have derived; the initiator's signature is under way. */
  ghost predicate Shared(w: World, i: Exchange, r: Exchange, session: Bytes, code: Bytes) {
    && w.i.role.Initiator? && w.i.exchange == Just(i)
    && w.r.role.Responder? && w.r.exchange == Just(r) && w.r.session == session && w.r.code == code
    && w.r.self == r.self && w.used == {i.share, r.share}
    && Pair3(Just(SignatureOf(i))) in w.net
  }

  lemma Meet(g: Group, iKey: Bytes, rKey: Bytes, session: Bytes, code: Bytes, x: nat) returns (acts: seq<Act>)
    requires g.Lawful() && |session| < LIMIT
    ensures AllEnabled(g, NewWorld(g, iKey, rKey), acts)
    ensures Waiting(Run(g, NewWorld(g, iKey, rKey), acts), FirstHalf(g, iKey, session, code, x), rKey, session, code)
  {
    var w := NewWorld(g, iKey, rKey);
    Extend(g, w, [], ArmResponder(session, code));
    Extend(g, w, [] + [ArmResponder(session, code)], BeginInitiator(session, code, x));
    acts := [] + [ArmResponder(session, code)] + [BeginInitiator(session, code, x)];
  }

  lemma Share(g: Group, w0: World, before: seq<Act>, iKey: Bytes, rKey: Bytes, session: Bytes, code: Bytes, x: nat, y: nat)
    returns (acts: seq<Act>)
    requires g.Lawful() && AllEnabled(g, w0, before)
    requires Waiting(Run(g, w0, before), FirstHalf(g, iKey, session, code, x), rKey, session, code)
    requires g.times(y, g.generator(Seed(code, session))) != FirstHalf(g, iKey, session, code, x).share
    ensures AllEnabled(g, w0, acts)
    ensures Shared(Run(g, w0, acts), Initiating(g, iKey, rKey, session, code, x, y),
                   Responding(g, iKey, rKey, session, code, x, y), session, code)
  {
    var w, e := Run(g, w0, before), FirstHalf(g, iKey, session, code, x);
    var i, r := Initiating(g, iKey, rKey, session, code, x, y), Responding(g, iKey, rKey, session, code, x, y);
    BothDerive(g, iKey, rKey, session, code, x, y);
    var hello, share := Pair1(session, Just(Hello(iKey, e.share))), Pair2(Just(Hello(rKey, r.share)));
    OnHello(g, w, iKey, session, x, y);
    Extend(g, w0, before, ToResponder(hello, Nothing, y));
    acts := before + [ToResponder(hello, Nothing, y)];
    OnShare(g, Run(g, w0, acts), e, i, rKey, r.share);
    Extend(g, w0, acts, ToInitiator(share));
    acts := acts + [ToInitiator(share)];
  }

  lemma Prove(g: Group, w0: World, before: seq<Act>, i: Exchange, r: Exchange, session: Bytes, code: Bytes, z: nat)
    returns (acts: seq<Act>)
    requires AllEnabled(g, w0, before) && Shared(Run(g, w0, before), i, r, session, code)
    requires i.derived && r.derived && i.auth == r.auth && i.peer == r.self && r.peer == i.self
    requires g.times(z, Generator(g, code, session)) !in {i.share, r.share}
    ensures AllEnabled(g, w0, acts)
    ensures var w := Run(g, w0, acts); w.i.state.Authenticated? && w.r.state.Authenticated?
  {
    var w := Run(g, w0, before);
    var first, second := Pair3(Just(SignatureOf(i))), Pair4(Just(Sig(w.r.self, r.auth)));
    EstablishStep(g, w, first, Nothing, z, r);
    Extend(g, w0, before, ToResponder(first, Nothing, z));
    acts := before + [ToResponder(first, Nothing, z)];
    OnAnswer(g, Run(g, w0, acts), i, r.auth);
    Extend(g, w0, acts, ToInitiator(second));
    acts := acts + [ToInitiator(second)];
  }

  /** Same code, same session, nothing lost and three shares never drawn before: both sides
      authenticate, whatever the keys. */
  lemma SameCodePairs(g: Group, iKey: Bytes, rKey: Bytes, session: Bytes, code: Bytes, x: nat, y: nat, z: nat)
    returns (acts: seq<Act>)
    requires g.Lawful() && |session| < LIMIT
    requires var p := g.generator(Seed(code, session));
      g.times(y, p) != g.times(x, p) && g.times(z, p) != g.times(x, p) && g.times(z, p) != g.times(y, p)
    ensures AllEnabled(g, NewWorld(g, iKey, rKey), acts)
    ensures var w := Run(g, NewWorld(g, iKey, rKey), acts);
      w.i.state.Authenticated? && w.r.state.Authenticated?
  {
    var w := NewWorld(g, iKey, rKey);
    BothDerive(g, iKey, rKey, session, code, x, y);
    acts := Meet(g, iKey, rKey, session, code, x);
    acts := Share(g, w, acts, iKey, rKey, session, code, x, y);
    acts := Prove(g, w, acts, Initiating(g, iKey, rKey, session, code, x, y),
                  Responding(g, iKey, rKey, session, code, x, y), session, code, z);
  }
}
