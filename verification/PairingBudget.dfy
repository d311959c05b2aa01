/** How often a responder that pairs through an offer book lets itself be guessed at
    (shared/session/src/peer_session.cpp with the book of shared/security/src/pairing.cpp).
    Every new exchange is one guess at the code; the messages are arbitrary. */
module PairingBudget {
  import opened Basics
  import opened Encoding
  import opened Pairing
  import opened PairingOffers
  import opened PeerSessionModel

  /** The session, its book, how many exchanges it has started, and which of them were
      charged as failed. */
  datatype Desk = Desk(s: Session, book: Book, started: nat, failed: set<nat>)

  datatype DeskAct =
    | Rearm(session: Bytes, code: Bytes)
    | Deliver(m: PairingMessage, now: nat, scalar: nat)

  /** Whether the message makes the session start an exchange. */
  predicate Begins(d: Desk, m: PairingMessage, now: nat) {
    && m.Pair1? && m.session == d.s.session && CheckOffer(d.book, d.s.session, now) == Valid && m.hello.Just?
    && !(d.s.exchange.Just? && d.s.havePeer && d.s.peer == m.hello.value.key)
  }

  function Answer(g: Group, d: Desk, m: PairingMessage, now: nat, scalar: nat): Outcome {
    Handle(g, d.s, m, Just(CheckOffer(d.book, d.s.session, now)), scalar)
  }

  function Step(g: Group, d: Desk, a: DeskAct): Desk {
    match a
    case Rearm(session, code) => d.(s := Arm(d.s, session, code))
    case Deliver(m, now, scalar) =>
      var o := Answer(g, d, m, now, scalar);
      var started := d.started + if Begins(d, m, now) then 1 else 0;
      Desk(o.session, BookAfter(o, d.book, d.s.session), started,
           if o.charged then d.failed + {started} else d.failed)
  }

  function Run(g: Group, d: Desk, acts: seq<DeskAct>): Desk {
    if acts == [] then d else Step(g, Run(g, d, acts[..|acts| - 1]), acts[|acts| - 1])
  }

  // ---------------------------------------------------------------- at most that many guesses

  /** Each failed exchange has been paid for, and the one in hand can still be. */
  ghost predicate Paid(d: Desk, paid: nat) {
    && d.s.role.Responder?
    && paid + |d.failed| <= d.book.attempts
    && (forall n | n in d.failed :: n <= d.started)
    && (d.s.exchange.Just? ==> d.book.has && d.book.session == d.s.session)
    && (d.s.exchange.Just? && d.started !in d.failed ==> paid + |d.failed| < d.book.maxAttempts)
    && (d.failed == {} || paid + |d.failed| <= d.book.maxAttempts)
  }

  lemma StepPays(g: Group, d: Desk, a: DeskAct, paid: nat)
    requires Paid(d, paid)
    ensures Paid(Step(g, d, a), paid) && Step(g, d, a).book.maxAttempts == d.book.maxAttempts
  {
    match a
    case Rearm(_, _) =>
    case Deliver(m, now, scalar) =>
      if Begins(d, m, now) {
        BeginPays(g, d, m, now, scalar, paid);
      } else {
        JudgePays(g, d, m, now, scalar, paid);
      }
  }

  /** An exchange is begun only while the offer is valid. */
  lemma BeginPays(g: Group, d: Desk, m: PairingMessage, now: nat, scalar: nat, paid: nat)
    requires Paid(d, paid) && Begins(d, m, now)
    ensures var d' := Step(g, d, Deliver(m, now, scalar));
      Paid(d', paid) && d'.book.maxAttempts == d.book.maxAttempts
  {
    var o := Answer(g, d, m, now, scalar);
    assert d.started + 1 !in d.failed;
    assert o.session.exchange.Just? && o.session.session == d.s.session && !o.established;
  }

  lemma JudgePays(g: Group, d: Desk, m: PairingMessage, now: nat, scalar: nat, paid: nat)
    requires Paid(d, paid) && !Begins(d, m, now)
    ensures var d' := Step(g, d, Deliver(m, now, scalar));
      Paid(d', paid) && d'.book.maxAttempts == d.book.maxAttempts
  {
    QuietAnswer(g, d, m, now, scalar);
    if Answer(g, d, m, now, scalar).charged && d.started in d.failed {
      assert d.failed + {d.started} == d.failed;
    }
  }

  lemma QuietAnswer(g: Group, d: Desk, m: PairingMessage, now: nat, scalar: nat)
    requires d.s.role.Responder? && !Begins(d, m, now)
    ensures var o := Answer(g, d, m, now, scalar);
      && o.session.role == d.s.role && o.session.session == d.s.session && o.session.exchange == d.s.exchange
      && (o.charged ==> d.s.exchange.Just? && !o.established)
  {
  }

  /** However the messages come, and however often the session is armed again without a new
      offer, no more exchanges fail than the offer has attempts left. */
  lemma {:induction false} GuessesArePaidFor(g: Group, s: Session, book: Book, acts: seq<DeskAct>)
    requires s.role.Responder? && s.exchange.Nothing?
    ensures var d := Run(g, Desk(s, book, 0, {}), acts);
      && Paid(d, book.attempts) && d.book.maxAttempts == book.maxAttempts
      && |d.failed| <= if book.maxAttempts > book.attempts then book.maxAttempts - book.attempts else 0
  {
    if acts != [] {
      GuessesArePaidFor(g, s, book, acts[..|acts| - 1]);
      StepPays(g, Run(g, Desk(s, book, 0, {}), acts[..|acts| - 1]), acts[|acts| - 1], book.attempts);
    }
  }

  // ---------------------------------------------------------------- any number of judgements

  /** One exchange, though, is judged as often as PAIR3 comes: the wrong signatures are all
      charged to it, whatever is left of the offer, and the right one still establishes. */
  lemma {:induction false} JudgedAgain(g: Group, d: Desk, acts: seq<DeskAct>)
    requires d.s.role.Responder? && d.s.exchange.Just? && d.s.exchange.value.derived
    requires d.book.has && d.book.session == d.s.session
    requires forall i | 0 <= i < |acts| :: WrongAnswer(d, acts[i])
    ensures var e, d' := d.s.exchange.value, Run(g, d, acts);
      && d'.s.exchange == d.s.exchange && d'.s.role.Responder? && d'.s.session == d.s.session
      && d'.book == d.book.(attempts := d.book.attempts + |acts|)
      && d'.failed == (if acts == [] then d.failed else d.failed + {d.started}) && d'.started == d.started
      && forall now, scalar ::
           Answer(g, d', Pair3(Just(Sig(e.peer, e.auth))), now, scalar).session.state.Authenticated?
  {
    if acts != [] {
      JudgedAgain(g, d, acts[..|acts| - 1]);
    }
  }

  predicate WrongAnswer(d: Desk, a: DeskAct)
    requires d.s.exchange.Just?
  {
    a.Deliver? && a.m.Pair3? && a.m.sig.Just? && Judge(d.s.exchange.value, a.m.sig.value) == BadSignature
  }

  // ---------------------------------------------------------------- used and expired offers

  /** The offer is used up, or every message comes when it has expired. */
  predicate Dead(book: Book, acts: seq<DeskAct>) {
    book.consumed || forall i | 0 <= i < |acts| && acts[i].Deliver? :: acts[i].now >= book.expiresAt
  }

  /** Whatever messages come and however often the session is armed, a used or expired offer
      starts no exchange, and the session holds none but the one it began with. */
  lemma {:induction false} DeadOfferStartsNothing(g: Group, d: Desk, acts: seq<DeskAct>)
    requires d.s.role.Responder? && Dead(d.book, acts)
    ensures var d' := Run(g, d, acts);
      && d'.started == d.started && (d'.s.exchange == d.s.exchange || d'.s.exchange == Nothing)
      && d'.s.role.Responder? && d'.book.expiresAt == d.book.expiresAt && (d.book.consumed ==> d'.book.consumed)
  {
    if acts != [] {
      var front, last := acts[..|acts| - 1], acts[|acts| - 1];
      DeadOfferStartsNothing(g, d, front);
      if last.Deliver? {
        var before := Run(g, d, front);
        ValidExactly(before.book, [], before.s.session, last.now);
        QuietAnswer(g, before, last.m, last.now, last.scalar);
      }
    }
  }

  // ---------------------------------------------------------------- an offer pairs once

  /** An authenticated responder has used its offer up. */
  ghost predicate UsedUp(d: Desk) {
    && d.s.role.Responder?
    && (d.s.exchange.Just? ==> d.book.has && d.book.session == d.s.session)
    && (d.s.state.Authenticated? ==> d.book.consumed)
  }

  lemma StepUsesUp(g: Group, d: Desk, a: DeskAct)
    requires UsedUp(d)
    ensures UsedUp(Step(g, d, a))
  {
  }

  lemma {:induction false} AuthenticatedHasUsedUp(g: Group, d: Desk, acts: seq<DeskAct>)
    requires UsedUp(d)
    ensures UsedUp(Run(g, d, acts))
  {
    if acts != [] {
      AuthenticatedHasUsedUp(g, d, acts[..|acts| - 1]);
      StepUsesUp(g, Run(g, d, acts[..|acts| - 1]), acts[|acts| - 1]);
    }
  }

  /** One offer pairs once: from a session that is not authenticated, once any messages have
      authenticated it, no others, and no re-arming without a new offer, start an exchange. */
  lemma OfferPairsOnce(g: Group, s: Session, book: Book, acts: seq<DeskAct>, more: seq<DeskAct>)
    requires s.role.Responder? && s.exchange.Nothing? && !s.state.Authenticated?
    ensures var d := Run(g, Desk(s, book, 0, {}), acts);
      d.s.state.Authenticated? ==>
        && CheckOffer(d.book, d.s.session, 0) != Valid
        && Run(g, d, more).started == d.started
        && (Run(g, d, more).s.exchange == d.s.exchange || Run(g, d, more).s.exchange == Nothing)
  {
    var d := Run(g, Desk(s, book, 0, {}), acts);
    AuthenticatedHasUsedUp(g, Desk(s, book, 0, {}), acts);
    if d.s.state.Authenticated? {
      DeadOfferStartsNothing(g, d, more);
    }
  }
}
