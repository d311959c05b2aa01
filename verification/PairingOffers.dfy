/** The PC's book of pairing offers (shared/security/src/pairing.cpp): one outstanding
    offer with an expiry, an attempt limit and single use. */
module PairingOffers {
  import opened Encoding

  datatype OfferStatus = Valid | Expired | Throttled | Unknown | Consumed

  datatype Book = Book(
    has: bool, session: Bytes, code: Bytes, expiresAt: nat, consumed: bool, attempts: nat, maxAttempts: nat)

  function CheckOffer(b: Book, session: Bytes, now: nat): OfferStatus {
    if !b.has || session != b.session then Unknown
    else if b.consumed then Consumed
    else if now >= b.expiresAt then Expired
    else if b.attempts >= b.maxAttempts then Throttled
    else Valid
  }

  /** A presented code is compared only while the offer is valid, and the comparison is
      paid for whatever its outcome. */
  function VerifyOffer(b: Book, session: Bytes, code: Bytes, now: nat): (Book, OfferStatus) {
    var status := CheckOffer(b, session, now);
    if status != Valid then (b, status)
    else
      var paid := b.(attempts := b.attempts + 1);
      (paid, if code == b.code then Valid
             else if paid.attempts >= b.maxAttempts then Throttled else Unknown)
  }

  function NoteFailed(b: Book, session: Bytes): Book {
    if b.has && session == b.session then b.(attempts := b.attempts + 1) else b
  }

  function ConsumeOffer(b: Book, session: Bytes): Book {
    if b.has && session == b.session then b.(consumed := true) else b
  }

  datatype BookCall =
    | Verifying(session: Bytes, code: Bytes, now: nat)
    | Failing(session: Bytes)
    | Consuming(session: Bytes)
    | Clearing

  function After(b: Book, c: BookCall): Book {
    match c
    case Verifying(s, code, now) => VerifyOffer(b, s, code, now).0
    case Failing(s) => NoteFailed(b, s)
    case Consuming(s) => ConsumeOffer(b, s)
    case Clearing => b.(has := false)
  }

  function AfterAll(b: Book, calls: seq<BookCall>): Book {
    if calls == [] then b else After(AfterAll(b, calls[..|calls| - 1]), calls[|calls| - 1])
  }

  /** How often a presented code was actually compared. */
  function Compared(b: Book, calls: seq<BookCall>): nat {
    if calls == [] then 0
    else
      var last := calls[|calls| - 1];
      var front := AfterAll(b, calls[..|calls| - 1]);
      Compared(b, calls[..|calls| - 1])
      + (if last.Verifying? && CheckOffer(front, last.session, last.now) == Valid then 1 else 0)
  }

  /** Between two issues, at most `maxAttempts` guesses are ever compared; and once an
      offer is consumed, expired, throttled or cleared it never becomes valid again. */
  lemma {:induction false} GuessesAreBounded(b: Book, calls: seq<BookCall>)
    ensures b.attempts + Compared(b, calls) <= AfterAll(b, calls).attempts
    ensures Compared(b, calls) <= if b.maxAttempts > b.attempts then b.maxAttempts - b.attempts else 0
    ensures AfterAll(b, calls).maxAttempts == b.maxAttempts
  {
    if calls != [] {
      GuessesAreBounded(b, calls[..|calls| - 1]);
    }
  }

  lemma {:induction false} NeverRevived(b: Book, calls: seq<BookCall>, session: Bytes, now: nat, later: nat)
    requires now <= later && CheckOffer(b, session, now) != Valid
    ensures CheckOffer(AfterAll(b, calls), session, later) != Valid
  {
    if calls != [] {
      NeverRevived(b, calls[..|calls| - 1], session, now, later);
    }
  }

  // ---------------------------------------------------------------- single use and lifetime

  /** The offer of that session has been used up or withdrawn. */
  predicate Ended(calls: seq<BookCall>, session: Bytes) {
    Consuming(session) in calls || Clearing in calls
  }

  lemma {:induction false} RunKeepsOffer(b: Book, calls: seq<BookCall>)
    ensures var a := AfterAll(b, calls);
      && a.session == b.session && a.code == b.code && a.expiresAt == b.expiresAt && a.maxAttempts == b.maxAttempts
      && a.attempts >= b.attempts
      && (a.has <==> b.has && Clearing !in calls)
      && (a.consumed ==> b.consumed || Consuming(b.session) in calls)
      && (b.consumed ==> a.consumed)
      && (b.has && Consuming(b.session) in calls && Clearing !in calls ==> a.consumed)
  {
    if calls != [] {
      var front, last := calls[..|calls| - 1], calls[|calls| - 1];
      assert calls == front + [last];
      RunKeepsOffer(b, front);
    }
  }

  /** What the book answers after any calls without a new issue: an offer is good for its own
      session, once, until it expires or its attempts are spent. */
  lemma ValidExactly(b: Book, calls: seq<BookCall>, session: Bytes, now: nat)
    ensures CheckOffer(AfterAll(b, calls), session, now) == Valid <==>
      && b.has && session == b.session && !b.consumed && !Ended(calls, session)
      && now < b.expiresAt && AfterAll(b, calls).attempts < b.maxAttempts
  {
    RunKeepsOffer(b, calls);
  }

  /** And why it refuses. */
  lemma RefusedBecause(b: Book, calls: seq<BookCall>, now: nat)
    requires b.has && Clearing !in calls
    ensures var status := CheckOffer(AfterAll(b, calls), b.session, now);
      && (status == Consumed <==> b.consumed || Consuming(b.session) in calls)
      && (status == Expired <==> !b.consumed && Consuming(b.session) !in calls && now >= b.expiresAt)
      && status != Unknown
  {
    RunKeepsOffer(b, calls);
  }

  /** Single use: once consumed, the offer of a session never answers again. */
  lemma UsedOnce(b: Book, before: seq<BookCall>, session: Bytes, after: seq<BookCall>, now: nat)
    ensures CheckOffer(AfterAll(b, before + [Consuming(session)] + after), session, now) != Valid
  {
    ValidExactly(b, before + [Consuming(session)] + after, session, now);
    assert Consuming(session) in before + [Consuming(session)] + after;
  }

  /** Lifetime: none answers at its expiry or later. */
  lemma ExpiredForGood(b: Book, calls: seq<BookCall>, session: Bytes, now: nat)
    requires now >= b.expiresAt
    ensures CheckOffer(AfterAll(b, calls), session, now) != Valid
  {
    ValidExactly(b, calls, session, now);
  }

  /** A presented code is accepted exactly when the offer is valid and the code is its own,
      and it costs an attempt exactly when it was compared. */
  lemma CodeAcceptedIff(b: Book, session: Bytes, code: Bytes, now: nat)
    ensures var (a, status) := VerifyOffer(b, session, code, now);
      && (status == Valid <==> CheckOffer(b, session, now) == Valid && code == b.code)
      && a.attempts == b.attempts + (if CheckOffer(b, session, now) == Valid then 1 else 0)
  {
  }

  class PairingOfferBook {
    const maxAttempts: nat
    const ttlSeconds: nat
    var has: bool
    var session: Bytes
    var code: Bytes
    var expiresAt: nat
    var consumed: bool
    var attempts: nat

    ghost function View(): Book
      reads this
    {
      Book(has, session, code, expiresAt, consumed, attempts, maxAttempts)
    }

    constructor (maxAttempts: nat, ttlSeconds: nat)
      ensures View() == Book(false, [], [], 0, false, 0, maxAttempts) && this.ttlSeconds == ttlSeconds
    {
      this.maxAttempts, this.ttlSeconds := maxAttempts, ttlSeconds;
      has, session, code, expiresAt, consumed, attempts := false, [], [], 0, false, 0;
    }

    /** A new offer replaces the old one; its session and code are drawn by the caller. */
    method Issue(newSession: Bytes, newCode: Bytes, now: nat)
      modifies this
      ensures View() == Book(true, newSession, newCode, now + ttlSeconds * 1000, false, 0, maxAttempts)
    {
      session, code, expiresAt := newSession, newCode, now + ttlSeconds * 1000;
      has, consumed, attempts := true, false, 0;
    }

    method Check(s: Bytes, now: nat) returns (status: OfferStatus)
      ensures status == CheckOffer(View(), s, now)
    {
      if !has || s != session { return Unknown; }
      if consumed { return Consumed; }
      if now >= expiresAt { return Expired; }
      if attempts >= maxAttempts { return Throttled; }
      return Valid;
    }

    method Verify(s: Bytes, presented: Bytes, now: nat) returns (status: OfferStatus)
      modifies this`attempts
      ensures (View(), status) == VerifyOffer(old(View()), s, presented, now)
    {
      if !has || s != session { return Unknown; }
      if consumed { return Consumed; }
      if now >= expiresAt { return Expired; }
      if attempts >= maxAttempts { return Throttled; }
      attempts := attempts + 1;
      if presented != code {
        return if attempts >= maxAttempts then Throttled else Unknown;
      }
      return Valid;
    }

    method NoteFailedAttempt(s: Bytes)
      modifies this`attempts
      ensures View() == NoteFailed(old(View()), s)
    {
      if has && s == session { attempts := attempts + 1; }
    }

    method Consume(s: Bytes)
      modifies this`consumed
      ensures View() == ConsumeOffer(old(View()), s)
    {
      if has && s == session { consumed := true; }
    }
  }
}
