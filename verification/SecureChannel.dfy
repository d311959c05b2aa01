/** The sealed datagram channel of shared/media/src/secure_channel.cpp, with an ideal cipher:
    a box opens under exactly the key and nonce it was made with. */
module SecureChannels {
  import opened Basics
  import opened Encoding
  import opened Pairing
  import opened ReplayWindows

  const WINDOW: nat := 1024

  datatype Direction = PhoneToPc | PcToPhone

  function Other(d: Direction): Direction {
    if d.PhoneToPc? then PcToPhone else PhoneToPc
  }

  /** A subkey or nonce prefix derived from the session key under a numeric label. */
  datatype Subkey = Subkey(id: nat, key: SessionKey)

  function KeyLabel(d: Direction): nat {
    if d.PhoneToPc? then 1 else 2
  }

  function NonceLabel(d: Direction): nat {
    if d.PhoneToPc? then 11 else 12
  }

  datatype Body = Box(key: Subkey, prefix: Subkey, counter: nat, plain: Bytes) | Noise

  /** What arrives from the wire: too short to hold a counter and a tag, or a counter in
      the clear and a body. */
  datatype Packet = Truncated | Packet(counter: nat, body: Body)

  datatype Opening = Opened(plain: Bytes) | Refused

  // ---------------------------------------------------------------- on values

  datatype Channel = Channel(
    ready: bool, key: SessionKey, direction: Direction, next: nat, accepted: set<nat>)

  function Fresh1(key: SessionKey, send: Direction): Channel {
    Channel(true, key, send, 0, {})
  }

  /** The packet that seals `plain` as number `n` in direction `d`. */
  function Sealed(key: SessionKey, d: Direction, n: nat, plain: Bytes): Packet {
    Packet(n, Box(Subkey(KeyLabel(d), key), Subkey(NonceLabel(d), key), n, plain))
  }

  /** The packet authenticates as one sealed by the peer. */
  predicate Authentic(c: Channel, p: Packet) {
    p.Packet? && p.body.Box? && p == Sealed(c.key, Other(c.direction), p.counter, p.body.plain)
  }

  ghost predicate Opens(c: Channel, p: Packet) {
    c.ready && Authentic(c, p) && Fresh(WINDOW, c.accepted, p.counter)
  }

  function AfterSeal(c: Channel): Channel {
    if c.ready then c.(next := c.next + 1) else c
  }

  ghost function AfterOpen(c: Channel, p: Packet): Channel {
    if c.ready && Authentic(c, p) then c.(accepted := Record(WINDOW, c.accepted, p.counter)) else c
  }

  /** The two directions share no subkey: no end opens what was sealed in its own direction,
      by itself or by anyone, and a key and a nonce prefix are never one. */
  lemma OwnIsRefused(c: Channel, key: SessionKey, n: nat, plain: Bytes)
    ensures !Opens(c, Sealed(key, c.direction, n, plain))
    ensures AfterOpen(c, Sealed(key, c.direction, n, plain)) == c
    ensures var k, d := Subkey(NonceLabel(c.direction), key), Other(c.direction);
      k != Subkey(KeyLabel(c.direction), key) && k != Subkey(KeyLabel(d), key) && k != Subkey(NonceLabel(d), key)
  {
  }

  /** What one end seals the other end of the same session opens, in either direction, unless
      its window is past it. */
  lemma PeerOpens(c: Channel, n: nat, plain: Bytes)
    requires c.ready
    ensures Opens(c, Sealed(c.key, Other(c.direction), n, plain)) <==> Fresh(1024, c.accepted, n)
  {
  }

  // ---------------------------------------------------------------- the class

  class SecureChannel {
    var initialised: bool
    var sendKey: Subkey
    var recvKey: Subkey
    var sendNoncePrefix: Subkey
    var recvNoncePrefix: Subkey
    var counter: nat
    const replay: ReplayWindow
    var sealedCount: nat
    var openedCount: nat
    var authFailures: nat
    var replayRejects: nat
    var malformed: nat
    ghost var sessionKey: SessionKey
    ghost var direction: Direction

    ghost predicate Valid()
      reads this, replay
    {
      && replay.Valid() && replay.width == WINDOW
      && (initialised ==>
            && sendKey == Subkey(KeyLabel(direction), sessionKey)
            && recvKey == Subkey(KeyLabel(Other(direction)), sessionKey)
            && sendNoncePrefix == Subkey(NonceLabel(direction), sessionKey)
            && recvNoncePrefix == Subkey(NonceLabel(Other(direction)), sessionKey))
    }

    ghost function View(): Channel
      reads this, replay
    {
      Channel(initialised, sessionKey, direction, counter, replay.accepted)
    }

    constructor ()
      ensures Valid() && fresh(replay) && !View().ready
    {
      initialised, counter := false, 0;
      var none := Subkey(0, NO_AUTH.key);
      sendKey, recvKey, sendNoncePrefix, recvNoncePrefix := none, none, none, none;
      replay := new ReplayWindow(WINDOW);
      sealedCount, openedCount, authFailures, replayRejects, malformed := 0, 0, 0, 0, 0;
      sessionKey, direction := NO_AUTH.key, PhoneToPc;
    }

    method Init(key: SessionKey, send: Direction)
      requires Valid()
      modifies this, replay
      ensures Valid() && View() == Fresh1(key, send)
    {
      var sendKeyId := if send == PhoneToPc then 1 else 2;
      var recvKeyId := if send == PhoneToPc then 2 else 1;
      var sendNonceId := if send == PhoneToPc then 11 else 12;
      var recvNonceId := if send == PhoneToPc then 12 else 11;
      sendKey := Subkey(sendKeyId, key);
      recvKey := Subkey(recvKeyId, key);
      sendNoncePrefix := Subkey(sendNonceId, key);
      recvNoncePrefix := Subkey(recvNonceId, key);
      counter := 0;
      replay.Reset();
      initialised := true;
      sessionKey, direction := key, send;
    }

    method Seal(plain: Bytes) returns (packet: Maybe<Packet>)
      requires Valid()
      modifies this
      ensures Valid() && View() == AfterSeal(old(View()))
      ensures packet == if old(View()).ready
                        then Just(Sealed(old(View()).key, old(View()).direction, old(View()).next, plain))
                        else Nothing
    {
      if !initialised {
        return Nothing;
      }
      var n := counter;
      counter := counter + 1;
      packet := Just(Packet(n, Box(sendKey, sendNoncePrefix, n, plain)));
      sealedCount := sealedCount + 1;
    }

    method Open(packet: Packet) returns (out: Opening)
      requires Valid()
      modifies this, replay
      ensures Valid() && View() == AfterOpen(old(View()), packet)
      ensures out == if Opens(old(View()), packet) then Opened(packet.body.plain) else Refused
      ensures openedCount == old(openedCount) + (if out.Opened? then 1 else 0)
      ensures old(initialised) ==>
                openedCount + authFailures + replayRejects + malformed
                  == old(openedCount + authFailures + replayRejects + malformed) + 1
    {
      if !initialised {
        return Refused;
      }
      if packet.Truncated? {
        malformed := malformed + 1;
        return Refused;
      }
      // The nonce is rebuilt from the counter in the clear.
      var opens := packet.body.Box? && packet.body.key == recvKey
                   && packet.body.prefix == recvNoncePrefix && packet.body.counter == packet.counter;
      if !opens {
        authFailures := authFailures + 1;
        return Refused;
      }
      // Authenticate first, so that a forged counter cannot move the window.
      var accepted := replay.Accept(packet.counter);
      if !accepted {
        replayRejects := replayRejects + 1;
        return Refused;
      }
      openedCount := openedCount + 1;
      out := Opened(packet.body.plain);
    }
  }
}
