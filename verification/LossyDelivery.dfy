/** At-most-once delivery of sealed datagrams over a network that drops, duplicates,
    reorders and forges.  One link is one direction of one channel epoch: the sender's and
    the receiver's channel were initialised once with the same key and opposite
    directions. */
module LossyDelivery {
  import opened Encoding
  import opened Pairing
  import opened ReplayWindows
  import opened SecureChannels

  datatype Delivery = Delivery(counter: nat, plain: Bytes)

  /** Both ends, what was sealed (by counter) and what was opened (in order). */
  datatype Link = Link(sender: Channel, receiver: Channel, sent: seq<Bytes>, log: seq<Delivery>)

  ghost function Epoch(key: SessionKey, d: Direction): Link {
    Link(Fresh1(key, d), Fresh1(key, Other(d)), [], [])
  }

  datatype Move = Seal(plain: Bytes) | Arrive(packet: Packet)

  /** The network may deliver anything at any time, except a box under this direction's
      subkey that the sender never made. */
  ghost predicate Feasible(l: Link, m: Move) {
    m.Arrive? && m.packet.Packet? && m.packet.body.Box?
      && m.packet.body.key == Subkey(KeyLabel(l.sender.direction), l.sender.key) ==>
      exists n: nat :: n < |l.sent| && m.packet.body == Wire(l, n).body
  }

  function Wire(l: Link, n: nat): Packet
    requires n < |l.sent|
  {
    Sealed(l.sender.key, l.sender.direction, n, l.sent[n])
  }

  ghost function Make(l: Link, m: Move): Link {
    match m
    case Seal(plain) => l.(sender := AfterSeal(l.sender), sent := l.sent + [plain])
    case Arrive(p) =>
      l.(receiver := AfterOpen(l.receiver, p),
         log := if Opens(l.receiver, p) then l.log + [Delivery(p.counter, p.body.plain)] else l.log)
  }

  ghost function MakeAll(l: Link, moves: seq<Move>): Link {
    if moves == [] then l else Make(MakeAll(l, moves[..|moves| - 1]), moves[|moves| - 1])
  }

  ghost predicate AllFeasible(l: Link, moves: seq<Move>) {
    forall i | 0 <= i < |moves| :: Feasible(MakeAll(l, moves[..i]), moves[i])
  }

  function Counters(log: seq<Delivery>): set<nat> {
    set d | d in log :: d.counter
  }

  lemma CountersAppend(log: seq<Delivery>, d: Delivery)
    ensures Counters(log + [d]) == Counters(log) + {d.counter}
  {
    assert forall e :: e in log + [d] <==> e in log || e == d;
  }

  ghost predicate LinkOk(l: Link) {
    && l.sender.ready && l.receiver.ready
    && l.sender.key == l.receiver.key && l.receiver.direction == Other(l.sender.direction)
    && l.sender.next == |l.sent|
    && l.receiver.accepted == Counters(l.log)
  }

  /** Every delivery carries the plaintext sealed under its number, and no number is
      delivered twice. */
  ghost predicate AtMostOnce(l: Link) {
    && (forall i | 0 <= i < |l.log| ::
          l.log[i].counter < |l.sent| && l.log[i].plain == l.sent[l.log[i].counter])
    && (forall i, j | 0 <= i < j < |l.log| :: l.log[i].counter != l.log[j].counter)
  }

  lemma MoveKeeps(l: Link, m: Move)
    requires LinkOk(l) && AtMostOnce(l) && Feasible(l, m)
    ensures LinkOk(Make(l, m)) && AtMostOnce(Make(l, m))
  {
    if m.Arrive? && Opens(l.receiver, m.packet) {
      var n: nat :| n < |l.sent| && m.packet.body == Wire(l, n).body;
      CountersAppend(l.log, Delivery(n, l.sent[n]));
      assert forall i | 0 <= i < |l.log| :: l.log[i].counter in Counters(l.log);
    }
  }

  /** For every schedule of seals and arrivals. */
  lemma {:induction false} EveryScheduleDeliversOnce(key: SessionKey, d: Direction, moves: seq<Move>)
    requires AllFeasible(Epoch(key, d), moves)
    ensures LinkOk(MakeAll(Epoch(key, d), moves)) && AtMostOnce(MakeAll(Epoch(key, d), moves))
  {
    if moves != [] {
      var front := moves[..|moves| - 1];
      forall i | 0 <= i < |front|
        ensures Feasible(MakeAll(Epoch(key, d), front[..i]), front[i])
      {
        assert front[..i] == moves[..i];
      }
      EveryScheduleDeliversOnce(key, d, front);
      MoveKeeps(MakeAll(Epoch(key, d), front), moves[|moves| - 1]);
    }
  }

  /** A sealed datagram that has not been delivered and is fewer than 1024 numbers behind
      the newest delivery opens when it arrives; any other arrival of it changes nothing. */
  lemma ArrivalVerdict(l: Link, n: nat)
    requires LinkOk(l) && AtMostOnce(l) && n < |l.sent|
    ensures (forall i | 0 <= i < |l.log| :: l.log[i].counter != n && l.log[i].counter < n + 1024)
              <==> Make(l, Arrive(Wire(l, n))).log == l.log + [Delivery(n, l.sent[n])]
    ensures !Opens(l.receiver, Wire(l, n)) ==> Make(l, Arrive(Wire(l, n))) == l
  {
    if Opens(l.receiver, Wire(l, n)) {
      forall i | 0 <= i < |l.log|
        ensures l.log[i].counter != n && l.log[i].counter < n + WINDOW
      {
        assert l.log[i] in l.log && l.log[i].counter in l.receiver.accepted;
      }
    } else {
      assert |l.log| != |l.log + [Delivery(n, l.sent[n])]|;
    }
  }

  // ---------------------------------------------------------------- the test network

  /** The impairing transport of shared/media/src/chaos_transport.cpp; packets are named by
      the order in which they were offered, and the dice are part of the input. */
  datatype ChaosConfig = ChaosConfig(burstLossLength: nat, reorderDepth: nat)
  datatype Dice = Dice(lose: bool, reorder: bool, duplicate: bool)
  datatype Chaos = Chaos(burstRemaining: nat, held: seq<nat>)

  function Reverse(s: seq<nat>): (r: seq<nat>)
    ensures |r| == |s|
    ensures forall i | 0 <= i < |s| :: r[i] == s[|s| - 1 - i]
  {
    seq(|s|, i requires 0 <= i < |s| => s[|s| - 1 - i])
  }

  /** The new state and the packets passed on, in order. */
  function Impair(c: Chaos, packet: nat, dice: Dice, cfg: ChaosConfig): (Chaos, seq<nat>) {
    if c.burstRemaining > 0 then (c.(burstRemaining := c.burstRemaining - 1), [])
    else if dice.lose then
      (c.(burstRemaining := if cfg.burstLossLength > 1 then cfg.burstLossLength - 1 else 0), [])
    else if dice.reorder then
      var held := c.held + [packet];
      if |held| >= cfg.reorderDepth then (c.(held := []), Reverse(held)) else (c.(held := held), [])
    else (c, if dice.duplicate then [packet, packet] else [packet])
  }

  ghost predicate HeldOk(l: Link, c: Chaos) {
    LinkOk(l) && forall i | 0 <= i < |c.held| :: c.held[i] < |l.sent|
  }

  lemma ImpairPassesOffered(c: Chaos, packet: nat, dice: Dice, cfg: ChaosConfig)
    requires forall i | 0 <= i < |c.held| :: c.held[i] <= packet
    ensures var (c', out) := Impair(c, packet, dice, cfg);
      && (forall i | 0 <= i < |c'.held| :: c'.held[i] <= packet)
      && (forall i | 0 <= i < |out| :: out[i] <= packet)
  {
  }

  /** A run of the transport: the packets numbered from `first` on, one for each throw. */
  function ImpairAll(c: Chaos, first: nat, dice: seq<Dice>, cfg: ChaosConfig): (Chaos, seq<nat>) {
    if dice == [] then (c, [])
    else
      var n := |dice| - 1;
      var (before, out) := ImpairAll(c, first, dice[..n], cfg);
      var (after, more) := Impair(before, first + n, dice[n], cfg);
      (after, out + more)
  }

  /** Kind dice pass everything on, at once and in order. */
  lemma {:induction false} NothingIsLostWithoutALoss(c: Chaos, first: nat, dice: seq<Dice>, cfg: ChaosConfig)
    requires c.burstRemaining == 0
    requires forall i | 0 <= i < |dice| :: !dice[i].lose && !dice[i].reorder && !dice[i].duplicate
    ensures ImpairAll(c, first, dice, cfg).0 == c && |ImpairAll(c, first, dice, cfg).1| == |dice|
    ensures forall i | 0 <= i < |dice| :: ImpairAll(c, first, dice, cfg).1[i] == first + i
  {
    if dice != [] {
      NothingIsLostWithoutALoss(c, first, dice[..|dice| - 1], cfg);
    }
  }

  /** A duplicated packet comes twice, at once. */
  lemma DuplicatedComesTwice(c: Chaos, packet: nat, dice: Dice, cfg: ChaosConfig)
    requires c.burstRemaining == 0 && !dice.lose && !dice.reorder && dice.duplicate
    ensures Impair(c, packet, dice, cfg) == (c, [packet, packet])
  {
  }

  /** A loss takes its own packet and those of the burst after it, whatever the dice say. */
  lemma {:induction false} ALossIsABurst(c: Chaos, first: nat, dice: seq<Dice>, cfg: ChaosConfig)
    requires c.burstRemaining == 0 && 0 < |dice| <= (if cfg.burstLossLength > 1 then cfg.burstLossLength else 1)
    requires dice[0].lose
    ensures var (after, out) := ImpairAll(c, first, dice, cfg);
      && out == [] && after.held == c.held
      && after.burstRemaining == (if cfg.burstLossLength > 1 then cfg.burstLossLength else 1) - |dice|
  {
    if |dice| > 1 {
      ALossIsABurst(c, first, dice[..|dice| - 1], cfg);
    } else {
      assert dice[..0] == [];
    }
  }

  /** Reordered packets wait until there are enough of them, and then come in reverse. */
  lemma {:induction false} ReorderedComeReversed(c: Chaos, first: nat, dice: seq<Dice>, cfg: ChaosConfig)
    requires c == Chaos(0, []) && |dice| <= cfg.reorderDepth
    requires forall i | 0 <= i < |dice| :: dice[i].reorder && !dice[i].lose
    ensures var (after, out) := ImpairAll(c, first, dice, cfg);
      var sent := seq(|dice|, i requires 0 <= i => first + i);
      if |dice| == cfg.reorderDepth && dice != [] then after == c && out == Reverse(sent)
      else after == Chaos(0, sent) && out == []
  {
    if dice != [] {
      ReorderedComeReversed(c, first, dice[..|dice| - 1], cfg);
    }
  }

  /** One datagram sealed and offered to the impairing transport, whose output arrives. */
  ghost function SendOverChaos(l: Link, c: Chaos, plain: Bytes, dice: Dice, cfg: ChaosConfig): (r: (Link, Chaos))
    requires HeldOk(l, c)
    ensures HeldOk(r.0, r.1) && r.0.sent == l.sent + [plain]
    ensures AtMostOnce(l) ==> AtMostOnce(r.0)
  {
    SealKeeps(l, plain);
    ImpairPassesOffered(c, |l.sent|, dice, cfg);
    var (c', out) := Impair(c, |l.sent|, dice, cfg);
    (ArriveAll(Make(l, Seal(plain)), out), c')
  }

  lemma SealKeeps(l: Link, plain: Bytes)
    requires LinkOk(l)
    ensures var l' := Make(l, Seal(plain));
      LinkOk(l') && l'.sent == l.sent + [plain] && (AtMostOnce(l) ==> AtMostOnce(l'))
  {
  }

  ghost function OverChaos(l: Link, c: Chaos, plains: seq<Bytes>, dice: seq<Dice>, cfg: ChaosConfig): (r: (Link, Chaos))
    requires |dice| == |plains| && HeldOk(l, c)
    ensures AtMostOnce(l) ==> AtMostOnce(r.0)
    ensures r.0.sent == l.sent + plains
    decreases |plains|
  {
    if plains == [] then (l, c)
    else
      var (next, c') := SendOverChaos(l, c, plains[0], dice[0], cfg);
      OverChaos(next, c', plains[1..], dice[1..], cfg)
  }

  ghost function ArriveAll(l: Link, packets: seq<nat>): (r: Link)
    requires LinkOk(l)
    requires forall i | 0 <= i < |packets| :: packets[i] < |l.sent|
    ensures LinkOk(r) && r.sent == l.sent && r.sender == l.sender
    ensures AtMostOnce(l) ==> AtMostOnce(r)
    decreases |packets|
  {
    if packets == [] then l
    else
      ArriveOne(l, packets[0]);
      ArriveAll(Make(l, Arrive(Wire(l, packets[0]))), packets[1..])
  }

  lemma ArriveOne(l: Link, n: nat)
    requires LinkOk(l) && n < |l.sent|
    ensures Feasible(l, Arrive(Wire(l, n)))
    ensures LinkOk(Make(l, Arrive(Wire(l, n))))
    ensures Make(l, Arrive(Wire(l, n))).sent == l.sent
    ensures AtMostOnce(l) ==> AtMostOnce(Make(l, Arrive(Wire(l, n))))
  {
    CountersAppend(l.log, Delivery(n, l.sent[n]));
    if AtMostOnce(l) {
      MoveKeeps(l, Arrive(Wire(l, n)));
    }
  }

  /** Loss, bursts, reordering and duplication are all within the network assumed above:
      whatever the dice, the link still delivers at most once. */
  lemma ChaosDeliversOnce(key: SessionKey, d: Direction, plains: seq<Bytes>, dice: seq<Dice>, cfg: ChaosConfig)
    requires |dice| == |plains|
    ensures HeldOk(Epoch(key, d), Chaos(0, []))
    ensures var l := OverChaos(Epoch(key, d), Chaos(0, []), plains, dice, cfg).0;
      AtMostOnce(l) && l.sent == plains
  {
    assert [] + plains == plains;
  }
}
