/** The sliding replay window of shared/protocol/include/smartmic/protocol/replay_window.h:
    a shifting bit set that refines the plain set of numbers accepted since the last reset. */
module ReplayWindows {

  /** The set model: a number is fresh when it has not been accepted and nothing accepted
      is `width` or more ahead of it. */
  ghost predicate Fresh(width: nat, accepted: set<nat>, s: nat) {
    s !in accepted && forall a | a in accepted :: a < s + width
  }

  ghost function Record(width: nat, accepted: set<nat>, s: nat): set<nat> {
    if Fresh(width, accepted, s) then accepted + {s} else accepted
  }

  /** The set model in the words of the header: nothing accepted yet, or beyond the
      highest, or within the window of the highest and not seen. */
  lemma FreshByCases(width: nat, accepted: set<nat>, s: nat, highest: nat)
    requires width >= 1
    requires highest in accepted && forall a | a in accepted :: a <= highest
    ensures Fresh(width, accepted, s) <==>
              s > highest || (highest - s < width && s !in accepted)
    ensures Fresh(width, {}, s)
  {
  }

  // ---------------------------------------------------------------- runs

  ghost function AcceptedAfter(width: nat, arrivals: seq<nat>): set<nat> {
    if arrivals == [] then {}
    else Record(width, AcceptedAfter(width, arrivals[..|arrivals| - 1]), arrivals[|arrivals| - 1])
  }

  ghost predicate AcceptedAt(width: nat, arrivals: seq<nat>, i: nat)
    requires i < |arrivals|
  {
    Fresh(width, AcceptedAfter(width, arrivals[..i]), arrivals[i])
  }

  lemma {:induction false} AcceptedArrived(width: nat, arrivals: seq<nat>, s: nat)
    ensures s in AcceptedAfter(width, arrivals) <==>
              exists i: nat :: i < |arrivals| && arrivals[i] == s && AcceptedAt(width, arrivals, i)
  {
    if arrivals != [] {
      var last := |arrivals| - 1;
      var front := arrivals[..last];
      AcceptedArrived(width, front, s);
      forall i: nat | i < last
        ensures AcceptedAt(width, front, i) <==> AcceptedAt(width, arrivals, i)
      {
        assert front[..i] == arrivals[..i];
      }
      if s in AcceptedAfter(width, front) {
        var i: nat :| i < |front| && front[i] == s && AcceptedAt(width, front, i);
        assert arrivals[i] == s && AcceptedAt(width, arrivals, i);
      } else if s in AcceptedAfter(width, arrivals) {
        assert arrivals[last] == s && AcceptedAt(width, arrivals, last);
      }
      if i: nat :| i < |arrivals| && arrivals[i] == s && AcceptedAt(width, arrivals, i) {
        if i < last {
          assert front[i] == s && AcceptedAt(width, front, i);
        }
      }
    }
  }

  /** No number is accepted twice in any run since a reset. */
  lemma NeverTwice(width: nat, arrivals: seq<nat>, i: nat, j: nat)
    requires i < j < |arrivals| && arrivals[i] == arrivals[j]
    requires AcceptedAt(width, arrivals, i)
    ensures !AcceptedAt(width, arrivals, j)
  {
    assert arrivals[..j][..i] == arrivals[..i];
    assert arrivals[..j][i] == arrivals[j] && AcceptedAt(width, arrivals[..j], i);
    AcceptedArrived(width, arrivals[..j], arrivals[j]);
  }

  /** A first arrival less than `width` behind everything so far is always accepted. */
  lemma FirstArrivalAccepted(width: nat, arrivals: seq<nat>, i: nat)
    requires i < |arrivals|
    requires forall k: nat | k < i :: arrivals[k] != arrivals[i] && arrivals[k] < arrivals[i] + width
    ensures AcceptedAt(width, arrivals, i)
  {
    var accepted := AcceptedAfter(width, arrivals[..i]);
    forall a | a in accepted
      ensures a != arrivals[i] && a < arrivals[i] + width
    {
      AcceptedArrived(width, arrivals[..i], a);
      var k: nat :| k < i && arrivals[..i][k] == a;
      assert arrivals[k] == a;
    }
  }

  // ---------------------------------------------------------------- the class

  function NoBits(width: nat): seq<bool> {
    seq(width, _ => false)
  }

  /** The left shift of a fixed-width bit set. */
  function ShiftLeft(bits: seq<bool>, shift: nat): seq<bool> {
    seq(|bits|, i requires 0 <= i < |bits| => i >= shift && bits[i - shift])
  }

  class ReplayWindow {
    const width: nat
    var initialised: bool
    var highest: nat
    var seen: seq<bool>
    ghost var accepted: set<nat>

    /** Bit i stands for the number `highest - i`. */
    ghost predicate Valid()
      reads this
    {
      && width >= 1 && |seen| == width
      && (!initialised ==> accepted == {})
      && (initialised ==>
            && highest in accepted
            && (forall a | a in accepted :: a <= highest)
            && (forall i: nat | i < width :: seen[i] <==> (i <= highest && highest - i in accepted)))
    }

    constructor (width: nat)
      requires width >= 1
      ensures Valid() && this.width == width && accepted == {}
    {
      this.width := width;
      initialised, highest, seen := false, 0, NoBits(width);
      accepted := {};
    }

    method Reset()
      requires Valid()
      modifies this
      ensures Valid() && accepted == {}
    {
      initialised, highest, seen := false, 0, NoBits(width);
      accepted := {};
    }

    method Accept(s: nat) returns (ok: bool)
      requires Valid()
      modifies this
      ensures Valid()
      ensures ok <==> Fresh(width, old(accepted), s)
      ensures accepted == Record(width, old(accepted), s)
    {
      if !initialised {
        initialised, highest := true, s;
        seen := NoBits(width)[0 := true];
        accepted := {s};
        return true;
      }
      if s > highest {
        var shift := s - highest;
        seen := if shift >= width then NoBits(width) else ShiftLeft(seen, shift);
        seen := seen[0 := true];
        highest := s;
        accepted := accepted + {s};
        return true;
      }
      var behind := highest - s;
      if behind >= width {
        return false;
      }
      if seen[behind] {
        return false;
      }
      seen := seen[behind := true];
      accepted := accepted + {s};
      return true;
    }
  }
}
