/** The stateful linear resampler of windows/audio-service/src/resampler.cpp against a
    stateless formula: output k is the interpolation of the whole stream at k * ratio. */
module Resamplers {
  import opened Basics

  const OUTPUT_RATE: nat := 48000

  // ---------------------------------------------------------------- the formula

  /** Linear interpolation at a position whose right neighbour exists. */
  function Interpolate(stream: seq<real>, position: real): real
    requires 0 <= position.Floor && position.Floor + 1 < |stream|
  {
    var i := position.Floor;
    stream[i] + (stream[i + 1] - stream[i]) * (position - i as real)
  }

  function At(k: nat, ratio: real): real {
    k as real * ratio
  }

  /** How many outputs n input samples determine. */
  function Count(n: nat, ratio: real): (count: nat)
    requires ratio > 0.0
  {
    if n <= 1 then 0
    else
      CeilPositive((n - 1) as real / ratio);
      Ceil((n - 1) as real / ratio)
  }

  lemma CeilPositive(x: real)
    ensures x > 0.0 ==> Ceil(x) > 0
    ensures x <= Ceil(x) as real < x + 1.0
  {
  }

  lemma DivideCompare(k: nat, y: real, ratio: real)
    requires ratio > 0.0
    ensures k as real < y / ratio <==> At(k, ratio) < y
  {
    var q := y / ratio;
    assert q * ratio == y;
    if k as real < q {
      assert (q - k as real) * ratio > 0.0;
    } else {
      assert (k as real - q) * ratio >= 0.0;
    }
  }

  lemma AtMonotonic(j: nat, k: nat, ratio: real)
    requires ratio > 0.0 && j <= k
    ensures 0.0 <= At(j, ratio) <= At(k, ratio)
  {
    assert j as real * ratio >= 0.0;
    assert (k - j) as real * ratio >= 0.0;
    assert At(k, ratio) == At(j, ratio) + (k - j) as real * ratio;
  }

  /** Output k is determined exactly when its right neighbour has arrived. */
  lemma CountMeaning(n: nat, ratio: real, k: nat)
    requires ratio > 0.0
    ensures k < Count(n, ratio) <==> At(k, ratio).Floor + 1 < n
    ensures 0 <= At(k, ratio).Floor
  {
    AtMonotonic(0, k, ratio);
    if n > 1 {
      DivideCompare(k, (n - 1) as real, ratio);
      CeilPositive((n - 1) as real / ratio);
    }
  }

  ghost function Resampled(stream: seq<real>, ratio: real): (out: seq<real>)
    requires ratio > 0.0
    ensures |out| == Count(|stream|, ratio)
  {
    seq(Count(|stream|, ratio), k requires 0 <= k < Count(|stream|, ratio) =>
      CountMeaning(|stream|, ratio, k);
      Interpolate(stream, At(k, ratio)))
  }

  /** Output already produced is never revised when more input arrives. */
  lemma OutputIsStable(stream: seq<real>, more: seq<real>, ratio: real)
    requires ratio > 0.0
    ensures Resampled(stream, ratio) <= Resampled(stream + more, ratio)
  {
    var n, m := Count(|stream|, ratio), Count(|stream + more|, ratio);
    if n > 0 {
      CountMeaning(|stream|, ratio, n - 1);
      CountMeaning(|stream + more|, ratio, n - 1);
    }
    forall k | 0 <= k < n
      ensures Resampled(stream, ratio)[k] == Resampled(stream + more, ratio)[k]
    {
      CountMeaning(|stream|, ratio, k);
    }
  }

  /** What a block adds to the output. */
  ghost function Added(stream: seq<real>, block: seq<real>, ratio: real): seq<real>
    requires ratio > 0.0
  {
    OutputIsStable(stream, block, ratio);
    Resampled(stream + block, ratio)[Count(|stream|, ratio)..]
  }

  lemma AddedExtends(stream: seq<real>, block: seq<real>, ratio: real)
    requires ratio > 0.0
    ensures Resampled(stream, ratio) + Added(stream, block, ratio) == Resampled(stream + block, ratio)
  {
    OutputIsStable(stream, block, ratio);
    PrefixAndRest(Resampled(stream, ratio), Resampled(stream + block, ratio));
  }

  lemma PrefixAndRest(s: seq<real>, t: seq<real>)
    requires s <= t
    ensures s + t[|s|..] == t
  {
  }

  function Flatten(blocks: seq<seq<real>>): seq<real> {
    if blocks == [] then [] else Flatten(blocks[..|blocks| - 1]) + blocks[|blocks| - 1]
  }

  ghost function Blockwise(blocks: seq<seq<real>>, ratio: real): seq<real>
    requires ratio > 0.0
  {
    if blocks == [] then []
    else
      var front := blocks[..|blocks| - 1];
      Blockwise(front, ratio) + Added(Flatten(front), blocks[|blocks| - 1], ratio)
  }

  /** However the input is split into blocks, the output is that of one call. */
  lemma {:induction false} BlocksDoNotMatter(blocks: seq<seq<real>>, ratio: real)
    requires ratio > 0.0
    ensures Blockwise(blocks, ratio) == Resampled(Flatten(blocks), ratio)
  {
    if blocks != [] {
      var front := blocks[..|blocks| - 1];
      BlocksDoNotMatter(front, ratio);
      AddedExtends(Flatten(front), blocks[|blocks| - 1], ratio);
    }
  }

  /** The number of output samples promised for a block. */
  function Estimate(n: nat, ratio: real): int
    requires ratio > 0.0
  {
    Ceil(n as real / ratio) + 1
  }

  /** A block of n samples adds fewer than estimated. */
  lemma BlockWithinEstimate(before: nat, n: nat, ratio: real)
    requires ratio > 0.0
    ensures Count(before + n, ratio) - Count(before, ratio) < Estimate(n, ratio)
  {
    var p, q := Count(before, ratio), Count(before + n, ratio);
    CeilPositive(n as real / ratio);
    assert n as real / ratio >= 0.0;
    if q > p {
      CountMeaning(before, ratio, p);
      CountMeaning(before + n, ratio, q - 1);
      assert At(q - 1, ratio) == At(p, ratio) + At(q - 1 - p, ratio);
      assert At(q - 1 - p, ratio) < n as real;
      DivideCompare(q - 1 - p, n as real, ratio);
    }
  }

  /** And the estimate is no more than two above the quotient. */
  lemma EstimateIsTight(n: nat, ratio: real)
    requires ratio > 0.0
    ensures n as real / ratio + 1.0 <= Estimate(n, ratio) as real < n as real / ratio + 2.0
  {
    CeilPositive(n as real / ratio);
  }

  lemma FloorShift(x: real, n: nat)
    ensures (x - n as real).Floor == x.Floor - n
  {
  }

  /** Each second of input makes 48000 outputs: of its rate in samples, after the first one. */
  lemma SecondsOfOutput(rate: nat, seconds: nat)
    requires rate > 0
    ensures Count(rate * seconds + 1, rate as real / 48000.0) == 48000 * seconds
  {
    var n, ratio := rate * seconds + 1, rate as real / 48000.0;
    assert ratio * 48000.0 == rate as real;
    if seconds > 0 {
      assert At(48000 * seconds, ratio) == (n - 1) as real;
      DivideCompare(48000 * seconds, (n - 1) as real, ratio);
      DivideCompare(48000 * seconds - 1, (n - 1) as real, ratio);
      CeilPositive((n - 1) as real / ratio);
    }
  }

  // ---------------------------------------------------------------- one block

  /** `values` are what a block yields when read at `positions`, one ratio apart: each
      falls where both neighbours are known, and the position after the last does not. */
  ghost predicate Yields(block: seq<real>, last: Maybe<real>, ratio: real, positions: seq<real>, values: seq<real>)
  {
    && |positions| == |values| + 1
    && (forall j :: 0 <= j < |values| ==> positions[j + 1] == positions[j] + ratio)
    && (forall j :: 0 <= j < |values| ==> YieldsAt(block, last, positions[j], values[j]))
    && positions[|values|].Floor + 1 >= |block|
  }

  ghost predicate YieldsAt(block: seq<real>, last: Maybe<real>, position: real, value: real) {
    var i := position.Floor;
    && -1 <= i && i + 1 < |block|
    && (i < 0 ==> last.Just?)
    && var a := if i < 0 then last.value else block[i];
       value == a + (block[i + 1] - a) * (position - i as real)
  }

  ghost function Positions(stream: seq<real>, block: seq<real>, ratio: real): (positions: seq<real>)
    requires ratio > 0.0
    ensures |positions| == |Added(stream, block, ratio)| + 1
  {
    var from := Count(|stream|, ratio);
    seq(|Added(stream, block, ratio)| + 1, j requires 0 <= j => At(from + j, ratio) - |stream| as real)
  }

  function LastOf(stream: seq<real>): Maybe<real> {
    if stream == [] then Nothing else Just(stream[|stream| - 1])
  }

  lemma AddedAt(stream: seq<real>, block: seq<real>, ratio: real, j: nat)
    requires ratio > 0.0 && j < |Added(stream, block, ratio)|
    ensures var position := At(Count(|stream|, ratio) + j, ratio);
      && |stream| <= position.Floor + 1 && 0 <= position.Floor && position.Floor + 1 < |stream + block|
      && Added(stream, block, ratio)[j] == Interpolate(stream + block, position)
  {
    var k := Count(|stream|, ratio) + j;
    OutputIsStable(stream, block, ratio);
    CountMeaning(|stream|, ratio, k);
    CountMeaning(|stream + block|, ratio, k);
  }

  lemma InterpolateInBlock(stream: seq<real>, block: seq<real>, position: real)
    requires |stream| <= position.Floor + 1 && 0 <= position.Floor && position.Floor + 1 < |stream + block|
    ensures YieldsAt(block, LastOf(stream), position - |stream| as real, Interpolate(stream + block, position))
  {
    FloorShift(position, |stream|);
    var i := (position - |stream| as real).Floor;
    assert (position - |stream| as real) - i as real == position - position.Floor as real;
  }

  /** One output the block adds is what its two neighbours say. */
  lemma BlockYieldsAt(stream: seq<real>, block: seq<real>, ratio: real, j: nat)
    requires ratio > 0.0 && j < |Added(stream, block, ratio)|
    ensures YieldsAt(block, LastOf(stream), Positions(stream, block, ratio)[j], Added(stream, block, ratio)[j])
  {
    AddedAt(stream, block, ratio, j);
    InterpolateInBlock(stream, block, At(Count(|stream|, ratio) + j, ratio));
  }

  lemma PositionAfter(stream: seq<real>, block: seq<real>, ratio: real)
    requires ratio > 0.0
    ensures var positions := Positions(stream, block, ratio);
      positions[|positions| - 1] == At(Count(|stream + block|, ratio), ratio) - |stream| as real
  {
    OutputIsStable(stream, block, ratio);
  }

  /** Where the next block starts reading, and its left neighbour. */
  lemma BlockLeaves(stream: seq<real>, block: seq<real>, ratio: real)
    requires ratio > 0.0 && block != []
    ensures var positions, all := Positions(stream, block, ratio), stream + block;
      && positions[|Added(stream, block, ratio)|] - |block| as real == At(Count(|all|, ratio), ratio) - |all| as real
      && all[|all| - 1] == block[|block| - 1]
  {
    PositionAfter(stream, block, ratio);
  }

  lemma BlockYields(stream: seq<real>, block: seq<real>, ratio: real)
    requires ratio > 0.0
    ensures Yields(block, LastOf(stream), ratio, Positions(stream, block, ratio), Added(stream, block, ratio))
    ensures Positions(stream, block, ratio)[0] == At(Count(|stream|, ratio), ratio) - |stream| as real
  {
    var positions, values := Positions(stream, block, ratio), Added(stream, block, ratio);
    forall j: nat | j < |values|
      ensures YieldsAt(block, LastOf(stream), positions[j], values[j])
    {
      BlockYieldsAt(stream, block, ratio, j);
    }
    var from, end := Count(|stream|, ratio), Count(|stream + block|, ratio);
    OutputIsStable(stream, block, ratio);
    CountMeaning(|stream + block|, ratio, end);
    FloorShift(At(end, ratio), |stream|);
    PositionsAreEven(stream, block, ratio);
  }

  lemma PositionsAreEven(stream: seq<real>, block: seq<real>, ratio: real)
    requires ratio > 0.0
    ensures var positions := Positions(stream, block, ratio);
      forall j :: 0 <= j < |positions| - 1 ==> positions[j + 1] == positions[j] + ratio
  {
    var from, positions := Count(|stream|, ratio), Positions(stream, block, ratio);
    forall j | 0 <= j < |positions| - 1
      ensures positions[j + 1] == positions[j] + ratio
    {
      assert At(from + j + 1, ratio) == At(from + j, ratio) + ratio;
    }
  }

  /** A block adds no more than the estimate, and an empty one nothing. */
  lemma AddedWithinEstimate(stream: seq<real>, block: seq<real>, ratio: real)
    requires ratio > 0.0
    ensures |Added(stream, block, ratio)| < Estimate(|block|, ratio)
    ensures block == [] ==> Added(stream, block, ratio) == []
  {
    BlockWithinEstimate(|stream|, |block|, ratio);
    OutputIsStable(stream, block, ratio);
    assert block == [] ==> stream + block == stream;
  }

  // ---------------------------------------------------------------- the class

  class LinearResampler {
    var inputRate: nat
    var passthrough: bool
    var ratio: real
    var phase: real
    var last: real
    var primed: bool
    ghost var stream: seq<real>

    /** `phase` is where the next output falls relative to the next block. */
    ghost predicate Valid()
      reads this
    {
      && ratio > 0.0
      && (!passthrough ==>
            && phase == At(Count(|stream|, ratio), ratio) - |stream| as real
            && (primed <==> stream != [])
            && (stream != [] ==> last == stream[|stream| - 1]))
    }

    constructor (rate: nat)
      ensures Valid() && stream == [] && inputRate == rate
      ensures passthrough <==> rate == 48000 || rate == 0
      ensures !passthrough ==> ratio == rate as real / 48000.0
    {
      inputRate := rate;
      passthrough := rate == OUTPUT_RATE || rate == 0;
      ratio := if rate == OUTPUT_RATE || rate == 0 then 1.0 else rate as real / OUTPUT_RATE as real;
      phase, last, primed := 0.0, 0.0, false;
      stream := [];
    }

    method Reset(rate: nat)
      modifies this
      ensures Valid() && stream == [] && inputRate == rate
      ensures passthrough <==> rate == 48000 || rate == 0
      ensures !passthrough ==> ratio == rate as real / 48000.0
    {
      inputRate := rate;
      passthrough := rate == OUTPUT_RATE || rate == 0;
      ratio := if passthrough then 1.0 else rate as real / OUTPUT_RATE as real;
      phase, last, primed := 0.0, 0.0, false;
      stream := [];
    }

    /** More than n further samples can ever produce, wherever in the stream they come. */
    method EstimateOutput(n: nat) returns (estimate: int)
      requires Valid()
      ensures passthrough ==> estimate == n
      ensures !passthrough ==> estimate == Estimate(n, ratio)
      ensures !passthrough ==> estimate as real < n as real / ratio + 2.0
      ensures !passthrough ==> forall before: nat :: Count(before + n, ratio) < Count(before, ratio) + estimate
    {
      if passthrough {
        return n;
      }
      estimate := Ceil(n as real / ratio) + 1;
      EstimateIsTight(n, ratio);
      forall before: nat
        ensures Count(before + n, ratio) < Count(before, ratio) + estimate
      {
        BlockWithinEstimate(before, n, ratio);
      }
    }

    /** The loop over one block; `positions` and `values` say what it must yield. */
    method ReadBlock(input: seq<real>, ghost positions: seq<real>, ghost values: seq<real>)
      returns (added: seq<real>, pos: real)
      requires Yields(input, if primed then Just(last) else Nothing, ratio, positions, values)
      requires input != [] && phase == positions[0]
      ensures added == values && pos == positions[|values|]
    {
      var first := input[0];
      pos := phase;
      added := [];
      while true
        invariant |added| <= |values| && added == values[..|added|]
        invariant pos == positions[|added|]
        decreases |values| - |added|
      {
        assert |added| < |values| ==>
            YieldsAt(input, if primed then Just(last) else Nothing, pos, values[|added|]);
        var i := pos.Floor;
        if i + 1 >= |input| {
          break;
        }
        // The unprimed fallback is never taken: position -1 comes only after a block.
        assert i < 0 ==> primed;
        var a := if i < 0 then (if primed then last else first) else input[i];
        var b := input[i + 1];
        var frac := pos - i as real;
        assert a + (b - a) * frac == values[|added|];
        added := added + [a + (b - a) * frac];
        pos := pos + ratio;
      }
    }

    method Process(input: seq<real>, out: seq<real>) returns (extended: seq<real>)
      requires Valid()
      modifies this
      ensures Valid() && stream == old(stream) + input
      ensures passthrough == old(passthrough) && ratio == old(ratio)
      ensures extended == out + if passthrough then input else Added(old(stream), input, ratio)
      ensures |extended| - |out| <= if passthrough then |input| else Estimate(|input|, ratio)
    {
      AddedWithinEstimate(stream, input, ratio);
      var count := |input|;
      if count == 0 {
        assert stream + input == stream;
        return out;
      }
      if passthrough {
        stream := stream + input;
        return out + input;
      }
      BlockYields(stream, input, ratio);
      BlockLeaves(stream, input, ratio);
      var added, pos := ReadBlock(input, Positions(stream, input, ratio), Added(stream, input, ratio));
      extended := out + added;
      last := input[count - 1];
      primed := true;
      phase := pos - count as real;
      stream := stream + input;
    }
  }
}
