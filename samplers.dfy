/** Token selection at the last step of decoding: building a sampler from the
    caller's parameters, greedy arg-max selection, and weighted selection
    through the ordered transform pipeline (sample/samplers.go).

    Softmax, the four transforms and the weighted draw live outside the
    modelled code; they enter as function-valued parameters and nothing is
    assumed about them beyond what each contract says. */
module Samplers {
  import opened Wrappers
  import opened GoInts

  // ---------------------------------------------------------------------
  // Values
  // ---------------------------------------------------------------------

  /** A float64 as the samplers see it. They only compare such values, so a
      real number plus the three IEEE-754 special values is enough. */
  datatype Float = NegInf | Finite(value: real) | PosInf | NaN

  /** IEEE-754 `a > b`; false whenever either side is NaN. */
  predicate Gt(a: Float, b: Float) {
    match a
    case NaN => false
    case NegInf => false
    case PosInf => b.NegInf? || b.Finite?
    case Finite(x) => b.NegInf? || (b.Finite? && x > b.value)
  }

  /** IEEE-754 `a >= b`. */
  predicate Ge(a: Float, b: Float) {
    Gt(a, b) || (a == b && !a.NaN?)
  }

  const Zero: Float := Finite(0.0)

  /** One candidate token: its vocabulary index, its logit and its probability. */
  datatype TokenInfo = TokenInfo(id: int, logit: Float, prob: Float)

  /** The working set threaded through the transforms. */
  datatype TokenSliceInfo = TokenSliceInfo(tokens: seq<TokenInfo>, sorted: bool)

  /** The four pipeline stages, each with its governing parameter. */
  datatype Transform =
    | Temperature(temperature: real)
    | TopK(k: int)
    | TopP(p: real)
    | MinP(minP: real)

  /** The random source of a weighted sampler: fixed from a seed, or the
      process-wide one when no seed was given. */
  datatype Source = Unseeded | Seeded(seed: nat)

  datatype Sampler =
    | Greedy
    | Weighted(src: Source, transforms: seq<Transform>)

  /** The errors `NewSampler` reports, one per check, in the order checked. */
  datatype BuildError =
    | TemperatureOutOfRange   // "temperature must be between 0 and 2"
    | TopKNotPositive         // "topK must be greater than 0"
    | TopPOutOfRange          // "topP must be between 0 and 1"
    | MinPOutOfRange          // "minP must be between 0 and 1"
    | NoTransform             // "at least one transform is required"

  /** The errors `Sample` reports. */
  datatype SampleError =
    | NoValidLogits           // nothing to choose from
    | DrawFailed              // the weighted draw produced no index

  // ---------------------------------------------------------------------
  // Building a sampler
  // ---------------------------------------------------------------------

  /** A stage is requested exactly when its governing parameter is non-zero. */
  predicate IsActive(t: Transform) {
    match t
    case Temperature(x) => x != 0.0
    case TopK(k) => k != 0
    case TopP(p) => p != 0.0
    case MinP(m) => m != 0.0
  }

  /** Position of a stage kind in the fixed pipeline order. */
  function Rank(t: Transform): nat {
    match t
    case Temperature(_) => 0
    case TopK(_) => 1
    case TopP(_) => 2
    case MinP(_) => 3
  }

  /** The elements of `s` whose stage is active, in their order in `s`. */
  function ActiveOnly(s: seq<Transform>): seq<Transform> {
    if s == [] then []
    else if IsActive(s[0]) then [s[0]] + ActiveOnly(s[1..])
    else ActiveOnly(s[1..])
  }

  /** Every candidate stage, in pipeline order. */
  function AllStages(temperature: real, topK: int, topP: real, minP: real): seq<Transform> {
    [Temperature(temperature), TopK(topK), TopP(topP), MinP(minP)]
  }

  /** The stages a configuration asks for, in pipeline order. */
  function Stages(temperature: real, topK: int, topP: real, minP: real): seq<Transform> {
    ActiveOnly(AllStages(temperature, topK, topP, minP))
  }

  /** The range accepted for topP and minP; 0 is in it and means "off". */
  predicate IsFraction(x: real) { 0.0 <= x < 1.0 }

  /** All four parameters pass their range checks. */
  predicate ValidParams(temperature: real, topK: int, topP: real, minP: real) {
    0.0 <= temperature <= 2.0 && topK >= 0 && IsFraction(topP) && IsFraction(minP)
  }

  /** `uint64(seed)` on a non-zero seed picks a fixed source; zero means none. */
  function SourceFor(seed: int): Source {
    if seed != 0 then Seeded(seed % Two64) else Unseeded
  }

  /** Checks the parameters in a fixed order, collecting the active stages,
      and returns a greedy or a weighted sampler. */
  method NewSampler(temperature: real, topK: int, topP: real, minP: real, seed: int)
    returns (r: Result<Sampler, BuildError>)
    // the first failing check decides the error
    ensures !(0.0 <= temperature <= 2.0) ==> r == Err(TemperatureOutOfRange)
    ensures 0.0 <= temperature <= 2.0 && topK < 0 ==> r == Err(TopKNotPositive)
    ensures 0.0 <= temperature <= 2.0 && topK >= 0 && !IsFraction(topP)
      ==> r == Err(TopPOutOfRange)
    ensures 0.0 <= temperature <= 2.0 && topK >= 0 && IsFraction(topP) && !IsFraction(minP)
      ==> r == Err(MinPOutOfRange)
    ensures ValidParams(temperature, topK, topP, minP) && Stages(temperature, topK, topP, minP) == []
      ==> r == Err(NoTransform)
    // with some stage active, temperature 0 selects greedy, anything else weighted
    ensures ValidParams(temperature, topK, topP, minP) && Stages(temperature, topK, topP, minP) != []
      ==> r == Ok(if temperature == 0.0 then Greedy
                  else Weighted(SourceFor(seed), Stages(temperature, topK, topP, minP)))
  {
    var all := AllStages(temperature, topK, topP, minP);
    var transforms: seq<Transform> := [];
    if temperature < 0.0 || temperature > 2.0 {
      return Err(TemperatureOutOfRange);
    }
    if temperature != 0.0 {
      transforms := transforms + [Temperature(temperature)];
    }
    assert transforms == ActiveOnly(all[..1]);
    if topK != 0 {
      if topK <= 0 {
        return Err(TopKNotPositive);
      }
      transforms := transforms + [TopK(topK)];
    }
    assert all[..2] == all[..1] + [all[1]];
    ActiveOnlyAppend(all[..1], all[1]);
    assert transforms == ActiveOnly(all[..2]);
    if topP != 0.0 {
      if topP < 0.0 || topP >= 1.0 {
        return Err(TopPOutOfRange);
      }
      transforms := transforms + [TopP(topP)];
    }
    assert all[..3] == all[..2] + [all[2]];
    ActiveOnlyAppend(all[..2], all[2]);
    assert transforms == ActiveOnly(all[..3]);
    if minP != 0.0 {
      if minP < 0.0 || minP >= 1.0 {
        return Err(MinPOutOfRange);
      }
      transforms := transforms + [MinP(minP)];
    }
    assert all == all[..3] + [all[3]];
    ActiveOnlyAppend(all[..3], all[3]);
    assert transforms == Stages(temperature, topK, topP, minP);
    if |transforms| == 0 {
      return Err(NoTransform);
    }
    if temperature == 0.0 {
      return Ok(Greedy);
    }
    if seed != 0 {
      var seed64 := seed % Two64;
      return Ok(Weighted(Seeded(seed64), transforms));
    }
    return Ok(Weighted(Unseeded, transforms));
  }

  /** Filtering commutes with appending one more candidate. */
  lemma {:induction false} ActiveOnlyAppend(s: seq<Transform>, t: Transform)
    ensures ActiveOnly(s + [t]) == ActiveOnly(s) + (if IsActive(t) then [t] else [])
  {
    if s != [] {
      assert (s + [t])[1..] == s[1..] + [t];
      ActiveOnlyAppend(s[1..], t);
    }
  }

  /** Filtering keeps exactly the active elements. */
  lemma {:induction false} ActiveOnlyMembers(s: seq<Transform>, t: Transform)
    ensures t in ActiveOnly(s) <==> t in s && IsActive(t)
  {
    if s != [] {
      ActiveOnlyMembers(s[1..], t);
      assert s == [s[0]] + s[1..];
    }
  }

  /** Filtering preserves a strictly increasing stage order. */
  lemma {:induction false} ActiveOnlyOrdered(s: seq<Transform>)
    requires forall i, j :: 0 <= i < j < |s| ==> Rank(s[i]) < Rank(s[j])
    ensures forall i, j :: 0 <= i < j < |ActiveOnly(s)| ==> Rank(ActiveOnly(s)[i]) < Rank(ActiveOnly(s)[j])
  {
    if s != [] {
      ActiveOnlyOrdered(s[1..]);
      forall t | t in ActiveOnly(s[1..]) ensures Rank(s[0]) < Rank(t) {
        ActiveOnlyMembers(s[1..], t);
      }
    }
  }

  /** The transform list holds exactly the stages whose parameter is non-zero. */
  lemma StagesAreTheActiveOnes(temperature: real, topK: int, topP: real, minP: real)
    ensures Temperature(temperature) in Stages(temperature, topK, topP, minP) <==> temperature != 0.0
    ensures TopK(topK) in Stages(temperature, topK, topP, minP) <==> topK != 0
    ensures TopP(topP) in Stages(temperature, topK, topP, minP) <==> topP != 0.0
    ensures MinP(minP) in Stages(temperature, topK, topP, minP) <==> minP != 0.0
    ensures forall t :: t in Stages(temperature, topK, topP, minP) ==> t in AllStages(temperature, topK, topP, minP)
  {
    var all := AllStages(temperature, topK, topP, minP);
    ActiveOnlyMembers(all, Temperature(temperature));
    ActiveOnlyMembers(all, TopK(topK));
    ActiveOnlyMembers(all, TopP(topP));
    ActiveOnlyMembers(all, MinP(minP));
    forall t | t in Stages(temperature, topK, topP, minP) ensures t in all {
      ActiveOnlyMembers(all, t);
    }
  }

  /** The transform list follows the order Temperature, TopK, TopP, MinP. */
  lemma StagesInPipelineOrder(temperature: real, topK: int, topP: real, minP: real)
    ensures var s := Stages(temperature, topK, topP, minP);
      forall i, j :: 0 <= i < j < |s| ==> Rank(s[i]) < Rank(s[j])
  {
    ActiveOnlyOrdered(AllStages(temperature, topK, topP, minP));
  }

  /** With every parameter zero no stage is requested, so construction fails
      even though temperature 0 alone would otherwise mean greedy. */
  lemma StagesEmptyIffAllZero(temperature: real, topK: int, topP: real, minP: real)
    ensures Stages(temperature, topK, topP, minP) == []
      <==> temperature == 0.0 && topK == 0 && topP == 0.0 && minP == 0.0
  {
    StagesAreTheActiveOnes(temperature, topK, topP, minP);
  }

  /** A zero seed gives the unseeded source; a non-zero int64 seed gives a
      fixed source whose 64 bits read back as the seed. */
  lemma SeededIffSeedNonZero(seed: int)
    requires IsInt64(seed)
    ensures SourceFor(seed).Seeded? <==> seed != 0
    ensures SourceFor(seed).Seeded? ==> SourceFor(seed).seed != 0 && Int64(SourceFor(seed).seed) == seed
  {
  }

  // ---------------------------------------------------------------------
  // Greedy
  // ---------------------------------------------------------------------

  // The scan keeps a running maximum that starts at a floor value and is
  // replaced by every logit comparing greater. The code as written starts
  // at 0; the intended floor is negative infinity.

  /** No logit among the first `n` compares greater than `floor`. */
  ghost predicate NoneAbove(logits: seq<Float>, n: int, floor: Float)
    requires n <= |logits|
  {
    forall j :: 0 <= j < n ==> !Gt(logits[j], floor)
  }

  /** Among the first `n` logits, `i` holds the largest value, that value is
      above `floor`, and `i` is the first index holding it (NaNs are never
      the largest and never hide it). */
  ghost predicate FirstMaxAbove(logits: seq<Float>, n: int, floor: Float, i: int)
    requires n <= |logits|
  {
    && 0 <= i < n
    && Gt(logits[i], floor)
    && (forall j :: 0 <= j < i ==> !Ge(logits[j], logits[i]))
    && (forall j :: i < j < n ==> !Gt(logits[j], logits[i]))
  }

  /** The index a scan from `floor` ends on after `n` logits: the first
      maximum when some logit is above the floor, otherwise 0. */
  ghost predicate ScanChoice(logits: seq<Float>, n: int, floor: Float, i: int)
    requires n <= |logits|
  {
    if NoneAbove(logits, n, floor) then i == 0 else FirstMaxAbove(logits, n, floor, i)
  }

  /** The index greedy sampling as written returns: the first maximum when
      some logit is above zero, otherwise 0. */
  ghost predicate IsGreedyChoice(logits: seq<Float>, i: int) {
    ScanChoice(logits, |logits|, Zero, i)
  }

  /** The arg-max greedy sampling is meant to return: the first index holding
      the largest logit, when some logit is above negative infinity. */
  ghost predicate IsArgMax(logits: seq<Float>, i: int) {
    FirstMaxAbove(logits, |logits|, NegInf, i)
  }

  /** At most one index is the greedy choice. */
  lemma GreedyChoiceUnique(logits: seq<Float>, i: int, k: int)
    requires IsGreedyChoice(logits, i) && IsGreedyChoice(logits, k)
    ensures i == k
  {
  }

  /** One step of the scan keeps the running index the scan's choice for the
      prefix seen so far, and the running maximum its logit. */
  lemma ScanStep(logits: seq<Float>, n: nat, floor: Float, maxIdx: int, maxLogit: Float)
    requires n < |logits|
    requires ScanChoice(logits, n, floor, maxIdx)
    requires maxLogit == if NoneAbove(logits, n, floor) then floor else logits[maxIdx]
    ensures Gt(logits[n], maxLogit) ==>
      ScanChoice(logits, n + 1, floor, n) && !NoneAbove(logits, n + 1, floor)
    ensures !Gt(logits[n], maxLogit) ==>
      ScanChoice(logits, n + 1, floor, maxIdx)
      && (NoneAbove(logits, n + 1, floor) <==> NoneAbove(logits, n, floor))
  {
  }

  /** `greedy.Sample` as written: the arg-max scan from a running maximum of
      0. Its negative-infinity error branch is kept; it is never taken. */
  method GreedySample(logits: seq<Float>) returns (r: Result<int, SampleError>)
    ensures r.Ok?
    ensures exists i :: IsGreedyChoice(logits, i) && r.value == Int32(i)
    ensures |logits| <= Two31 ==> IsGreedyChoice(logits, r.value)
  {
    var maxIdx := 0;
    var maxLogit := Zero;
    for i := 0 to |logits|
      invariant ScanChoice(logits, i, Zero, maxIdx)
      invariant maxLogit == if NoneAbove(logits, i, Zero) then Zero else logits[maxIdx]
    {
      ScanStep(logits, i, Zero, maxIdx, maxLogit);
      if Gt(logits[i], maxLogit) {
        maxLogit := logits[i];
        maxIdx := i;
      }
    }
    if maxLogit == NegInf {
      assert false;
      return Err(NoValidLogits);
    }
    return Ok(Int32(maxIdx));
  }

  /** As written, greedy sampling misses a maximum that is negative: on
      logits [-1.0, -0.5] it returns 0 while the arg-max is 1. */
  lemma GreedyMissesNegativeMaximum()
    ensures IsGreedyChoice([Finite(-1.0), Finite(-0.5)], 0)
    ensures IsArgMax([Finite(-1.0), Finite(-0.5)], 1)
  {
  }

  /** Greedy sampling with the running maximum starting at negative infinity,
      which makes its error branch reachable: it returns the arg-max, and
      fails exactly when no logit is above negative infinity (no logits, or
      only -Inf and NaN). */
  method GreedySampleIntended(logits: seq<Float>) returns (r: Result<int, SampleError>)
    ensures r.Err? <==> NoneAbove(logits, |logits|, NegInf)
    ensures r.Err? ==> r.error == NoValidLogits
    ensures r.Ok? ==> exists i :: IsArgMax(logits, i) && r.value == Int32(i)
    ensures r.Ok? && |logits| <= Two31 ==> IsArgMax(logits, r.value)
  {
    var maxIdx := 0;
    var maxLogit := NegInf;
    for i := 0 to |logits|
      invariant ScanChoice(logits, i, NegInf, maxIdx)
      invariant maxLogit == if NoneAbove(logits, i, NegInf) then NegInf else logits[maxIdx]
    {
      ScanStep(logits, i, NegInf, maxIdx, maxLogit);
      if Gt(logits[i], maxLogit) {
        maxLogit := logits[i];
        maxIdx := i;
      }
    }
    if maxLogit == NegInf {
      return Err(NoValidLogits);
    }
    return Ok(Int32(maxIdx));
  }

  // ---------------------------------------------------------------------
  // Weighted
  // ---------------------------------------------------------------------

  /** Applies the stages to a record set one after the other, in list order. */
  function ApplyAll(apply: (Transform, TokenSliceInfo) -> TokenSliceInfo,
                    transforms: seq<Transform>, info: TokenSliceInfo): TokenSliceInfo
  {
    if transforms == [] then info
    else ApplyAll(apply, transforms[1..], apply(transforms[0], info))
  }

  /** Running one more stage after a prefix is the fold over the longer list. */
  lemma {:induction false} ApplyAllSnoc(apply: (Transform, TokenSliceInfo) -> TokenSliceInfo,
                                        transforms: seq<Transform>, t: Transform, info: TokenSliceInfo)
    ensures ApplyAll(apply, transforms + [t], info) == apply(t, ApplyAll(apply, transforms, info))
  {
    if transforms != [] {
      assert (transforms + [t])[1..] == transforms[1..] + [t];
      ApplyAllSnoc(apply, transforms[1..], t, apply(transforms[0], info));
    }
  }

  /** The records weighted sampling starts from: record `i` has id `i`, the
      `i`-th logit and the `i`-th probability. */
  function InitialSlice(logits: seq<Float>, probs: seq<Float>): TokenSliceInfo
    requires |probs| == |logits|
  {
    TokenSliceInfo(seq(|logits|, i requires 0 <= i < |logits| => TokenInfo(i, logits[i], probs[i])), false)
  }

  /** The records left after every stage has run. */
  function Survivors(softmax: seq<Float> -> seq<Float>,
                     apply: (Transform, TokenSliceInfo) -> TokenSliceInfo,
                     transforms: seq<Transform>, logits: seq<Float>): seq<TokenInfo>
    requires |softmax(logits)| == |logits|
  {
    ApplyAll(apply, transforms, InitialSlice(logits, softmax(logits))).tokens
  }

  /** The probabilities of the records, in record order. */
  function Weights(ts: seq<TokenInfo>): seq<Float> {
    seq(|ts|, k requires 0 <= k < |ts| => ts[k].prob)
  }

  /** The draw, when it succeeds, names a position among the weights it was given. */
  ghost predicate DrawInRange(draw: seq<Float> -> Option<int>) {
    forall ws :: draw(ws).Some? ==> 0 <= draw(ws).value < |ws|
  }

  /** What weighted sampling returns: no survivor is an error; otherwise the
      drawn position is mapped back to that survivor's id, or the failed draw
      is an error. */
  function WeightedOutcome(softmax: seq<Float> -> seq<Float>,
                           apply: (Transform, TokenSliceInfo) -> TokenSliceInfo,
                           draw: seq<Float> -> Option<int>,
                           transforms: seq<Transform>, logits: seq<Float>): Result<int, SampleError>
    requires |softmax(logits)| == |logits|
    requires DrawInRange(draw)
  {
    var survivors := Survivors(softmax, apply, transforms, logits);
    if survivors == [] then Err(NoValidLogits)
    else
      match draw(Weights(survivors))
      case Some(k) => Ok(Int32(survivors[k].id))
      case None => Err(DrawFailed)
  }

  /** `weighted.Sample`. `softmax` stands for the probability computation,
      `apply` for each stage's `Apply`, and `draw` for a weighted draw from
      the sampler's source in its current state. */
  method WeightedSample(transforms: seq<Transform>, logits: seq<Float>,
                        softmax: seq<Float> -> seq<Float>,
                        apply: (Transform, TokenSliceInfo) -> TokenSliceInfo,
                        draw: seq<Float> -> Option<int>)
    returns (r: Result<int, SampleError>)
    requires |softmax(logits)| == |logits|
    requires DrawInRange(draw)
    ensures r == WeightedOutcome(softmax, apply, draw, transforms, logits)
  {
    var probs := softmax(logits);
    var tokens := new TokenInfo[|logits|];
    for i := 0 to |logits|
      invariant forall k :: 0 <= k < i ==> tokens[k] == TokenInfo(k, logits[k], probs[k])
    {
      tokens[i] := TokenInfo(i, logits[i], probs[i]);
    }
    ghost var start := InitialSlice(logits, probs);
    var info := TokenSliceInfo(tokens[..], false);
    assert info == start;
    for i := 0 to |transforms|
      invariant info == ApplyAll(apply, transforms[..i], start)
    {
      ApplyAllSnoc(apply, transforms[..i], transforms[i], start);
      assert transforms[..i + 1] == transforms[..i] + [transforms[i]];
      info := apply(transforms[i], info);
    }
    assert transforms[..|transforms|] == transforms;
    if |info.tokens| == 0 {
      return Err(NoValidLogits);
    }
    var n := |info.tokens|;
    var filteredProbs := new Float[n];
    var indices := new int[n];
    for i := 0 to n
      invariant forall k :: 0 <= k < i ==> filteredProbs[k] == info.tokens[k].prob
      invariant forall k :: 0 <= k < i ==> indices[k] == info.tokens[k].id
    {
      filteredProbs[i] := info.tokens[i].prob;
      indices[i] := info.tokens[i].id;
    }
    assert filteredProbs[..] == Weights(info.tokens);
    match draw(filteredProbs[..]) {
      case Some(idx) =>
        return Ok(Int32(indices[idx]));
      case None =>
        return Err(DrawFailed);
    }
  }

  /** The ids carried by a record sequence. */
  ghost function Ids(ts: seq<TokenInfo>): set<int> {
    set k | 0 <= k < |ts| :: ts[k].id
  }

  /** Every stage only removes records and never invents an id. */
  ghost predicate OnlyShrinks(apply: (Transform, TokenSliceInfo) -> TokenSliceInfo) {
    forall t, s :: Ids(apply(t, s).tokens) <= Ids(s.tokens)
  }

  /** A pipeline of shrinking stages never invents an id. */
  lemma {:induction false} ApplyAllOnlyShrinks(apply: (Transform, TokenSliceInfo) -> TokenSliceInfo,
                                               transforms: seq<Transform>, info: TokenSliceInfo)
    requires OnlyShrinks(apply)
    ensures Ids(ApplyAll(apply, transforms, info).tokens) <= Ids(info.tokens)
  {
    if transforms != [] {
      ApplyAllOnlyShrinks(apply, transforms[1..], apply(transforms[0], info));
    }
  }

  /** When the stages only shrink the set, a successful weighted sample is a
      valid vocabulary index of the logits given, and empty logits are
      always rejected. */
  lemma WeightedPicksInputIndex(softmax: seq<Float> -> seq<Float>,
                                apply: (Transform, TokenSliceInfo) -> TokenSliceInfo,
                                draw: seq<Float> -> Option<int>,
                                transforms: seq<Transform>, logits: seq<Float>)
    requires |softmax(logits)| == |logits|
    requires DrawInRange(draw)
    requires OnlyShrinks(apply)
    requires |logits| <= Two31
    ensures var r := WeightedOutcome(softmax, apply, draw, transforms, logits);
      (r.Ok? ==> 0 <= r.value < |logits|) && (logits == [] ==> r == Err(NoValidLogits))
  {
    var start := InitialSlice(logits, softmax(logits));
    var survivors := Survivors(softmax, apply, transforms, logits);
    ApplyAllOnlyShrinks(apply, transforms, start);
    forall id | id in Ids(start.tokens) ensures 0 <= id < |logits| {
      var k :| 0 <= k < |start.tokens| && start.tokens[k].id == id;
    }
    if survivors != [] {
      assert survivors[0].id in Ids(survivors);
      match draw(Weights(survivors)) {
        case Some(k) =>
          assert survivors[k].id in Ids(survivors);
        case None =>
      }
    }
  }

  // ---------------------------------------------------------------------
  // The Sampler interface
  // ---------------------------------------------------------------------

  /** `Sample` on a built sampler: a greedy sampler scans the raw logits and
      ignores the pipeline; a weighted one runs its own transforms. */
  method Sample(s: Sampler, logits: seq<Float>,
                softmax: seq<Float> -> seq<Float>,
                apply: (Transform, TokenSliceInfo) -> TokenSliceInfo,
                draw: seq<Float> -> Option<int>)
    returns (r: Result<int, SampleError>)
    requires s.Weighted? ==> |softmax(logits)| == |logits|
    requires DrawInRange(draw)
    ensures s.Greedy? ==> r.Ok? && exists i :: IsGreedyChoice(logits, i) && r.value == Int32(i)
    ensures s.Greedy? ==> r.Ok? && (|logits| <= Two31 ==> IsGreedyChoice(logits, r.value))
    ensures s.Weighted? ==> r == WeightedOutcome(softmax, apply, draw, s.transforms, logits)
  {
    match s {
      case Greedy =>
        r := GreedySample(logits);
      case Weighted(_, transforms) =>
        r := WeightedSample(transforms, logits, softmax, apply, draw);
    }
  }
}
