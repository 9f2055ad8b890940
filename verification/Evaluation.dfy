/** Judging compiled candidates against replayed executions: the determinism fold, the scores,
    and the dataset that a deterministic candidate is compiled from. */
module Evaluation {
  import opened Common

  datatype Kind = Prompt | Macro | Wasm

  datatype Sample = Sample(
    succeeded: bool,
    reward: int,
    tools: seq<string>,
    agentId: string,
    promptMode: string,
    summary: string)

  datatype Run = Run(sampleCount: nat, score: int, deterministic: bool, passed: bool)

  datatype Dataset = Dataset(
    agentId: string,
    promptMode: string,
    toolSequence: seq<string>,
    exampleInputs: seq<string>,
    successCount: nat,
    cumulativeReward: int)

  // ----- iterator chains -----

  predicate IsAccepted(s: Sample) {
    s.succeeded && s.reward > 0 && s.tools != []
  }

  function Accepted(samples: seq<Sample>): seq<Sample> {
    if samples == [] then []
    else if IsAccepted(samples[0]) then [samples[0]] + Accepted(samples[1..])
    else Accepted(samples[1..])
  }

  function Successes(samples: seq<Sample>): nat {
    if samples == [] then 0 else (if samples[0].succeeded then 1 else 0) + Successes(samples[1..])
  }

  function ToolHeavy(samples: seq<Sample>): nat {
    if samples == [] then 0 else (if samples[0].tools != [] then 1 else 0) + ToolHeavy(samples[1..])
  }

  function TotalReward(samples: seq<Sample>): int {
    if samples == [] then 0 else samples[0].reward + TotalReward(samples[1..])
  }

  function Summaries(samples: seq<Sample>): seq<string> {
    if samples == [] then [] else [samples[0].summary] + Summaries(samples[1..])
  }

  /** The reduction: a mismatch turns the sequence into the empty one for good. */
  function Reduce(sequence: seq<string>, rest: seq<Sample>): seq<string>
    decreases |rest|
  {
    if rest == [] then sequence
    else Reduce(if sequence == rest[0].tools then sequence else [], rest[1..])
  }

  predicate Deterministic(samples: seq<Sample>) {
    var accepted := Accepted(samples);
    accepted != [] && Reduce(accepted[0].tools, accepted[1..]) != []
  }

  // ----- evaluation -----

  function Fit(kind: Kind, samples: seq<Sample>): int {
    match kind
    case Prompt => if ToolHeavy(samples) == 0 then 20 else -20
    case Macro => if ToolHeavy(samples) > 0 then 20 else -20
    case Wasm => if ToolHeavy(samples) > 0 && |samples| >= 5 && Deterministic(samples) then 20 else -40
  }

  function Score(kind: Kind, samples: seq<Sample>): int {
    var success := if samples == [] then 0 else (Successes(samples) * 100) / |samples|;
    success + TotalReward(samples) * 10 + Fit(kind, samples)
  }

  function Evaluate(kind: Kind, samples: seq<Sample>): Run {
    var score := Score(kind, samples);
    var deterministic := Deterministic(samples);
    var passed :=
      match kind
      case Wasm => |samples| >= 5 && deterministic && Successes(samples) == |samples| && score >= 90
      case _ => |samples| >= 3 && score >= 70;
    Run(|samples|, score, deterministic, passed)
  }

  function BuildWasmDataset(samples: seq<Sample>): Option<Dataset> {
    var accepted := Accepted(samples);
    if |accepted| < 5 then None
    else
      var first := accepted[0].tools;
      if first == [] || exists i :: 0 <= i < |accepted| && accepted[i].tools != first then None
      else
        Some(Dataset(accepted[0].agentId, accepted[0].promptMode, first, Summaries(Take(accepted, 5)),
                     |accepted|, TotalReward(accepted)))
  }

  // ----- what the fold decides -----

  ghost predicate AllUse(samples: seq<Sample>, sequence: seq<string>) {
    forall i :: 0 <= i < |samples| ==> samples[i].tools == sequence
  }

  lemma {:induction false} AcceptedAreAccepted(samples: seq<Sample>)
    ensures forall s <- Accepted(samples) :: IsAccepted(s) && s in samples
    ensures forall s <- samples :: IsAccepted(s) ==> s in Accepted(samples)
  {
    if samples != [] {
      AcceptedAreAccepted(samples[1..]);
      assert samples == [samples[0]] + samples[1..];
    }
  }

  lemma {:induction false} EmptyAbsorbs(rest: seq<Sample>)
    requires forall s <- rest :: s.tools != []
    ensures Reduce([], rest) == []
    decreases |rest|
  {
    if rest != [] {
      assert rest[0] in rest && forall s <- rest[1..] :: s in rest;
      EmptyAbsorbs(rest[1..]);
    }
  }

  lemma {:induction false} ReduceDecides(sequence: seq<string>, rest: seq<Sample>)
    requires sequence != [] && forall s <- rest :: s.tools != []
    ensures Reduce(sequence, rest) == if AllUse(rest, sequence) then sequence else []
    decreases |rest|
  {
    if rest != [] {
      assert rest[0] in rest && forall s <- rest[1..] :: s in rest;
      assert AllUse(rest, sequence) <==> rest[0].tools == sequence && AllUse(rest[1..], sequence) by {
        assert rest == [rest[0]] + rest[1..];
      }
      if rest[0].tools == sequence {
        ReduceDecides(sequence, rest[1..]);
      } else {
        EmptyAbsorbs(rest[1..]);
      }
    }
  }

  /** The samples that count are those that succeeded with a positive reward and used some tool,
      each one, in order. */
  lemma {:induction false} AcceptedAdds(a: seq<Sample>, b: seq<Sample>)
    ensures Accepted(a + b) == Accepted(a) + Accepted(b)
  {
    hide IsAccepted;
    if a == [] {
      assert a + b == b;
    } else {
      AcceptedAdds(a[1..], b);
      assert (a + b)[1..] == a[1..] + b;
      hide Accepted;
      var first := if IsAccepted(a[0]) then [a[0]] else [];
      assert first + (Accepted(a[1..]) + Accepted(b)) == first + Accepted(a[1..]) + Accepted(b);
    }
  }

  lemma AcceptedOfOne(s: Sample)
    ensures Accepted([s]) == if s.succeeded && 1 <= s.reward && |s.tools| >= 1 then [s] else []
  {
    assert [s][1..] == [];
  }

  /** The fold answers yes iff some sample counts and any two samples that count used the same tools
      in the same order. */
  lemma DeterministicMeansOneSequence(samples: seq<Sample>)
    ensures Deterministic(samples)
       <==> && Accepted(samples) != []
            && forall s, t :: s in samples && t in samples
                 && s.succeeded && t.succeeded && 1 <= s.reward && 1 <= t.reward && s.tools != [] && t.tools != []
                 ==> s.tools == t.tools
  {
    var accepted := Accepted(samples);
    AcceptedAreAccepted(samples);
    if accepted != [] {
      var first, rest := accepted[0], accepted[1..];
      assert first in accepted && forall s <- rest :: s in accepted;
      ReduceDecides(first.tools, rest);
      if AllUse(rest, first.tools) {
        forall s | s in accepted ensures s.tools == first.tools {
          var i :| 0 <= i < |accepted| && accepted[i] == s;
          assert i > 0 ==> rest[i - 1].tools == first.tools;
        }
      } else {
        var i :| 0 <= i < |rest| && rest[i].tools != first.tools;
        assert rest[i] in accepted;
      }
    }
  }

  /** The dataset exists iff at least five samples are accepted and they are deterministic; it
      names agent and mode of the first accepted sample, the one sequence of them all, the inputs
      of the first five in order, and the number and rewards of all of them. */
  lemma DatasetNeedsDeterminism(samples: seq<Sample>)
    ensures BuildWasmDataset(samples).Some? <==> |Accepted(samples)| >= 5 && Deterministic(samples)
    ensures BuildWasmDataset(samples).Some? ==>
      var accepted, d := Accepted(samples), BuildWasmDataset(samples).value;
      && d.agentId == accepted[0].agentId && d.promptMode == accepted[0].promptMode
      && d.toolSequence != [] && AllUse(accepted, d.toolSequence)
      && |d.exampleInputs| == 5 && (forall i :: 0 <= i < 5 ==> d.exampleInputs[i] == accepted[i].summary)
      && d.successCount == |accepted| && d.cumulativeReward == TotalReward(accepted) >= d.successCount
  {
    var accepted := Accepted(samples);
    AcceptedAreAccepted(samples);
    RewardsArePositive(accepted);
    if |accepted| >= 5 {
      var first, rest := accepted[0], accepted[1..];
      assert first in accepted && forall s <- rest :: s in accepted;
      ReduceDecides(first.tools, rest);
      assert AllUse(accepted, first.tools) <==> AllUse(rest, first.tools) by {
        assert accepted == [first] + rest;
        assert forall i :: 0 <= i < |rest| ==> rest[i] == accepted[i + 1];
      }
      SummariesAt(Take(accepted, 5));
    }
  }

  lemma {:induction false} RewardsArePositive(samples: seq<Sample>)
    requires forall s <- samples :: s.reward > 0
    ensures TotalReward(samples) >= |samples|
  {
    if samples != [] {
      assert samples[0] in samples && forall s <- samples[1..] :: s in samples;
      RewardsArePositive(samples[1..]);
    }
  }

  lemma {:induction false} SummariesAt(samples: seq<Sample>)
    ensures |Summaries(samples)| == |samples|
    ensures forall i :: 0 <= i < |samples| ==> Summaries(samples)[i] == samples[i].summary
  {
    if samples != [] {
      SummariesAt(samples[1..]);
    }
  }

  lemma {:induction false} SuccessesCount(samples: seq<Sample>)
    ensures Successes(samples) <= |samples|
    ensures Successes(samples) == |samples| <==> forall s <- samples :: s.succeeded
  {
    if samples != [] {
      SuccessesCount(samples[1..]);
      assert samples == [samples[0]] + samples[1..];
    }
  }

  lemma {:induction false} AcceptedAreHeavy(samples: seq<Sample>)
    ensures |Accepted(samples)| <= ToolHeavy(samples)
  {
    if samples != [] {
      AcceptedAreHeavy(samples[1..]);
    }
  }

  /** Successes and rewards are counted sample by sample, wherever the samples stand. */
  lemma {:induction false} CountsAdd(a: seq<Sample>, b: seq<Sample>)
    ensures Successes(a + b) == Successes(a) + Successes(b)
    ensures TotalReward(a + b) == TotalReward(a) + TotalReward(b)
    ensures |a| == 1 ==> TotalReward(a) == a[0].reward && Successes(a) == if a[0].succeeded then 1 else 0
  {
    if a == [] {
      assert a + b == b;
    } else {
      CountsAdd(a[1..], b);
      assert (a + b)[1..] == a[1..] + b;
    }
  }

  ghost predicate SomeUsesTools(samples: seq<Sample>) {
    exists s <- samples :: s.tools != []
  }

  lemma {:induction false} HeavyMeansSome(samples: seq<Sample>)
    ensures ToolHeavy(samples) > 0 <==> SomeUsesTools(samples)
  {
    if samples != [] {
      HeavyMeansSome(samples[1..]);
      assert samples == [samples[0]] + samples[1..];
    }
  }

  /** The full percentage of samples that succeeded; 0 of none. */
  ghost predicate IsPercentage(p: int, samples: seq<Sample>) {
    if samples == [] then p == 0
    else p * |samples| <= 100 * Successes(samples) < (p + 1) * |samples|
  }

  lemma Multiples(a: int, b: int, n: int)
    requires n > 0
    ensures a < b ==> (a + 1) * n <= b * n
  {
    if a < b {
      assert (b - a - 1) * n >= 0;
    }
  }

  lemma QuotientIs(p: int, x: int, n: int)
    requires n > 0 && p * n <= x < (p + 1) * n
    ensures x / n == p
  {
    var q := x / n;
    assert q * n <= x < (q + 1) * n;
    Multiples(p, q, n);
    Multiples(q, p, n);
  }

  /** The score: the percentage of successes, ten times the rewards, and 20 for a kind that suits the
      samples. Prompts suit samples without tools, macros those with tools, and deterministic
      candidates five or more that agree; the others lose 20, and 40 for the last kind. */
  lemma ScoreMeans(kind: Kind, samples: seq<Sample>, p: int)
    requires IsPercentage(p, samples)
    ensures var fit := Evaluate(kind, samples).score - p - 10 * TotalReward(samples);
      && (kind.Prompt? ==> fit == if SomeUsesTools(samples) then -20 else 20)
      && (kind.Macro? ==> fit == if SomeUsesTools(samples) then 20 else -20)
      && (kind.Wasm? ==> fit == if |samples| >= 5 && Deterministic(samples) then 20 else -40)
  {
    HeavyMeansSome(samples);
    AcceptedAreHeavy(samples);
    if samples != [] {
      QuotientIs(p, 100 * Successes(samples), |samples|);
    }
    assert Deterministic(samples) ==> Accepted(samples) != [];
    hide Deterministic, Accepted, ToolHeavy, TotalReward, Successes, SomeUsesTools;
  }

  lemma PercentageExists(samples: seq<Sample>) returns (p: int)
    ensures IsPercentage(p, samples)
  {
    hide Successes;
    p := if samples == [] then 0 else (100 * Successes(samples)) / |samples|;
  }

  lemma PercentageAtLeast(p: int, samples: seq<Sample>, k: int)
    requires IsPercentage(p, samples) && samples != []
    ensures p >= k <==> 100 * Successes(samples) >= k * |samples|
  {
    hide Successes;
    Multiples(p, k, |samples|);
    Multiples(k - 1, p, |samples|);
  }

  /** A prompt passes iff there are three samples and they succeed in 50 percent of the cases, or 90
      when some of them used tools; ten points less for each unit of reward. */
  lemma PromptPassCondition(samples: seq<Sample>)
    ensures Evaluate(Prompt, samples).passed
       <==> |samples| >= 3 && 100 * Successes(samples)
            >= ((if SomeUsesTools(samples) then 90 else 50) - 10 * TotalReward(samples)) * |samples|
  {
    hide *;
    PlainPass(Prompt, samples, if SomeUsesTools(samples) then 90 else 50);
  }

  /** A macro passes on the same terms, with tools and their absence the other way round. */
  lemma MacroPassCondition(samples: seq<Sample>)
    ensures Evaluate(Macro, samples).passed
       <==> |samples| >= 3 && 100 * Successes(samples)
            >= ((if SomeUsesTools(samples) then 50 else 90) - 10 * TotalReward(samples)) * |samples|
  {
    hide *;
    PlainPass(Macro, samples, if SomeUsesTools(samples) then 50 else 90);
  }

  lemma PlainPass(kind: Kind, samples: seq<Sample>, needed: int)
    requires !kind.Wasm? && needed == if SomeUsesTools(samples) == kind.Prompt? then 90 else 50
    ensures Evaluate(kind, samples).passed
       <==> |samples| >= 3 && 100 * Successes(samples) >= (needed - 10 * TotalReward(samples)) * |samples|
  {
    var p := PercentageExists(samples);
    ScoreMeans(kind, samples, p);
    hide Successes, TotalReward, SomeUsesTools, IsPercentage, Score, Deterministic;
    if samples != [] {
      PercentageAtLeast(p, samples, needed - 10 * TotalReward(samples));
    }
  }

  /** A deterministic candidate passes iff there are five samples, all of them succeeded, the
      accepted ones agree, and the rewards do not sum to less than -3. */
  lemma WasmPassCondition(samples: seq<Sample>)
    ensures Evaluate(Wasm, samples).passed
       <==> && |samples| >= 5 && Deterministic(samples)
            && (forall s <- samples :: s.succeeded)
            && TotalReward(samples) >= -3
  {
    SuccessesCount(samples);
    AcceptedAreHeavy(samples);
    if samples != [] && Successes(samples) == |samples| {
      FullPercentage(|samples|);
    }
    assert Deterministic(samples) ==> Accepted(samples) != [];
    hide Deterministic, Accepted, ToolHeavy, TotalReward, Successes;
  }

  lemma FullPercentage(n: nat)
    requires n > 0
    ensures (n * 100) / n == 100
  {
    assert n * 100 == 100 * n;
  }

  /** Passing does not mean that a dataset can be built: that takes five accepted samples. */
  lemma PassedAndCompilable(samples: seq<Sample>)
    requires Evaluate(Wasm, samples).passed
    ensures BuildWasmDataset(samples).Some? <==> |Accepted(samples)| >= 5
  {
    DatasetNeedsDeterminism(samples);
  }

  /** Four plain successes and one rewarded tool run pass, and give no dataset. */
  lemma PassWithoutDataset(plain: Sample, rewarded: Sample)
    requires plain.succeeded && plain.reward == 0 && plain.tools == []
    requires IsAccepted(rewarded)
    ensures var samples := [plain, plain, plain, plain, rewarded];
      Evaluate(Wasm, samples).passed && BuildWasmDataset(samples).None?
  {
    var one := [rewarded];
    var two, three, four := [plain] + one, [plain, plain] + one, [plain, plain, plain] + one;
    var samples := [plain, plain, plain, plain, rewarded];
    assert one == [rewarded] + [] && three == [plain] + two && four == [plain] + three && samples == [plain] + four;
    FoldNext(rewarded, []);
    FoldNext(plain, one);
    FoldNext(plain, two);
    FoldNext(plain, three);
    FoldNext(plain, four);
    assert Accepted(samples) == one && TotalReward(samples) == rewarded.reward;
    assert Reduce(rewarded.tools, one[1..]) == rewarded.tools;
    WasmPassCondition(samples);
  }

  lemma FoldNext(first: Sample, rest: seq<Sample>)
    ensures Accepted([first] + rest) == if IsAccepted(first) then [first] + Accepted(rest) else Accepted(rest)
    ensures TotalReward([first] + rest) == first.reward + TotalReward(rest)
  {
    assert ([first] + rest)[1..] == rest;
  }

  /** A dataset can be built from samples whose evaluation fails, but never for lack of
      determinism. */
  lemma CompilableFailsOnlyOnOutcomes(samples: seq<Sample>)
    requires BuildWasmDataset(samples).Some?
    ensures Evaluate(Wasm, samples).passed
       <==> (forall s <- samples :: s.succeeded) && TotalReward(samples) >= -3
  {
    DatasetNeedsDeterminism(samples);
    AcceptedAreFew(samples);
    WasmPassCondition(samples);
  }

  lemma {:induction false} AcceptedAreFew(samples: seq<Sample>)
    ensures |Accepted(samples)| <= |samples|
  {
    if samples != [] {
      AcceptedAreFew(samples[1..]);
    }
  }
}
