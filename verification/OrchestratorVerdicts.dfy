/** What screening, executing and absorbing a batch come to, each told by the first call or result
    that stops it. */
module OrchestratorVerdicts {
  import opened Common
  import opened Orchestrator
  import opened OrchestratorSafety
  import opened OrchestratorOutcome

  // ----- known tools -----

  ghost predicate IsFirstNamed(tools: seq<CachedTool>, i: nat, name: string) {
    i < |tools| && tools[i].name == name && forall j :: 0 <= j < i ==> tools[j].name != name
  }

  ghost predicate IsKnown(tools: seq<CachedTool>, name: string) {
    exists i :: 0 <= i < |tools| && tools[i].name == name
  }

  lemma {:induction false} FindsTheFirst(tools: seq<CachedTool>, name: string) returns (i: nat)
    ensures FindTool(tools, name).Some? <==> IsKnown(tools, name)
    ensures IsKnown(tools, name) ==> IsFirstNamed(tools, i, name) && FindTool(tools, name) == Some(tools[i])
  {
    i := 0;
    if tools != [] && tools[0].name != name {
      var k := FindsTheFirst(tools[1..], name);
      i := k + 1;
      assert forall j :: 1 <= j < |tools| ==> tools[j] == tools[1..][j - 1];
    }
  }

  lemma FirstIsUnique(tools: seq<CachedTool>, i: nat, j: nat, name: string)
    requires IsFirstNamed(tools, i, name) && IsFirstNamed(tools, j, name)
    ensures i == j
  {
  }

  /** A call fails the schema check iff its tool is unknown, or the first tool of its name has an
      invalid schema or finds the arguments not to be JSON or to violate the schema. */
  lemma SchemaRefusals(host: Host, call: ToolCall)
    ensures !PassesSchema(host, call)
       <==> || !IsKnown(host.tools, call.name)
            || exists i: nat :: IsFirstNamed(host.tools, i, call.name)
                 && host.validate(host.tools[i], call.arguments)
                    in {SchemaInvalid, ArgumentsNotJson, ArgumentsViolateSchema}
  {
    var i := FindsTheFirst(host.tools, call.name);
    if IsKnown(host.tools, call.name) {
      forall j: nat | IsFirstNamed(host.tools, j, call.name) ensures j == i {
        FirstIsUnique(host.tools, i, j, call.name);
      }
      hide FindTool, IsFirstNamed;
      match host.validate(host.tools[i], call.arguments) {
        case Valid =>
        case NotCheckable =>
        case SchemaInvalid =>
        case ArgumentsNotJson =>
        case ArgumentsViolateSchema =>
      }
    }
  }

  /** A batch runs in parallel iff that is allowed, no call has a side effect by name, and no known
      tool among them is marked unsafe. */
  lemma ParallelCondition(host: Host, batch: seq<ToolCall>)
    ensures RunsInParallel(host, batch)
       <==> && host.allowParallel
            && forall call <- batch ::
                 && call.name !in SERIAL_TOOLS
                 && forall i: nat :: IsFirstNamed(host.tools, i, call.name) ==> host.tools[i].parallelSafe
  {
    forall call | call in batch
      ensures ParallelSafe(host, call)
         <==> && call.name !in SERIAL_TOOLS
              && forall i: nat :: IsFirstNamed(host.tools, i, call.name) ==> host.tools[i].parallelSafe
    {
      var i := FindsTheFirst(host.tools, call.name);
      forall j: nat | IsFirstNamed(host.tools, j, call.name) ensures IsKnown(host.tools, call.name) && j == i {
        assert host.tools[j].name == call.name;
        FirstIsUnique(host.tools, i, j, call.name);
      }
    }
    hide ParallelSafe;
    assert forall i :: 0 <= i < |batch| ==> batch[i] in batch;
  }

  // ----- screening -----

  /** The calls that the generic path shows to the middlewares. */
  predicate Checked(host: Host, call: ToolCall) {
    call.name != REGISTRY_TOOL && PassesSchema(host, call)
  }

  function Admissions(host: Host, calls: seq<ToolCall>): Trace {
    if calls == [] then []
    else (if Checked(host, calls[0]) then [Admitted(calls[0])] else []) + Admissions(host, calls[1..])
  }

  /** The call is human-gated, or the middlewares object to it after those before it were admitted. */
  ghost predicate StopsScreening(host: Host, t: Trace, calls: seq<ToolCall>, k: nat)
    requires k < |calls|
  {
    || calls[k].name in HUMAN_GATED
    || (Checked(host, calls[k]) && host.before(t + Admissions(host, calls[..k]), calls[k]).Some?)
  }

  ghost predicate IsFit(host: Host, call: ToolCall) {
    call.name == REGISTRY_TOOL || PassesSchema(host, call)
  }

  ghost predicate AllFit(host: Host, calls: seq<ToolCall>) {
    forall call <- calls :: IsFit(host, call)
  }

  /** What `k` calls without objection, and then the one that stops or the end, make of a request. */
  ghost predicate GenericVerdict(host: Host, t: Trace, calls: seq<ToolCall>, invalid: bool, batch: seq<ToolCall>,
                                 k: nat, t': Trace, v: Screening)
  {
    && k <= |calls| && (forall j :: 0 <= j < k ==> !StopsScreening(host, t, calls, j))
    && t' == t + Admissions(host, calls[..k])
    && if k == |calls| then v == if invalid || !AllFit(host, calls) then Rejected else Cleared(batch + calls)
       else
         && StopsScreening(host, t, calls, k)
         && v == if calls[k].name in HUMAN_GATED then Yielded(calls[k])
                 else Refused(host.before(t', calls[k]).value)
  }

  lemma AdmissionsCons(host: Host, t: Trace, calls: seq<ToolCall>, k: nat)
    requires 0 < k <= |calls|
    ensures t + Admissions(host, calls[..k])
         == t + Admissions(host, [calls[0]]) + Admissions(host, calls[1..][..k - 1])
  {
    var head := if Checked(host, calls[0]) then [Admitted(calls[0])] else [];
    assert calls[..k][1..] == calls[1..][..k - 1] && [calls[0]][1..] == [];
    assert Admissions(host, [calls[0]]) == head + Admissions(host, []) == head;
    assert Admissions(host, calls[..k]) == head + Admissions(host, calls[1..][..k - 1]);
    hide Admissions;
    assert t + (head + Admissions(host, calls[1..][..k - 1])) == t + head + Admissions(host, calls[1..][..k - 1]);
  }

  lemma VerdictCons(host: Host, t: Trace, calls: seq<ToolCall>, invalid: bool, batch: seq<ToolCall>,
                    k: nat, t': Trace, v: Screening)
    requires calls != [] && !StopsScreening(host, t, calls, 0)
    requires GenericVerdict(host, t + Admissions(host, [calls[0]]), calls[1..],
                            invalid || !IsFit(host, calls[0]),
                            if IsFit(host, calls[0]) then batch + [calls[0]] else batch, k, t', v)
    ensures GenericVerdict(host, t, calls, invalid, batch, k + 1, t', v)
  {
    var t1, rest := t + Admissions(host, [calls[0]]), calls[1..];
    assert calls == [calls[0]] + rest;
    forall j | 0 < j < |calls|
      ensures StopsScreening(host, t, calls, j) <==> StopsScreening(host, t1, rest, j - 1)
    {
      AdmissionsCons(host, t, calls, j);
    }
    AdmissionsCons(host, t, calls, k + 1);
    hide Admissions, StopsScreening, IsFit;
    assert AllFit(host, calls) <==> IsFit(host, calls[0]) && AllFit(host, rest);
    assert batch + [calls[0]] + rest == batch + calls;
  }

  /** The generic screening: the first call that is human-gated yields to the operator, the first
      veto refuses the request, whichever comes first; otherwise an unfit call rejects the request
      and a fit request is cleared as it stands. */
  lemma {:induction false} ScreenGenericVerdict(host: Host, t: Trace, calls: seq<ToolCall>, invalid: bool,
                                                batch: seq<ToolCall>)
    returns (k: nat)
    ensures var (t', v) := ScreenGeneric(host, t, calls, invalid, batch);
      GenericVerdict(host, t, calls, invalid, batch, k, t', v)
    decreases |calls|
  {
    var (t', v) := ScreenGeneric(host, t, calls, invalid, batch);
    k := 0;
    if calls == [] {
      assert t + [] == t && batch + [] == batch;
    } else {
      var call, rest := calls[0], calls[1..];
      assert calls[..0] == [] && t + [] == t && [call][1..] == [];
      assert Admissions(host, [call]) == (if Checked(host, call) then [Admitted(call)] else []) + [];
      if !StopsScreening(host, t, calls, 0) {
        var t1 := t + Admissions(host, [call]);
        var fit := IsFit(host, call);
        assert t1 == if Checked(host, call) then t + [Admitted(call)] else t;
        var m := ScreenGenericVerdict(host, t1, rest, invalid || !fit, if fit then batch + [call] else batch);
        assert ScreenGeneric(host, t, calls, invalid, batch)
            == ScreenGeneric(host, t1, rest, invalid || !fit, if fit then batch + [call] else batch);
        hide ScreenGeneric, GenericVerdict, StopsScreening, Admissions, IsFit;
        VerdictCons(host, t, calls, invalid, batch, m, t', v);
        k := m + 1;
      }
    }
  }

  function DynamicAdmissions(calls: seq<ToolCall>): Trace {
    if calls == [] then []
    else (if calls[0].name == REGISTRY_TOOL then [] else [Admitted(calls[0])]) + DynamicAdmissions(calls[1..])
  }

  /** The call searches an empty registry, is human-gated, or is vetoed by the middlewares. */
  ghost predicate StopsDynamic(host: Host, t: Trace, calls: seq<ToolCall>, k: nat)
    requires k < |calls| && host.mode.Dynamic?
  {
    if calls[k].name == REGISTRY_TOOL then host.mode.registryEmpty
    else calls[k].name in HUMAN_GATED || host.before(t + DynamicAdmissions(calls[..k]), calls[k]).Some?
  }

  ghost predicate DynamicVerdict(host: Host, t: Trace, calls: seq<ToolCall>, batch: seq<ToolCall>,
                                 k: nat, t': Trace, v: Screening)
    requires host.mode.Dynamic?
  {
    && k <= |calls| && (forall j :: 0 <= j < k ==> !StopsDynamic(host, t, calls, j))
    && t' == t + DynamicAdmissions(calls[..k])
    && if k == |calls| then v == Cleared(batch + NonRegistry(calls))
       else
         && StopsDynamic(host, t, calls, k)
         && v == if calls[k].name == REGISTRY_TOOL then Refused(ToolError("tool registry is empty"))
                 else if calls[k].name in HUMAN_GATED then Yielded(calls[k])
                 else Refused(host.before(t', calls[k]).value)
  }

  lemma DynamicAdmissionsCons(t: Trace, calls: seq<ToolCall>, k: nat)
    requires 0 < k <= |calls|
    ensures t + DynamicAdmissions(calls[..k])
         == t + DynamicAdmissions([calls[0]]) + DynamicAdmissions(calls[1..][..k - 1])
  {
    var head := if calls[0].name == REGISTRY_TOOL then [] else [Admitted(calls[0])];
    assert calls[..k][1..] == calls[1..][..k - 1] && [calls[0]][1..] == [];
    assert DynamicAdmissions([calls[0]]) == head + DynamicAdmissions([]) == head;
    assert DynamicAdmissions(calls[..k]) == head + DynamicAdmissions(calls[1..][..k - 1]);
    hide DynamicAdmissions;
    assert t + (head + DynamicAdmissions(calls[1..][..k - 1])) == t + head + DynamicAdmissions(calls[1..][..k - 1]);
  }

  lemma DynamicCons(host: Host, t: Trace, calls: seq<ToolCall>, batch: seq<ToolCall>, k: nat, t': Trace, v: Screening)
    requires host.mode.Dynamic? && calls != [] && !StopsDynamic(host, t, calls, 0)
    requires DynamicVerdict(host, t + DynamicAdmissions([calls[0]]), calls[1..],
                            if calls[0].name == REGISTRY_TOOL then batch else batch + [calls[0]], k, t', v)
    ensures DynamicVerdict(host, t, calls, batch, k + 1, t', v)
  {
    var t1, rest := t + DynamicAdmissions([calls[0]]), calls[1..];
    forall j | 0 < j < |calls|
      ensures StopsDynamic(host, t, calls, j) <==> StopsDynamic(host, t1, rest, j - 1)
    {
      DynamicAdmissionsCons(t, calls, j);
    }
    DynamicAdmissionsCons(t, calls, k + 1);
    hide DynamicAdmissions, StopsDynamic;
    assert batch + [calls[0]] + NonRegistry(rest) == batch + ([calls[0]] + NonRegistry(rest));
    assert batch + NonRegistry(rest) == batch + ([] + NonRegistry(rest));
  }

  /** The dynamic screening: the first call that searches an empty registry or is vetoed refuses
      the request, the first human-gated one yields; otherwise all but the searches are cleared. */
  lemma {:induction false} ScreenDynamicVerdict(host: Host, t: Trace, calls: seq<ToolCall>, batch: seq<ToolCall>)
    returns (k: nat)
    requires host.mode.Dynamic?
    ensures var (t', v) := ScreenDynamic(host, t, calls, batch);
      DynamicVerdict(host, t, calls, batch, k, t', v)
    decreases |calls|
  {
    var (t', v) := ScreenDynamic(host, t, calls, batch);
    k := 0;
    if calls == [] {
      assert t + [] == t && batch + [] == batch;
    } else {
      var call, rest := calls[0], calls[1..];
      assert calls[..0] == [] && t + [] == t && [call][1..] == [];
      assert DynamicAdmissions([call]) == (if call.name == REGISTRY_TOOL then [] else [Admitted(call)]) + [];
      if !StopsDynamic(host, t, calls, 0) {
        var t1 := t + DynamicAdmissions([call]);
        var batch' := if call.name == REGISTRY_TOOL then batch else batch + [call];
        assert t1 == if call.name == REGISTRY_TOOL then t else t + [Admitted(call)];
        var m := ScreenDynamicVerdict(host, t1, rest, batch');
        assert ScreenDynamic(host, t, calls, batch) == ScreenDynamic(host, t1, rest, batch') by {
          assert REGISTRY_TOOL !in HUMAN_GATED;
        }
        hide ScreenDynamic, DynamicVerdict, StopsDynamic, DynamicAdmissions;
        DynamicCons(host, t, calls, batch, m, t', v);
        k := m + 1;
      }
    }
  }

  // ----- executing -----

  /** A serial batch goes on as long as no command is pending: an abort fails it, a pivot drops it
      without results, and otherwise it gives all results. */
  ghost predicate SerialVerdict(host: Host, t: Trace, batch: seq<ToolCall>, done: Resolved, ran: Resolved,
                                t': Trace, r: Result<Resolved, OrchestratorError>)
  {
    && |ran| <= |batch| && CallsOf(ran) == batch[..|ran|]
    && (forall k :: 0 <= k < |ran| ==> host.steering(t + Executions(ran[..k])) == None)
    && if |ran| == |batch| then t' == t + Executions(ran) && r == Success(done + ran)
       else
         match host.steering(t + Executions(ran))
         case None => false
         case Some(Abort) => t' == t + Executions(ran) && r == Failure(UserAborted)
         case Some(Pivot) => t' == t + Executions(ran) + [Pivoted] && r == Success([])
  }

  lemma ExecutionsCons(t: Trace, call: ToolCall, result: Reply, rest: Resolved, k: nat)
    requires k <= |rest|
    ensures t + Executions(([(call, result)] + rest)[..k + 1]) == t + [Executed(call, result)] + Executions(rest[..k])
  {
    assert ([(call, result)] + rest)[..k + 1] == [(call, result)] + rest[..k];
    ResultsCons(t, [], call, result, rest[..k]);
  }

  lemma SerialCons(host: Host, t: Trace, batch: seq<ToolCall>, done: Resolved, rest: Resolved,
                   t': Trace, r: Result<Resolved, OrchestratorError>)
    requires batch != [] && host.steering(t) == None
    requires var result := host.execute(t, batch[0]);
      SerialVerdict(host, t + [Executed(batch[0], result)], batch[1..], done + [(batch[0], result)], rest, t', r)
    ensures SerialVerdict(host, t, batch, done, [(batch[0], host.execute(t, batch[0]))] + rest, t', r)
  {
    var result := host.execute(t, batch[0]);
    var ran := [(batch[0], result)] + rest;
    ResultsCons(t, done, batch[0], result, rest);
    assert ran[..|rest| + 1] == ran && rest[..|rest|] == rest;
    assert batch == [batch[0]] + batch[1..];
    assert batch[..|ran|] == [batch[0]] + batch[1..][..|rest|];
    hide Executions, CallsOf;
    forall k | 0 <= k < |ran| ensures host.steering(t + Executions(ran[..k])) == None {
      if k == 0 {
        assert ran[..0] == [] && t + Executions([]) == t by { NoExecutions(t); }
      } else {
        ExecutionsCons(t, batch[0], result, rest, k - 1);
      }
    }
  }

  lemma NoExecutions(t: Trace)
    ensures t + Executions([]) == t && CallsOf([]) == []
  {
  }

  lemma {:induction false} SerialIsVerdict(host: Host, t: Trace, batch: seq<ToolCall>, done: Resolved)
    returns (ran: Resolved)
    ensures var (t', r) := ExecuteSerial(host, t, batch, done);
      SerialVerdict(host, t, batch, done, ran, t', r)
    decreases |batch|
  {
    var (t', r) := ExecuteSerial(host, t, batch, done);
    ran := [];
    NoExecutions(t);
    assert batch[..0] == [] && done + [] == done;
    if batch != [] && host.steering(t).None? {
      var result := host.execute(t, batch[0]);
      var rest := SerialIsVerdict(host, t + [Executed(batch[0], result)], batch[1..], done + [(batch[0], result)]);
      hide Executions, CallsOf, SerialVerdict;
      SerialCons(host, t, batch, done, rest, t', r);
      ran := [(batch[0], result)] + rest;
    } else if batch != [] {
      match host.steering(t).value {
        case Abort =>
        case Pivot =>
      }
    }
  }

  /** The record of a parallel batch that is cut off: the calls under way are discarded. */
  function Discards(batch: seq<ToolCall>): (t: Trace)
    ensures |t| == |batch| && forall k :: 0 <= k < |batch| ==> t[k] == Discarded(batch[k])
  {
    if batch == [] then [] else [Discarded(batch[0])] + Discards(batch[1..])
  }

  lemma {:induction false} DiscardAllAdds(t: Trace, batch: seq<ToolCall>)
    ensures DiscardAll(t, batch) == t + Discards(batch)
    decreases |batch|
  {
    if batch == [] {
      assert t + [] == t;
    } else {
      DiscardAllAdds(t + [Discarded(batch[0])], batch[1..]);
      Associate(t, [Discarded(batch[0])], Discards(batch[1..]));
    }
  }

  /** What becomes of a batch: a serial one stops at the first pending command; a parallel one
      gives all results unless interrupted. An interruption discards the calls if they have
      started, and fails the batch unless it is a pivot. */
  lemma ExecuteVerdict(host: Host, t: Trace, batch: seq<ToolCall>) returns (ran: Resolved)
    ensures var t1 := t + [BatchStarted(batch)];
      var (t', r) := Execute(host, t, batch);
      if !RunsInParallel(host, batch) then SerialVerdict(host, t1, batch, [], ran, t', r)
      else
        match host.interrupt(t1)
        case None => CallsOf(ran) == batch && t' == t1 + Executions(ran) && r == Success(ran)
        case Some(i) =>
          var dropped := if i.started then Discards(batch) else [];
          if i.Steered? && i.cmd.Pivot? then t' == t1 + dropped + [Pivoted] && r == Success([])
          else t' == t1 + dropped && r == Failure(UserAborted)
  {
    hide ExecuteSerial, ExecuteParallel, DiscardAll, Discards, SerialVerdict, Executions, CallsOf, RunsInParallel;
    var t1 := t + [BatchStarted(batch)];
    if RunsInParallel(host, batch) {
      ran := ParallelResults(host, t1, batch, []);
      assert [] + ran == ran && t1 + [] == t1;
      DiscardAllAdds(t1, batch);
    } else {
      ran := SerialIsVerdict(host, t1, batch, []);
    }
  }

  // ----- absorbing -----

  predicate IsDemand(result: Reply) {
    result.Failure? && result.error.ToolError? && APPROVAL_REQUIRED_PREFIX <= result.error.message
  }

  /** The execution failed otherwise than by a tool error. */
  predicate IsHardFailure(result: Reply) {
    result.Failure? && !result.error.ToolError?
  }

  ghost predicate StopsAbsorbing(host: Host, t: Trace, results: Resolved, k: nat)
    requires k < |results|
  {
    var (call, result) := results[k];
    IsDemand(result) || IsHardFailure(result) || host.after(t + Recordings(results[..k]), call).Some?
  }

  /** Absorption stops at the first result that demands approval, is a hard failure, or is vetoed
      by the middlewares; otherwise it gives the outputs of all. */
  ghost predicate AbsorbVerdict(host: Host, t: Trace, results: Resolved, executed: seq<(string, string)>, k: nat,
                                t': Trace, a: Absorption)
  {
    && k <= |results| && (forall j :: 0 <= j < k ==> !StopsAbsorbing(host, t, results, j))
    && t' == t + Recordings(results[..k])
    && if k == |results| then a == Absorbed(executed + Outputs(results))
       else
         var (call, result) := results[k];
         && StopsAbsorbing(host, t, results, k)
         && a == if IsDemand(result) then Stop(Success(ToolApprovalRequired(call)))
                 else if IsHardFailure(result) then Stop(Failure(result.error))
                 else Stop(Failure(host.after(t', call).value))
  }

  /** Each output is the tool's text, or its failure in words. */
  lemma {:induction false} OutputsTell(results: Resolved, k: nat)
    requires k < |results|
    ensures var (call, result) := results[k];
      Outputs(results)[k] == (call.name, match result
                                         case Success(text) => text
                                         case Failure(ToolError(m)) => "Tool '" + call.name + "' failed: " + m
                                         case Failure(_) => "")
  {
    if k > 0 {
      OutputsTell(results[1..], k - 1);
    }
  }

  lemma RecordingsCons(t: Trace, results: Resolved, k: nat)
    requires 0 < k <= |results|
    ensures t + Recordings(results[..k]) == t + [Recorded(results[0].0)] + Recordings(results[1..][..k - 1])
  {
    assert results[..k][1..] == results[1..][..k - 1];
    assert Recordings(results[..k]) == [Recorded(results[0].0)] + Recordings(results[1..][..k - 1]);
  }

  lemma StopsLikewise(host: Host, t: Trace, results: Resolved, j: nat)
    requires 0 < j < |results|
    ensures StopsAbsorbing(host, t, results, j)
       <==> StopsAbsorbing(host, t + [Recorded(results[0].0)], results[1..], j - 1)
  {
    RecordingsCons(t, results, j);
    hide Recordings, IsDemand, IsHardFailure;
  }

  lemma AbsorbVerdictCons(host: Host, t: Trace, results: Resolved, executed: seq<(string, string)>, k: nat,
                          t': Trace, a: Absorption)
    requires results != [] && !StopsAbsorbing(host, t, results, 0)
    requires var (call, result) := results[0];
      AbsorbVerdict(host, t + [Recorded(call)], results[1..], executed + [(call.name, OutputOf(call, result))], k,
                    t', a)
    ensures AbsorbVerdict(host, t, results, executed, k + 1, t', a)
  {
    hide Recordings, Outputs, OutputOf, IsDemand, IsHardFailure, StopsAbsorbing;
    var t1, rest := t + [Recorded(results[0].0)], results[1..];
    forall j | 0 < j < |results|
      ensures StopsAbsorbing(host, t, results, j) <==> StopsAbsorbing(host, t1, rest, j - 1)
    {
      StopsLikewise(host, t, results, j);
    }
    RecordingsCons(t, results, k + 1);
    AbsorbCons(t, results, executed);
  }

  lemma {:induction false} AbsorbIsVerdict(host: Host, t: Trace, results: Resolved, executed: seq<(string, string)>)
    returns (k: nat)
    ensures var (t', a) := Absorb(host, t, results, executed);
      AbsorbVerdict(host, t, results, executed, k, t', a)
    decreases |results|
  {
    var (t', a) := Absorb(host, t, results, executed);
    k := 0;
    if results == [] {
      assert t + Recordings([]) == t && executed + Outputs([]) == executed;
    } else {
      var (call, result) := results[0];
      var output := OutputOf(call, result);
      assert results[..0] == [] && t + Recordings([]) == t;
      if !StopsAbsorbing(host, t, results, 0) {
        assert Absorb(host, t, results, executed) == Keep(host, t, results, executed, output)
            == Absorb(host, t + [Recorded(call)], results[1..], executed + [(call.name, output)]);
        var m := AbsorbIsVerdict(host, t + [Recorded(call)], results[1..], executed + [(call.name, output)]);
        hide Absorb, Keep, AbsorbVerdict, StopsAbsorbing, Recordings, Outputs;
        AbsorbVerdictCons(host, t, results, executed, m, t', a);
        k := m + 1;
      }
    }
  }

  // ----- the words of scheduling tools -----

  lemma {:induction false} OutputsAdd(host: Host, a: seq<(string, string)>, b: seq<(string, string)>)
    ensures NonEmptyOutputs(host, a + b) == NonEmptyOutputs(host, a) + NonEmptyOutputs(host, b)
  {
    if a == [] {
      assert a + b == b && [] + NonEmptyOutputs(host, b) == NonEmptyOutputs(host, b);
    } else {
      assert (a + b)[1..] == a[1..] + b;
      OutputsAdd(host, a[1..], b);
    }
  }

  lemma {:induction false} LinesAdd(a: seq<string>, line: string)
    ensures JoinLines(a + [line]) == if a == [] then line else JoinLines(a) + "\n" + line
  {
    if |a| == 1 {
      assert (a + [line])[1..] == [line];
    } else if a != [] {
      assert (a + [line])[1..] == a[1..] + [line];
      LinesAdd(a[1..], line);
    }
  }

  /** The final words: none if the batch is empty or holds another tool. Otherwise each output, in
      order and trimmed, is one more line unless it is empty, and no line at all is replaced by
      a fixed sentence. */
  lemma FinalWords(host: Host, executed: seq<(string, string)>, name: string, output: string)
    ensures MaybeFinalize(host, []) == None
    ensures var before, after := NonEmptyOutputs(host, executed), NonEmptyOutputs(host, executed + [(name, output)]);
      && after == (if host.trim(output) == "" then before else before + [host.trim(output)])
      && JoinLines(after) == (if host.trim(output) == "" then JoinLines(before)
                              else if before == [] then host.trim(output)
                              else JoinLines(before) + "\n" + host.trim(output))
      && MaybeFinalize(host, executed + [(name, output)])
         == (if name !in SCHEDULER_TOOLS || (executed != [] && MaybeFinalize(host, executed) == None) then None
             else if JoinLines(after) == "" then Some("Scheduling updated.") else Some(JoinLines(after)))
  {
    var before := NonEmptyOutputs(host, executed);
    LineAdds(host, executed, name, output);
    LinesAdd(before, host.trim(output));
    hide NonEmptyOutputs, JoinLines;
    AllScheduling(executed, name, output);
  }

  lemma LineAdds(host: Host, executed: seq<(string, string)>, name: string, output: string)
    ensures NonEmptyOutputs(host, executed + [(name, output)])
         == NonEmptyOutputs(host, executed) + if host.trim(output) == "" then [] else [host.trim(output)]
  {
    var last := [(name, output)];
    OutputsAdd(host, executed, last);
    assert last[1..] == [];
    assert NonEmptyOutputs(host, last) == (if host.trim(output) == "" then [] else [host.trim(output)]) + [];
  }

  lemma AllScheduling(executed: seq<(string, string)>, name: string, output: string)
    ensures var longer := executed + [(name, output)];
      (forall i :: 0 <= i < |longer| ==> longer[i].0 in SCHEDULER_TOOLS)
      <==> name in SCHEDULER_TOOLS && forall i :: 0 <= i < |executed| ==> executed[i].0 in SCHEDULER_TOOLS
  {
    var longer := executed + [(name, output)];
    assert longer[|executed|] == (name, output);
    assert forall i :: 0 <= i < |executed| ==> longer[i] == executed[i];
  }
}
