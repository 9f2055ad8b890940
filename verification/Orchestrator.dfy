/** The tool loop of the agent orchestrator.

    The loop talks to an adversary: the language model, the executor, the
    middlewares, the human operator and the emergency stop may answer anything.
    They are functions of the trace, the record of everything that has happened so far;
    prompts are determined by the trace and do not appear.

    `Step` is a flat state machine. `ProcessToolCalls` and `RunLoop` are the program: an outer
    loop around a routine that calls itself for follow-ups, all sharing one round counter. They
    are proved to compute what the machine computes. */
module Orchestrator {
  import opened Common

  const CONTINUE_LOOP := "CONTINUE_LOOP"
  const APPROVAL_REQUIRED_PREFIX := "APPROVAL_REQUIRED::"
  const REGISTRY_TOOL := "search_tool_registry"
  const HUMAN_GATED := {"run_shell", "write_file"}
  const SCHEDULER_TOOLS := {"schedule_message", "set_reminder", "manage_cron"}
  const SERIAL_TOOLS := {
    "write_file", "run_shell", "manage_cron", "schedule_message", "set_reminder", "grant_access",
    "manage_prompts", "spawn_agent", "cancel_agent_run", "retry_agent_run", "scaffold_skill",
    "install_skill_from_dir", "export_skill_manifest", "export_signed_skill_manifest",
    "install_signed_skill_from_dir", "install_skill", "bind_skill", "activate_skill",
    "execute_skill", "register_mcp_server", "import_mcp_tool", "import_mcp_prompt",
    "import_mcp_resource", "bind_mcp_import", "invoke_mcp_tool", "render_mcp_prompt",
    "read_mcp_resource"
  }

  datatype ToolCall = ToolCall(name: string, arguments: string)

  datatype LLMResponse = TextAnswer(answer: string) | ToolCalls(calls: seq<ToolCall>)

  datatype OrchestratorResult = Completed(text: string) | ToolApprovalRequired(call: ToolCall)

  type Outcome = Result<OrchestratorResult, OrchestratorError>

  type Reply = Result<string, OrchestratorError>

  type Resolved = seq<(ToolCall, Reply)>

  datatype SteeringCommand = Pivot | Abort

  /** What wins against a parallel batch; `ChannelClosed` is a steering channel without senders. */
  datatype Interrupt = Steered(cmd: SteeringCommand, started: bool) | ChannelClosed(started: bool)

  /** Outcome of checking the arguments of a call against the schema of its tool. */
  datatype Verdict = Valid | NotCheckable | SchemaInvalid | ArgumentsNotJson | ArgumentsViolateSchema

  datatype Phase = Initial | FollowUp

  datatype Event =
    | Pivoted
    | Decision(phase: Phase, reply: Result<LLMResponse, OrchestratorError>)
    | RoundStarted
    | Admitted(call: ToolCall)
    | BatchStarted(batch: seq<ToolCall>)
    | Executed(call: ToolCall, result: Reply)
    | Discarded(call: ToolCall)
    | Recorded(call: ToolCall)
    | Corrected

  type Trace = seq<Event>

  datatype Mode =
    | Generic
    | Dynamic(obligationApplies: bool, registryEmpty: bool)

  datatype Host = Host(
    mode: Mode,
    maxToolRounds: nat,
    tools: seq<CachedTool>,
    allowParallel: bool,
    repairPermitted: bool,
    validate: (CachedTool, string) -> Verdict,
    repair: string -> Option<ToolCall>,
    namesTool: string -> bool,
    trim: string -> string,
    estop: Trace -> bool,
    steering: Trace -> Option<SteeringCommand>,
    interrupt: Trace -> Option<Interrupt>,
    decide: Trace -> Result<LLMResponse, OrchestratorError>,
    execute: (Trace, ToolCall) -> Reply,
    before: (Trace, ToolCall) -> Option<OrchestratorError>,
    after: (Trace, ToolCall) -> Option<OrchestratorError>)

  // ----- screening a batch before anything runs -----

  function FindTool(tools: seq<CachedTool>, name: string): Option<CachedTool> {
    if tools == [] then None
    else if tools[0].name == name then Some(tools[0])
    else FindTool(tools[1..], name)
  }

  /** A known tool whose arguments were not found to violate its schema. */
  predicate PassesSchema(host: Host, call: ToolCall) {
    match FindTool(host.tools, call.name)
    case None => false
    case Some(tool) => host.validate(tool, call.arguments) in {Valid, NotCheckable}
  }

  datatype Screening =
    | Yielded(call: ToolCall)
    | Refused(error: OrchestratorError)
    | Rejected
    | Cleared(batch: seq<ToolCall>)

  function ScreenGeneric(host: Host, t: Trace, calls: seq<ToolCall>, invalid: bool, batch: seq<ToolCall>)
    : (r: (Trace, Screening))
    decreases |calls|
  {
    if calls == [] then (t, if invalid then Rejected else Cleared(batch))
    else
      var call := calls[0];
      if call.name in HUMAN_GATED then (t, Yielded(call))
      else if call.name == REGISTRY_TOOL then
        ScreenGeneric(host, t, calls[1..], invalid, batch + [call])
      else if !PassesSchema(host, call) then
        ScreenGeneric(host, t, calls[1..], true, batch)
      else
        match host.before(t, call)
        case Some(e) => (t, Refused(e))
        case None => ScreenGeneric(host, t + [Admitted(call)], calls[1..], invalid, batch + [call])
  }

  function ScreenDynamic(host: Host, t: Trace, calls: seq<ToolCall>, batch: seq<ToolCall>)
    : (r: (Trace, Screening))
    requires host.mode.Dynamic?
    ensures !r.1.Rejected?
    decreases |calls|
  {
    if calls == [] then (t, Cleared(batch))
    else
      var call := calls[0];
      if call.name == REGISTRY_TOOL then
        if host.mode.registryEmpty then (t, Refused(ToolError("tool registry is empty")))
        else ScreenDynamic(host, t, calls[1..], batch)
      else if call.name in HUMAN_GATED then (t, Yielded(call))
      else
        match host.before(t, call)
        case Some(e) => (t, Refused(e))
        case None => ScreenDynamic(host, t + [Admitted(call)], calls[1..], batch + [call])
  }

  function Screen(host: Host, t: Trace, calls: seq<ToolCall>): (Trace, Screening) {
    if host.mode.Generic? then ScreenGeneric(host, t, calls, false, [])
    else ScreenDynamic(host, t, calls, [])
  }

  // ----- executing a batch -----

  predicate ParallelSafe(host: Host, call: ToolCall) {
    call.name !in SERIAL_TOOLS
    && match FindTool(host.tools, call.name)
       case None => true
       case Some(tool) => tool.parallelSafe
  }

  predicate RunsInParallel(host: Host, batch: seq<ToolCall>) {
    host.allowParallel && forall i :: 0 <= i < |batch| ==> ParallelSafe(host, batch[i])
  }

  function ExecuteParallel(host: Host, t: Trace, batch: seq<ToolCall>, done: Resolved): (Trace, Resolved)
    decreases |batch|
  {
    if batch == [] then (t, done)
    else
      var result := host.execute(t, batch[0]);
      ExecuteParallel(host, t + [Executed(batch[0], result)], batch[1..], done + [(batch[0], result)])
  }

  function DiscardAll(t: Trace, batch: seq<ToolCall>): Trace
    decreases |batch|
  {
    if batch == [] then t else DiscardAll(t + [Discarded(batch[0])], batch[1..])
  }

  function ExecuteSerial(host: Host, t: Trace, batch: seq<ToolCall>, done: Resolved)
    : (Trace, Result<Resolved, OrchestratorError>)
    decreases |batch|
  {
    if batch == [] then (t, Success(done))
    else
      match host.steering(t)
      case Some(Abort) => (t, Failure(UserAborted))
      case Some(Pivot) => (t + [Pivoted], Success([]))
      case None =>
        var result := host.execute(t, batch[0]);
        ExecuteSerial(host, t + [Executed(batch[0], result)], batch[1..], done + [(batch[0], result)])
  }

  function Execute(host: Host, t: Trace, batch: seq<ToolCall>)
    : (Trace, Result<Resolved, OrchestratorError>)
  {
    var t1 := t + [BatchStarted(batch)];
    if RunsInParallel(host, batch) then
      match host.interrupt(t1)
      case None =>
        var (t2, done) := ExecuteParallel(host, t1, batch, []);
        (t2, Success(done))
      case Some(i) =>
        var t2 := if i.started then DiscardAll(t1, batch) else t1;
        if i == Steered(Pivot, i.started) then (t2 + [Pivoted], Success([]))
        else (t2, Failure(UserAborted))
    else
      ExecuteSerial(host, t1, batch, [])
  }

  // ----- absorbing the results -----

  function FailureText(call: ToolCall, message: string): string {
    "Tool '" + call.name + "' failed: " + message
  }

  datatype Absorption = Stop(outcome: Outcome) | Absorbed(executed: seq<(string, string)>)

  function Absorb(host: Host, t: Trace, results: Resolved, executed: seq<(string, string)>): (Trace, Absorption)
    decreases |results|
  {
    if results == [] then (t, Absorbed(executed))
    else
      var (call, result) := results[0];
      match result
      case Failure(ToolError(message)) =>
        if APPROVAL_REQUIRED_PREFIX <= message then (t, Stop(Success(ToolApprovalRequired(call))))
        else Keep(host, t, results, executed, FailureText(call, message))
      case Failure(e) => (t, Stop(Failure(e)))
      case Success(output) => Keep(host, t, results, executed, output)
  }

  function Keep(host: Host, t: Trace, results: Resolved, executed: seq<(string, string)>, output: string)
    : (Trace, Absorption)
    requires results != []
    decreases |results|, 0
  {
    var call := results[0].0;
    match host.after(t, call)
    case Some(e) => (t, Stop(Failure(e)))
    case None => Absorb(host, t + [Recorded(call)], results[1..], executed + [(call.name, output)])
  }

  function JoinLines(lines: seq<string>): string {
    if lines == [] then ""
    else if |lines| == 1 then lines[0]
    else lines[0] + "\n" + JoinLines(lines[1..])
  }

  function NonEmptyOutputs(host: Host, executed: seq<(string, string)>): seq<string> {
    if executed == [] then []
    else
      var line := host.trim(executed[0].1);
      (if line == "" then [] else [line]) + NonEmptyOutputs(host, executed[1..])
  }

  /** A batch made of scheduling tools only ends the run with the tools' own words. */
  function MaybeFinalize(host: Host, executed: seq<(string, string)>): Option<string> {
    if executed == [] || exists i :: 0 <= i < |executed| && executed[i].0 !in SCHEDULER_TOOLS then None
    else
      var merged := JoinLines(NonEmptyOutputs(host, executed));
      Some(if merged == "" then "Scheduling updated." else merged)
  }

  // ----- the state machine -----

  datatype Control =
    | Ask
    | Handle(calls: seq<ToolCall>)
    | Done(outcome: Outcome)

  datatype State = State(control: Control, rounds: nat, obligated: bool, trace: Trace)

  /** How the outer loop reads what the call-processing routine returns. */
  function Deliver(r: Outcome): Control {
    if r == Success(Completed(CONTINUE_LOOP)) then Ask else Done(r)
  }

  /** Consumes a round and goes back to the model with a corrective prompt. */
  function CorrectAndAsk(host: Host, s: State, obligated: bool): State {
    if s.rounds + 1 > host.maxToolRounds then
      s.(control := Done(Failure(MaxRoundsExceeded(host.maxToolRounds))), rounds := s.rounds + 1)
    else
      State(Ask, s.rounds + 1, obligated, s.trace + [RoundStarted, Corrected])
  }

  function OnText(host: Host, s: State, answer: string): State {
    if host.repairPermitted && host.repair(answer).Some? then
      s.(control := Handle([host.repair(answer).value]))
    else if host.namesTool(answer) then
      CorrectAndAsk(host, s, s.obligated)
    else if host.repairPermitted && host.mode.Dynamic? && host.mode.obligationApplies && !s.obligated then
      CorrectAndAsk(host, s, true)
    else
      s.(control := Done(Success(Completed(answer))))
  }

  function StepAsk(host: Host, s: State): State {
    if host.estop(s.trace) then s.(control := Done(Failure(UserAborted)))
    else if host.steering(s.trace) == Some(Abort) then s.(control := Done(Failure(UserAborted)))
    else
      var t1 := if host.steering(s.trace) == Some(Pivot) then s.trace + [Pivoted] else s.trace;
      var reply := host.decide(t1);
      var s1 := s.(trace := t1 + [Decision(Initial, reply)]);
      match reply
      case Failure(e) => s1.(control := Done(Failure(e)))
      case Success(ToolCalls(calls)) => s1.(control := Handle(calls))
      case Success(TextAnswer(answer)) => OnText(host, s1, answer)
  }

  /** The follow-up decision, taken only when some call of the batch has run. */
  function StepFollowUp(host: Host, s: State): State {
    var reply := host.decide(s.trace);
    var s1 := s.(trace := s.trace + [Decision(FollowUp, reply)]);
    match reply
    case Failure(e) => s1.(control := Done(Failure(e)))
    case Success(TextAnswer(answer)) =>
      if host.repairPermitted && host.repair(answer).Some? then
        s1.(control := Handle([host.repair(answer).value]))
      else s1.(control := Deliver(Success(Completed(answer))))
    case Success(ToolCalls(next)) =>
      s1.(control := if next == [] then Ask else Handle(next))
  }

  /** What follows a batch whose results came back. */
  function StepResults(host: Host, s: State, results: Resolved): State {
    var (t, absorbed) := Absorb(host, s.trace, results, []);
    match absorbed
    case Stop(outcome) => s.(control := Deliver(outcome), trace := t)
    case Absorbed(executed) =>
      match MaybeFinalize(host, executed)
      case Some(text) => s.(control := Deliver(Success(Completed(text))), trace := t)
      case None => StepFollowUp(host, s.(trace := t))
  }

  function StepBatch(host: Host, s: State, batch: seq<ToolCall>): State {
    if batch == [] then State(Ask, s.rounds, s.obligated, s.trace + [Corrected])
    else
      var (t, resolved) := Execute(host, s.trace, batch);
      match resolved
      case Failure(e) => s.(control := Done(Failure(e)), trace := t)
      case Success(results) =>
        if results == [] then s.(control := Done(Success(Completed(""))), trace := t)
        else StepResults(host, s.(trace := t), results)
  }

  function StepScreened(host: Host, s: State, verdict: Screening): State {
    match verdict
    case Yielded(call) => s.(control := Done(Success(ToolApprovalRequired(call))))
    case Refused(e) => s.(control := Done(Failure(e)))
    case Rejected => State(Ask, s.rounds, s.obligated, s.trace + [Corrected])
    case Cleared(batch) => StepBatch(host, s, batch)
  }

  function StepHandle(host: Host, s: State, calls: seq<ToolCall>): State {
    if host.mode.Dynamic? && host.estop(s.trace) then s.(control := Done(Failure(UserAborted)))
    else if calls == [] then s.(control := Done(Success(Completed(""))))
    else if s.rounds + 1 > host.maxToolRounds then
      s.(control := Done(Failure(MaxRoundsExceeded(host.maxToolRounds))), rounds := s.rounds + 1)
    else
      var (t1, verdict) := Screen(host, s.trace + [RoundStarted], calls);
      StepScreened(host, s.(rounds := s.rounds + 1, trace := t1), verdict)
  }

  /** The termination measure that spans the outer loop and the follow-ups. */
  function Fuel(host: Host, s: State): nat {
    2 * (if s.rounds > host.maxToolRounds then 0 else host.maxToolRounds + 1 - s.rounds)
    + (if s.control.Ask? then 1 else 0)
  }

  function Step(host: Host, s: State): (r: State)
    requires !s.control.Done?
    ensures r.control.Done? || Fuel(host, r) < Fuel(host, s)
  {
    match s.control
    case Ask => StepAsk(host, s)
    case Handle(calls) => StepHandle(host, s, calls)
  }

  /** The state in which the machine stops; every run stops. */
  function RunFrom(host: Host, s: State): (r: State)
    ensures r.control.Done?
    decreases Fuel(host, s), if s.control.Done? then 0 else 1
  {
    if s.control.Done? then s else RunFrom(host, Step(host, s))
  }

  const START := State(Ask, 0, false, [])

  function Run(host: Host): (r: State)
    ensures r.control.Done?
  {
    RunFrom(host, START)
  }

  // ----- the program -----

  class ToolLoopProgress {
    const host: Host
    var rounds: nat
    var obligated: bool
    var trace: Trace

    constructor (host: Host)
      ensures this.host == host
      ensures Snapshot(Ask) == START
    {
      this.host := host;
      rounds, obligated, trace := 0, false, [];
    }

    ghost function Snapshot(control: Control): State
      reads this
    {
      State(control, rounds, obligated, trace)
    }

    method AdvanceRound() returns (ok: bool)
      modifies this`rounds, this`trace
      ensures rounds == old(rounds) + 1
      ensures ok == (rounds <= host.maxToolRounds)
      ensures trace == if ok then old(trace) + [RoundStarted] else old(trace)
    {
      rounds := rounds + 1;
      ok := rounds <= host.maxToolRounds;
      if ok {
        trace := trace + [RoundStarted];
      }
    }

    method ExecuteToolCalls(calls: seq<ToolCall>) returns (r: Result<Resolved, OrchestratorError>)
      modifies this`trace
      ensures (trace, r) == Execute(host, old(trace), calls)
    {
      trace := trace + [BatchStarted(calls)];
      ghost var t1 := trace;
      if RunsInParallel(host, calls) {
        var interruption := host.interrupt(trace);
        if interruption.None? {
          var done: Resolved := [];
          for k := 0 to |calls|
            invariant ExecuteParallel(host, t1, calls, []) == ExecuteParallel(host, trace, calls[k..], done)
          {
            var result := host.execute(trace, calls[k]);
            trace, done := trace + [Executed(calls[k], result)], done + [(calls[k], result)];
            assert calls[k..][1..] == calls[k + 1..];
          }
          return Success(done);
        }
        if interruption.value.started {
          for k := 0 to |calls|
            invariant DiscardAll(t1, calls) == DiscardAll(trace, calls[k..])
          {
            trace := trace + [Discarded(calls[k])];
            assert calls[k..][1..] == calls[k + 1..];
          }
        }
        if interruption.value.Steered? && interruption.value.cmd.Pivot? {
          trace := trace + [Pivoted];
          return Success([]);
        }
        return Failure(UserAborted);
      }
      var outputs: Resolved := [];
      for k := 0 to |calls|
        invariant ExecuteSerial(host, t1, calls, []) == ExecuteSerial(host, trace, calls[k..], outputs)
      {
        match host.steering(trace) {
          case Some(Abort) => return Failure(UserAborted);
          case Some(Pivot) =>
            trace := trace + [Pivoted];
            return Success([]);
          case None =>
        }
        var result := host.execute(trace, calls[k]);
        trace, outputs := trace + [Executed(calls[k], result)], outputs + [(calls[k], result)];
        assert calls[k..][1..] == calls[k + 1..];
      }
      return Success(outputs);
    }

    /** Feeds the results of a batch back; `None` means that a follow-up is due. */
    method AbsorbResults(results: Resolved) returns (stop: Option<Outcome>)
      modifies this`trace
      ensures var (t, absorbed) := Absorb(host, old(trace), results, []);
        trace == t
        && match absorbed
           case Stop(outcome) => stop == Some(outcome)
           case Absorbed(executed) =>
             stop == match MaybeFinalize(host, executed)
                     case None => None
                     case Some(text) => Some(Success(Completed(text)))
    {
      var executed: seq<(string, string)> := [];
      ghost var t0 := trace;
      for k := 0 to |results|
        invariant Absorb(host, t0, results, []) == Absorb(host, trace, results[k..], executed)
      {
        var (call, result) := results[k];
        assert results[k..][0] == results[k] && results[k..][1..] == results[k + 1..];
        var output: string;
        match result {
          case Success(text) => output := text;
          case Failure(ToolError(message)) =>
            if APPROVAL_REQUIRED_PREFIX <= message {
              return Some(Success(ToolApprovalRequired(call)));
            }
            output := FailureText(call, message);
          case Failure(e) => return Some(Failure(e));
        }
        var vetoed := host.after(trace, call);
        if vetoed.Some? {
          return Some(Failure(vetoed.value));
        }
        trace, executed := trace + [Recorded(call)], executed + [(call.name, output)];
      }
      assert results[|results|..] == [];
      var text := MaybeFinalize(host, executed);
      stop := if text.None? then None else Some(Success(Completed(text.value)));
    }

    method AskModel(phase: Phase) returns (reply: Result<LLMResponse, OrchestratorError>)
      modifies this`trace
      ensures reply == host.decide(old(trace))
      ensures trace == old(trace) + [Decision(phase, reply)]
    {
      reply := host.decide(trace);
      trace := trace + [Decision(phase, reply)];
    }

    /** The text of an answer read as a tool call, where repair is permitted. */
    function Repaired(answer: string): Option<ToolCall> {
      if host.repairPermitted then host.repair(answer) else None
    }

    method ScreenGenericCalls(calls: seq<ToolCall>) returns (verdict: Screening)
      modifies this`trace
      ensures (trace, verdict) == ScreenGeneric(host, old(trace), calls, false, [])
    {
      var batch, invalid := [], false;
      for k := 0 to |calls|
        invariant ScreenGeneric(host, old(trace), calls, false, [])
               == ScreenGeneric(host, trace, calls[k..], invalid, batch)
      {
        var call := calls[k];
        assert calls[k..][0] == call && calls[k..][1..] == calls[k + 1..];
        if call.name in HUMAN_GATED {
          return Yielded(call);
        } else if call.name == REGISTRY_TOOL {
          batch := batch + [call];
        } else if !PassesSchema(host, call) {
          invalid := true;
        } else {
          var vetoed := host.before(trace, call);
          if vetoed.Some? {
            return Refused(vetoed.value);
          }
          trace, batch := trace + [Admitted(call)], batch + [call];
        }
      }
      assert calls[|calls|..] == [];
      verdict := if invalid then Rejected else Cleared(batch);
    }

    method ScreenDynamicCalls(calls: seq<ToolCall>) returns (verdict: Screening)
      requires host.mode.Dynamic?
      modifies this`trace
      ensures (trace, verdict) == ScreenDynamic(host, old(trace), calls, [])
    {
      var batch := [];
      for k := 0 to |calls|
        invariant ScreenDynamic(host, old(trace), calls, [])
               == ScreenDynamic(host, trace, calls[k..], batch)
      {
        var call := calls[k];
        assert calls[k..][0] == call && calls[k..][1..] == calls[k + 1..];
        if call.name == REGISTRY_TOOL {
          if host.mode.registryEmpty {
            return Refused(ToolError("tool registry is empty"));
          }
        } else if call.name in HUMAN_GATED {
          return Yielded(call);
        } else {
          var vetoed := host.before(trace, call);
          if vetoed.Some? {
            return Refused(vetoed.value);
          }
          trace, batch := trace + [Admitted(call)], batch + [call];
        }
      }
      assert calls[|calls|..] == [];
      verdict := Cleared(batch);
    }

    /** Runs a screened batch and asks for the follow-up; `next` says where control goes. */
    method RunBatch(batch: seq<ToolCall>) returns (next: Control)
      modifies this`trace
      ensures Snapshot(next) == StepBatch(host, old(Snapshot(Ask)), batch)
    {
      if batch == [] {
        trace := trace + [Corrected];
        return Ask;
      }
      var resolved := ExecuteToolCalls(batch);
      if resolved.Failure? {
        return Done(Failure(resolved.error));
      }
      if resolved.value == [] {
        return Done(Success(Completed("")));
      }
      var stop := AbsorbResults(resolved.value);
      if stop.Some? {
        return Deliver(stop.value);
      }
      var reply := AskModel(FollowUp);
      match reply {
        case Failure(e) => return Done(Failure(e));
        case Success(TextAnswer(answer)) =>
          var repaired := Repaired(answer);
          return if repaired.Some? then Handle([repaired.value]) else Deliver(Success(Completed(answer)));
        case Success(ToolCalls(calls)) =>
          return if calls != [] then Handle(calls) else Ask;
      }
    }

    /** One round of `process_generic_tool_calls`, up to its next decision. */
    method GenericRound(calls: seq<ToolCall>) returns (next: Control)
      requires host.mode.Generic?
      modifies this`rounds, this`trace
      ensures Snapshot(next) == StepHandle(host, old(Snapshot(Handle(calls))), calls)
    {
      if calls == [] {
        return Done(Success(Completed("")));
      }
      var within := AdvanceRound();
      if !within {
        return Done(Failure(MaxRoundsExceeded(host.maxToolRounds)));
      }
      var verdict := ScreenGenericCalls(calls);
      match verdict {
        case Yielded(call) => return Done(Success(ToolApprovalRequired(call)));
        case Refused(e) => return Done(Failure(e));
        case Rejected =>
          trace := trace + [Corrected];
          return Ask;
        case Cleared(batch) => next := RunBatch(batch);
      }
    }

    /** One round of `process_dynamic_tool_calls`, up to its next decision. */
    method DynamicRound(calls: seq<ToolCall>) returns (next: Control)
      requires host.mode.Dynamic?
      modifies this`rounds, this`trace
      ensures Snapshot(next) == StepHandle(host, old(Snapshot(Handle(calls))), calls)
    {
      if host.estop(trace) {
        return Done(Failure(UserAborted));
      }
      if calls == [] {
        return Done(Success(Completed("")));
      }
      var within := AdvanceRound();
      if !within {
        return Done(Failure(MaxRoundsExceeded(host.maxToolRounds)));
      }
      var verdict := ScreenDynamicCalls(calls);
      match verdict {
        case Yielded(call) => return Done(Success(ToolApprovalRequired(call)));
        case Refused(e) => return Done(Failure(e));
        case Cleared(batch) => next := RunBatch(batch);
      }
    }

    /** The call-processing routine: it calls itself as long as follow-ups ask for more tools. */
    method ProcessToolCalls(calls: seq<ToolCall>) returns (r: Outcome)
      modifies this`rounds, this`trace
      ensures RunFrom(host, old(Snapshot(Handle(calls)))) == RunFrom(host, Snapshot(Deliver(r)))
      ensures Deliver(r).Ask? ==> old(rounds) < rounds <= host.maxToolRounds
      decreases Fuel(host, Snapshot(Handle(calls)))
    {
      var next: Control;
      if host.mode.Generic? {
        next := GenericRound(calls);
      } else {
        next := DynamicRound(calls);
      }
      RoundBounds(host, old(Snapshot(Handle(calls))));
      match next {
        case Ask => r := Success(Completed(CONTINUE_LOOP));
        case Done(outcome) => r := outcome;
        case Handle(followUps) => r := ProcessToolCalls(followUps);
      }
    }

    method CorrectModel(obligate: bool) returns (next: Control)
      modifies this
      ensures Snapshot(next) == CorrectAndAsk(host, old(Snapshot(Ask)), obligate)
    {
      var within := AdvanceRound();
      if !within {
        return Done(Failure(MaxRoundsExceeded(host.maxToolRounds)));
      }
      obligated, trace := obligate, trace + [Corrected];
      next := Ask;
    }

    /** The `TextAnswer` arm of the outer loop. */
    method TakeText(answer: string) returns (next: Control)
      modifies this
      ensures Snapshot(next) == OnText(host, old(Snapshot(Ask)), answer)
    {
      if host.repairPermitted {
        var repaired := host.repair(answer);
        if repaired.Some? {
          return Handle([repaired.value]);
        }
        if host.namesTool(answer) {
          next := CorrectModel(obligated);
        } else if host.mode.Dynamic? && host.mode.obligationApplies && !obligated {
          next := CorrectModel(true);
        } else {
          next := Done(Success(Completed(answer)));
        }
      } else if host.namesTool(answer) {
        next := CorrectModel(obligated);
      } else {
        next := Done(Success(Completed(answer)));
      }
    }

    /** The outer loop's turn up to the point where it knows what the model wants. */
    method OuterTurn() returns (next: Control)
      modifies this
      ensures Snapshot(next) == StepAsk(host, old(Snapshot(Ask)))
    {
      if host.estop(trace) {
        return Done(Failure(UserAborted));
      }
      match host.steering(trace) {
        case Some(Abort) => return Done(Failure(UserAborted));
        case Some(Pivot) => trace := trace + [Pivoted];
        case None =>
      }
      var reply := AskModel(Initial);
      match reply {
        case Failure(e) => next := Done(Failure(e));
        case Success(ToolCalls(calls)) => next := Handle(calls);
        case Success(TextAnswer(answer)) => next := TakeText(answer);
      }
    }

    /** `run_with_tool_runtime_policy` and `run_for_request_with_dynamic_tools`. */
    method RunLoop() returns (r: Outcome)
      requires Snapshot(Ask) == START
      modifies this
      ensures Snapshot(Done(r)) == Run(host)
    {
      while true
        invariant RunFrom(host, Snapshot(Ask)) == Run(host)
        invariant rounds <= host.maxToolRounds
        decreases host.maxToolRounds - rounds
      {
        ghost var s := Snapshot(Ask);
        var next := OuterTurn();
        RoundBounds(host, s);
        match next {
          case Ask =>
          case Done(outcome) => return outcome;
          case Handle(calls) =>
            r := ProcessToolCalls(calls);
            if r != Success(Completed(CONTINUE_LOOP)) {
              return;
            }
        }
      }
    }
  }

  /** A step that goes on has not overrun the limit, and going back to the model costs a round.
      The sentinel never ends the processing of calls. */
  lemma RoundBounds(host: Host, s: State)
    requires !s.control.Done?
    ensures RunFrom(host, s) == RunFrom(host, Step(host, s))
    ensures var r := Step(host, s);
      || r.control.Done?
      || (s.control.Ask? && r.control.Handle? && r.rounds == s.rounds)
      || (r.rounds == s.rounds + 1 && r.rounds <= host.maxToolRounds)
    ensures s.control.Handle? && Step(host, s).control.Done?
      ==> Step(host, s).control.outcome != Success(Completed(CONTINUE_LOOP))
  {
    hide Screen, Execute, Absorb, MaybeFinalize, Fuel;
  }
}
