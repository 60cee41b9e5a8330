/**
  The decoder of one streamed run: lines into frames, frames into events, events into the
  state of the run, and the terminal event into an outcome. JSON text is decoded by a
  parameter, a partial function from text to values.
*/
module EventStream {
  import opened Outcomes
  import opened Strings

  datatype Json =
    | JNull | JBool(flag: bool) | JInt(number: int) | JFloat(fraction: real) | JString(text: string)
    | JArray(items: seq<Json>) | JObject(fields: map<string, Json>)

  type Event = map<string, Json>
  type Decoder = string -> Option<Json>

  datatype Diagnostic =
    | InvalidSseFrame | InvalidSseField | DuplicateEventField
    | MalformedEventJson | EventIsNotObject | InvalidEventKind | SseEventKindMismatch | InvalidRunId | InvalidEventShape
    | MissingRunStarted | DuplicateRunStarted | RunIdChanged | DuplicateTerminal | EventAfterTerminal
    | UpstreamSessionIdChanged | MissingTerminal | InvalidTerminalErrorCode
    | InvalidToolCalls | InvalidToolCall | InvalidToolCallId | InvalidToolCallName | InvalidToolCallArguments

  datatype Fault = Fault(code: string, diagnostic: Diagnostic, partial: string, upstream: Option<string>)

  datatype ToolCall = ToolCall(id: string, name: string, arguments: map<string, Json>)

  datatype Outcome =
    | Response(content: string, calls: seq<ToolCall>, session: Option<string>, usage: Option<map<string, int>>)
    | RunFailed(code: string, reason: string, partial: string, session: Option<string>)
    | RunAborted(code: string, reason: string, partial: string, session: Option<string>)
    | Protocol(fault: Fault)

  const EVENT_KINDS: set<string> := {
    "run.started", "session.updated", "message.delta", "message.snapshot", "reasoning.delta", "tool.activity",
    "message.completed", "output.completed", "run.retrying", "run.heartbeat",
    "run.completed", "run.failed", "run.aborted" }
  const TERMINAL_KINDS: set<string> := {"run.completed", "run.failed", "run.aborted"}
  const FAILURE_CODES: set<string> := {
    "provider_unavailable", "provider_not_ready", "provider_auth_required", "provider_rate_limited",
    "provider_protocol_error", "provider_process_failed" }
  const ABORT_CODES: set<string> := {"run_cancelled", "run_timeout"}
  const STRING_FIELDS: set<string> := {
    "kind", "run_id", "model", "provider", "text", "upstream_session_id", "content", "error", "error_code",
    "partial_content" }
  const USAGE_KEYS: set<string> := {
    "input_tokens", "output_tokens", "cache_creation_input_tokens", "cache_read_input_tokens" }
  const WIRE_TOOL_NAMES: map<string, string> :=
    map["fs.list" := "fs_list", "fs.read" := "fs_read", "shell.run" := "shell_run"]
  const INTERNAL_TOOL_NAMES: map<string, string> :=
    map["fs_list" := "fs.list", "fs_read" := "fs.read", "shell_run" := "shell.run"]

  // ---- events ----

  // A string field, or the empty string.
  function Field(e: Event, key: string): string {
    if key in e && e[key].JString? then e[key].text else ""
  }

  predicate Terminal(e: Event) { Field(e, "kind") in TERMINAL_KINDS }

  predicate HasText(e: Event, key: string) { key in e && e[key].JString? }

  // What the decoder accepts as an event.
  predicate IsEvent(e: Event) {
    && HasText(e, "kind") && Field(e, "kind") in EVENT_KINDS
    && HasText(e, "run_id") && Field(e, "run_id") != ""
    && (forall key :: key in STRING_FIELDS && key in e ==> e[key].JString?)
    && ("tool" in e ==> e["tool"].JObject?)
    && ("tool_calls" in e ==> e["tool_calls"].JArray?)
  }

  function DecodeEvent(json: Decoder, name: string, data: string): Result<Event, Diagnostic> {
    var raw := json(data);
    if raw.None? then Err(MalformedEventJson)
    else if !raw.value.JObject? then Err(EventIsNotObject)
    else
      var event := raw.value.fields;
      if !HasText(event, "kind") || Field(event, "kind") !in EVENT_KINDS then Err(InvalidEventKind)
      else if name != Field(event, "kind") then Err(SseEventKindMismatch)
      else if !HasText(event, "run_id") || Field(event, "run_id") == "" then Err(InvalidRunId)
      else if exists key :: key in STRING_FIELDS && key in event && !event[key].JString? then Err(InvalidEventShape)
      else if "tool" in event && !event["tool"].JObject? then Err(InvalidEventShape)
      else if "tool_calls" in event && !event["tool_calls"].JArray? then Err(InvalidEventShape)
      else Ok(event)
  }

  // ---- the state of a run ----

  datatype Stream = Stream(
    frameEvent: Option<string>, frameData: seq<string>, partial: string, upstream: Option<string>,
    saved: Option<string>, runId: Option<string>, count: nat, started: bool, terminal: Option<Event>, seen: seq<Event>)

  // `upstream` is the session the client already has; `saved` is the one it will keep.
  function Start(upstream: Option<string>): Stream {
    Stream(None, [], "", upstream, upstream, None, 0, false, None, [])
  }

  function PartialAfter(partial: string, e: Event): string {
    var kind := Field(e, "kind");
    var told :=
      if kind == "message.delta" then partial + Field(e, "text")
      else if kind in {"message.snapshot", "message.completed"} then Field(e, "text")
      else partial;
    if Terminal(e) && HasText(e, "partial_content") then Field(e, "partial_content") else told
  }

  // One decoded event: the checks in their order, then the updates.
  function Take(s: Stream, e: Event): Result<Stream, Diagnostic> {
    var kind, run, sid := Field(e, "kind"), Field(e, "run_id"), Field(e, "upstream_session_id");
    if s.count == 0 && kind != "run.started" then Err(MissingRunStarted)
    else if kind == "run.started" && s.started then Err(DuplicateRunStarted)
    else if s.runId.Some? && s.runId.value != run then Err(RunIdChanged)
    else if s.terminal.Some? then Err(if Terminal(e) then DuplicateTerminal else EventAfterTerminal)
    else if sid != "" && s.upstream.Some? && sid != s.upstream.value then Err(UpstreamSessionIdChanged)
    else
      Ok(s.(count := s.count + 1, started := s.started || kind == "run.started", runId := Some(run),
            upstream := if sid != "" then Some(sid) else s.upstream,
            saved := if sid != "" && kind == "session.updated" then Some(sid) else s.saved,
            partial := PartialAfter(s.partial, e),
            terminal := if Terminal(e) then Some(e) else None,
            seen := if Terminal(e) then s.seen else s.seen + [e]))
  }

  // ---- frames and lines ----

  function OrElse(a: Option<string>, b: Option<string>): Option<string> {
    if a.Some? && a.value != "" then a else b
  }

  function WithContext(f: Fault, partial: string, upstream: Option<string>): Fault {
    f.(partial := if partial != "" then partial else f.partial, upstream := OrElse(upstream, f.upstream))
  }

  function BareFault(d: Diagnostic): Fault { Fault("provider_protocol_error", d, "", None) }

  function Contextual(s: Stream, d: Diagnostic): Fault {
    Fault(if d == MissingTerminal then "upstream_stream_incomplete"
        else "provider_protocol_error", d, s.partial, s.upstream)
  }

  predicate Idle(s: Stream) { s.frameEvent.None? && s.frameData == [] }

  function Clear(s: Stream): Stream { s.(frameEvent := None, frameData := []) }

  function ProcessFrame(json: Decoder, s: Stream): Result<Stream, Fault> {
    if Idle(s) then Ok(s)
    else if s.frameEvent.None? || s.frameData == [] then Err(Contextual(s, InvalidSseFrame))
    else
      var event := DecodeEvent(json, s.frameEvent.value, JoinLines(s.frameData));
      if event.Err? then Err(WithContext(BareFault(event.error), s.partial, s.upstream))
      else
        var taken := Take(Clear(s), event.value);
        if taken.Err? then Err(Contextual(s, taken.error)) else Ok(taken.value)
  }

  predicate Comment(line: string) { ":" <= line }

  function StepLine(json: Decoder, s: Stream, line: string): Result<Stream, Fault> {
    if line == "" then ProcessFrame(json, s)
    else if Comment(line) then Ok(s)
    else if "event:" <= line then
      if s.frameEvent.Some? then Err(Contextual(s, DuplicateEventField))
      else Ok(s.(frameEvent := Some(Strip(line[6..]))))
    else if "data:" <= line then Ok(s.(frameData := s.frameData + [LStrip(line[5..])]))
    else Err(Contextual(s, InvalidSseField))
  }

  // The state in which reading stopped, and the fault that stopped it.
  datatype Reading = Reading(stream: Stream, fault: Option<Fault>)

  function Close(json: Decoder, s: Stream): Reading {
    var last := ProcessFrame(json, s);
    if last.Err? then Reading(s, Some(last.error)) else Reading(last.value, None)
  }

  // Reading stops after the blank line that completes a terminal frame, or at the end.
  function Read(json: Decoder, s: Stream, lines: seq<string>): Reading
    decreases |lines|
  {
    if lines == [] then Close(json, s)
    else
      var step := StepLine(json, s, lines[0]);
      if step.Err? then Reading(s, Some(step.error))
      else if lines[0] == "" && step.value.terminal.Some? then Close(json, step.value)
      else Read(json, step.value, lines[1..])
  }

  // ---- the outcome ----

  // The name under which a call goes out.
  function SentName(name: string): string {
    if name in WIRE_TOOL_NAMES then WIRE_TOOL_NAMES[name] else name
  }

  function InternalName(name: string): string {
    if name in INTERNAL_TOOL_NAMES then INTERNAL_TOOL_NAMES[name] else name
  }

  function CallOf(item: Json): Result<ToolCall, Diagnostic> {
    if !item.JObject? then Err(InvalidToolCall)
    else
      var call := item.fields;
      if Field(call, "id") == "" then Err(InvalidToolCallId)
      else if Field(call, "name") == "" then Err(InvalidToolCallName)
      else if "arguments" !in call || !call["arguments"].JObject? then Err(InvalidToolCallArguments)
      else
        Ok(ToolCall(Field(call, "id"), InternalName(Field(call, "name")), call["arguments"].fields))
  }

  // The calls in order, or the first refusal.
  function CallsOf(items: seq<Json>): Result<seq<ToolCall>, Diagnostic> {
    if items == [] then Ok([])
    else
      var first := CallOf(items[0]);
      if first.Err? then Err(first.error)
      else
        var rest := CallsOf(items[1..]);
        if rest.Err? then rest else Ok([first.value] + rest.value)
  }

  function ToolCallsOf(raw: Option<Json>): Result<seq<ToolCall>, Diagnostic> {
    if raw.None? || raw.value.JNull? then Ok([])
    else if !raw.value.JArray? then Err(InvalidToolCalls)
    else CallsOf(raw.value.items)
  }

  function UsageOf(raw: Option<Json>): Option<map<string, int>> {
    if raw.None? || !raw.value.JObject? then None
    else
      var counts := map key | key in USAGE_KEYS && key in raw.value.fields
          && raw.value.fields[key].JInt? :: raw.value.fields[key].number;
      if counts == map[] then None else Some(counts)
  }

  function Get(e: Event, key: string): Option<Json> {
    if key in e then Some(e[key]) else None
  }

  function TerminalResult(e: Event, upstream: Option<string>): Result<Outcome, Diagnostic> {
    var sid := Field(e, "upstream_session_id");
    var session := if sid != "" then Some(sid) else upstream;
    var code := Get(e, "error_code");
    var reason, partial := Field(e, "error"), Field(e, "partial_content");
    if Field(e, "kind") == "run.completed" then
      if "content" in e && !e["content"].JString? then Err(InvalidEventShape)
      else
        var calls := ToolCallsOf(Get(e, "tool_calls"));
        if calls.Err? then Err(calls.error)
        else Ok(Response(Field(e, "content"), calls.value, session, UsageOf(Get(e, "usage"))))
    else if ("error" in e && !e["error"].JString?) || ("partial_content" in e && !e["partial_content"].JString?) then
      Err(InvalidEventShape)
    else if Field(e, "kind") == "run.failed" then
      if code.Some? && !code.value.JNull? && Field(e, "error_code") !in FAILURE_CODES then Err(InvalidTerminalErrorCode)
      else
        Ok(RunFailed(if code.None? || code.value.JNull? then "provider_process_failed" else Field(e, "error_code"),
                     if reason != "" then reason else "remote_run_failed", partial, session))
    else if Field(e, "error_code") !in ABORT_CODES then Err(InvalidTerminalErrorCode)
    else Ok(RunAborted(Field(e, "error_code"), if reason != "" then reason else "remote_run_aborted", partial, session))
  }

  function Conclude(reading: Reading): Outcome {
    var s := reading.stream;
    if reading.fault.Some? then Protocol(WithContext(reading.fault.value, s.partial, s.upstream))
    else if !s.started then Protocol(Contextual(s, MissingRunStarted))
    else if s.terminal.None? then Protocol(Contextual(s, MissingTerminal))
    else
      var result := TerminalResult(s.terminal.value, s.upstream);
      if result.Err? then Protocol(WithContext(BareFault(result.error), s.partial, s.upstream)) else result.value
  }

  function Complete(json: Decoder, upstream: Option<string>, lines: seq<string>): Outcome {
    Conclude(Read(json, Start(upstream), lines))
  }
}
