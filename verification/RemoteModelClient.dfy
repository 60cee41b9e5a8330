/**
  The client as the program writes it: a loop over lines that mutates the variables of one run,
  and a client object whose upstream session outlives the run.
*/
module RemoteModelClient {
  import opened Outcomes
  import opened Strings
  import opened EventStream

  // The variables that one run's line loop and frame handler share.
  class RunVariables {
    var frameEvent: Option<string>
    var frameData: seq<string>
    var partial: string
    var upstream: Option<string>
    var runId: Option<string>
    var count: nat
    var started: bool
    var terminal: Option<Event>

    constructor (session: Option<string>)
      ensures frameEvent == None && frameData == [] && partial == "" && upstream == session
      ensures runId == None && count == 0 && !started && terminal == None
    {
      frameEvent, frameData, partial, upstream := None, [], "", session;
      runId, count, started, terminal := None, 0, false, None;
    }
  }

  class HttpModelClient {
    var upstreamSessionId: Option<string>
    // The events handed to the callback in the current run.
    var delivered: seq<Event>

    constructor (session: Option<string>)
      ensures upstreamSessionId == session && delivered == []
    {
      upstreamSessionId, delivered := session, [];
    }

    function State(run: RunVariables): Stream
      reads this, run
    {
      Stream(run.frameEvent, run.frameData, run.partial, run.upstream, upstreamSessionId, run.runId, run.count,
             run.started, run.terminal, delivered)
    }

    // What an error report and the callback can observe.
    function Observed(run: RunVariables): (string, Option<string>, Option<string>, seq<Event>)
      reads this, run
    {
      (run.partial, run.upstream, upstreamSessionId, delivered)
    }

    // The first event must start the run, no other may, and all name the same run.
    method BeginEvent(run: RunVariables, event: Event) returns (refusal: Option<Diagnostic>)
      modifies run`started, run`count, run`runId
      ensures var kind, id := Field(event, "kind"), Field(event, "run_id");
        refusal == if old(run.count) == 0 && kind != "run.started" then Some(MissingRunStarted)
                   else if kind == "run.started" && old(run.started) then Some(DuplicateRunStarted)
                   else if old(run.runId).Some? && old(run.runId).value != id then Some(RunIdChanged) else None
      ensures refusal.None? ==>
        && run.started == (old(run.started) || Field(event, "kind") == "run.started")
        && run.count == old(run.count) + 1 && run.runId == Some(Field(event, "run_id"))
    {
      var kind := Field(event, "kind");
      if run.count == 0 && kind != "run.started" {
        return Some(MissingRunStarted);
      }
      if kind == "run.started" {
        if run.started {
          return Some(DuplicateRunStarted);
        }
        run.started := true;
      }
      run.count := run.count + 1;
      if run.runId.None? {
        run.runId := Some(Field(event, "run_id"));
      } else if run.runId.value != Field(event, "run_id") {
        return Some(RunIdChanged);
      }
      return None;
    }

    method TakeEvent(run: RunVariables, event: Event) returns (refusal: Option<Diagnostic>)
      modifies this, run
      ensures refusal.None? ==> Take(old(State(run)), event) == Ok(State(run))
      ensures refusal.Some? ==>
          Take(old(State(run)), event) == Err(refusal.value) && Observed(run) == old(Observed(run))
    {
      refusal := BeginEvent(run, event);
      if refusal.Some? {
        return;
      }
      if run.terminal.Some? {
        return Some(if Terminal(event) then DuplicateTerminal else EventAfterTerminal);
      }
      var sid := Field(event, "upstream_session_id");
      if sid != "" && run.upstream.Some? && sid != run.upstream.value {
        return Some(UpstreamSessionIdChanged);
      }
      UpdateSession(run, sid, Field(event, "kind"));
      UpdatePartial(run, event);
      if Terminal(event) {
        run.terminal := Some(event);
        return None;
      }
      delivered := delivered + [event];
      return None;
    }

    // Only a session update changes the session kept for later runs.
    method UpdateSession(run: RunVariables, sid: string, kind: string)
      modifies this`upstreamSessionId, run`upstream
      ensures run.upstream == if sid != "" then Some(sid) else old(run.upstream)
      ensures upstreamSessionId == if sid != "" && kind == "session.updated" then Some(sid) else old(upstreamSessionId)
    {
      if sid != "" {
        run.upstream := Some(sid);
        if kind == "session.updated" {
          upstreamSessionId := Some(sid);
        }
      }
    }

    method UpdatePartial(run: RunVariables, event: Event)
      modifies run`partial
      ensures run.partial == PartialAfter(old(run.partial), event)
    {
      var kind := Field(event, "kind");
      if kind == "message.delta" {
        run.partial := run.partial + Field(event, "text");
      } else if kind == "message.snapshot" || kind == "message.completed" {
        run.partial := Field(event, "text");
      }
      if Terminal(event) && HasText(event, "partial_content") {
        run.partial := Field(event, "partial_content");
      }
    }

    method HandleFrame(json: Decoder, run: RunVariables) returns (fault: Option<Fault>)
      modifies this, run
      ensures fault.None? ==> ProcessFrame(json, old(State(run))) == Ok(State(run))
      ensures fault.Some? ==>
          ProcessFrame(json, old(State(run))) == Err(fault.value) && Observed(run) == old(Observed(run))
    {
      if run.frameEvent.None? && run.frameData == [] {
        return None;
      }
      if run.frameEvent.None? || run.frameData == [] {
        return Some(Contextual(State(run), InvalidSseFrame));
      }
      var event := DecodeEvent(json, run.frameEvent.value, JoinLines(run.frameData));
      if event.Err? {
        return Some(WithContext(BareFault(event.error), run.partial, run.upstream));
      }
      run.frameEvent, run.frameData := None, [];
      var refusal := TakeEvent(run, event.value);
      return if refusal.Some? then Some(Contextual(State(run), refusal.value)) else None;
    }

    method HandleLine(json: Decoder, run: RunVariables, line: string) returns (fault: Option<Fault>)
      modifies this, run
      ensures fault.None? ==> StepLine(json, old(State(run)), line) == Ok(State(run))
      ensures fault.Some? ==>
          StepLine(json, old(State(run)), line) == Err(fault.value) && Observed(run) == old(Observed(run))
    {
      fault := None;
      if line == "" {
        fault := HandleFrame(json, run);
      } else if Comment(line) {
      } else if "event:" <= line {
        if run.frameEvent.Some? {
          fault := Some(Contextual(State(run), DuplicateEventField));
        } else {
          run.frameEvent := Some(Strip(line[6..]));
        }
      } else if "data:" <= line {
        run.frameData := run.frameData + [LStrip(line[5..])];
      } else {
        fault := Some(Contextual(State(run), InvalidSseField));
      }
    }

    // The line loop, the trailing frame, and whatever fault ends them.
    method ReadLines(json: Decoder, run: RunVariables, lines: seq<string>) returns (fault: Option<Fault>)
      modifies this, run
      ensures var reading := Read(json, old(State(run)), lines);
        && reading.fault == fault
        && (fault.None? ==> State(run) == reading.stream)
        && Observed(run) == (reading.stream.partial, reading.stream.upstream, reading.stream.saved, reading.stream.seen)
    {
      var i := 0;
      while i < |lines|
        invariant 0 <= i <= |lines|
        invariant Read(json, old(State(run)), lines) == Read(json, State(run), lines[i..])
      {
        assert lines[i..][0] == lines[i] && lines[i..][1..] == lines[i + 1..];
        fault := HandleLine(json, run, lines[i]);
        if fault.Some? {
          return;
        }
        if lines[i] == "" && run.terminal.Some? {
          assert Read(json, old(State(run)), lines) == Close(json, State(run));
          break;
        }
        i := i + 1;
      }
      assert Read(json, old(State(run)), lines) == Close(json, State(run));
      fault := HandleFrame(json, run);
    }

    /**
      One operation: its outcome, the events it handed to the callback, and the session the
      client keeps, are those of the lines it read; a fault changes neither of the last two.
    */
    method CompleteOperation(json: Decoder, lines: seq<string>) returns (outcome: Outcome)
      modifies this
      ensures outcome == Complete(json, old(upstreamSessionId), lines)
      ensures delivered == Read(json, Start(old(upstreamSessionId)), lines).stream.seen
      ensures upstreamSessionId == Read(json, Start(old(upstreamSessionId)), lines).stream.saved
    {
      delivered := [];
      var run := new RunVariables(upstreamSessionId);
      assert State(run) == Start(upstreamSessionId);
      var fault := ReadLines(json, run, lines);
      if fault.Some? {
        return Protocol(WithContext(fault.value, run.partial, run.upstream));
      }
      if !run.started {
        return Protocol(Contextual(State(run), MissingRunStarted));
      }
      if run.terminal.None? {
        return Protocol(Contextual(State(run), MissingTerminal));
      }
      var result := TerminalResult(run.terminal.value, run.upstream);
      return if result.Err? then Protocol(WithContext(BareFault(result.error), run.partial, run.upstream))
          else result.value;
    }
  }

  // The loop over the tool calls of a terminal event.
  method ParseToolCalls(raw: Option<Json>) returns (calls: Result<seq<ToolCall>, Diagnostic>)
    ensures calls == ToolCallsOf(raw)
  {
    if raw.None? || raw.value.JNull? {
      return Ok([]);
    }
    if !raw.value.JArray? {
      return Err(InvalidToolCalls);
    }
    var items := raw.value.items;
    var parsed: seq<ToolCall> := [];
    assert items[0..] == items;
    for i := 0 to |items|
      invariant CallsOf(items[i..]).Err? ==> CallsOf(items) == CallsOf(items[i..])
      invariant CallsOf(items[i..]).Ok? ==>
          CallsOf(items).Ok? && CallsOf(items).value == parsed + CallsOf(items[i..]).value
    {
      assert items[i..][0] == items[i] && items[i..][1..] == items[i + 1..];
      var call := CallOf(items[i]);
      if call.Err? {
        return Err(call.error);
      }
      parsed := parsed + [call.value];
    }
    assert items[|items|..] == [] && parsed + [] == parsed;
    return Ok(parsed);
  }
}
