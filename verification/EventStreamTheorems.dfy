/**
  What the reader guarantees: the outcome of a stream is a function of its events up to the
  first terminal one; framing noise does not matter; printed events are read back.
*/
module EventStreamTheorems {
  import opened Outcomes
  import opened Strings
  import opened EventStream
  import opened EventStreamSpec

  // ---- the outcome of a stream ----

  // The events a whole stream delivers, up to the first terminal one.
  function Delivered(json: Decoder, lines: seq<string>): Option<seq<Event>> {
    Events(json, Blocks([], lines))
  }

  // The stream is one well-formed run with a terminal event.
  predicate Accepted(json: Decoder, upstream: Option<string>, lines: seq<string>) {
    var events := Delivered(json, lines);
    && events.Some? && Conforms(events.value, upstream)
    && events.value != [] && Terminal(events.value[|events.value| - 1])
  }

  /**
    A stream that is one well-formed run gives the result of its terminal event, in the
    session its events name; every other stream is a protocol error.
  */
  lemma OutcomeOfStream(json: Decoder, upstream: Option<string>, lines: seq<string>)
    ensures var outcome, events := Complete(json, upstream, lines), Delivered(json, lines);
      if Accepted(json, upstream, lines) then
        var result := TerminalResult(events.value[|events.value| - 1], Session(events.value, upstream));
        if result.Ok? then outcome == result.value
        else outcome == Protocol(WithContext(BareFault(result.error), Partial(events.value), Session(events.value, upstream)))
      else outcome.Protocol?
  {
    var s := Start(upstream);
    ReadTakesEvents(json, s, [], lines);
    assert Clear(s) == s;
    var events := Delivered(json, lines);
    if events.Some? {
      TakenIffConforms(events.value, upstream);
    }
  }

  /**
    When reading meets no fault, the callback saw exactly the non-terminal events in order, and
    the partial text, the session and the session kept for later are those of the events.
  */
  lemma StateOfStream(json: Decoder, upstream: Option<string>, lines: seq<string>)
    ensures var reading, events := Read(json, Start(upstream), lines), Delivered(json, lines);
      && (reading.fault.None? <==> events.Some? && Conforms(events.value, upstream))
      && (reading.fault.None? ==>
        && reading.stream.seen == NonTerminals(events.value)
        && reading.stream.partial == Partial(events.value)
        && reading.stream.upstream == Session(events.value, upstream)
        && reading.stream.saved == Kept(events.value, upstream)
        && reading.stream.terminal.Some? == (events.value != [] && Terminal(events.value[|events.value| - 1])))
  {
    var s := Start(upstream);
    ReadTakesEvents(json, s, [], lines);
    assert Clear(s) == s;
    var events := Delivered(json, lines);
    if events.Some? {
      TakenIffConforms(events.value, upstream);
    }
  }

  lemma DecodedIsEvent(json: Decoder, name: string, data: string)
    ensures DecodeEvent(json, name, data).Ok? ==>
      var e := DecodeEvent(json, name, data).value;
      IsEvent(e) && json(data) == Some(JObject(e)) && Field(e, "kind") == name
  {
  }

  lemma {:induction false} DeliveredAreEvents(json: Decoder, blocks: seq<seq<string>>)
    ensures Events(json, blocks).Some? ==> forall i :: 0 <= i < |Events(json, blocks).value| ==>
        IsEvent(Events(json, blocks).value[i])
  {
    if blocks != [] {
      DeliveredAreEvents(json, blocks[1..]);
      if WellFormed(blocks[0]) && Names(blocks[0]) != [] {
        DecodedIsEvent(json, Names(blocks[0])[0], JoinLines(Data(blocks[0])));
      }
    }
  }

  predicate ValidCall(item: Json) {
    && item.JObject?
    && Field(item.fields, "id") != "" && Field(item.fields, "name") != ""
    && "arguments" in item.fields && item.fields["arguments"].JObject?
  }

  // The tools a model is offered.
  predicate Offered(tool: string) { tool == "fs.list" || tool == "fs.read" || tool == "shell.run" }

  // The name a tool is offered under: its dot as an underscore.
  function WireName(tool: string): string {
    seq(|tool|, i requires 0 <= i < |tool| => if tool[i] == '.' then '_' else tool[i])
  }

  // The name of a call stands for the tool offered under it, any other name for itself.
  ghost predicate StandsFor(name: string, wire: string) {
    && (forall tool :: Offered(tool) && WireName(tool) == wire ==> name == tool)
    && ((forall tool :: Offered(tool) ==> WireName(tool) != wire) ==> name == wire)
  }

  lemma OfferedNames()
    ensures WireName("fs.list") == "fs_list" && WireName("fs.read") == "fs_read" && WireName("shell.run") == "shell_run"
  {
  }

  lemma {:induction false} NameStandsFor(wire: string)
    ensures StandsFor(InternalName(wire), wire)
  {
    OfferedNames();
    assert Offered("fs.list") && Offered("fs.read") && Offered("shell.run");
  }

  /**
    A tool goes out under its wire name and comes back as itself; a name comes back as it went out
    exactly when it is not the wire name of a tool.
  */
  lemma {:induction false} NamesComeBackIff(name: string)
    ensures Offered(name) ==> SentName(name) == WireName(name)
    ensures InternalName(SentName(name)) == name <==> forall tool :: Offered(tool) ==> WireName(tool) != name
  {
    OfferedNames();
    NameStandsFor(SentName(name));
    assert "fs.list"[2] == '.' && "fs.read"[2] == '.' && "shell.run"[5] == '.';
    assert "fs_list"[2] == '_' && "fs_read"[2] == '_' && "shell_run"[5] == '_';
  }

  // The call an item of the list stands for.
  ghost predicate IsCallOf(call: ToolCall, item: Json) {
    && ValidCall(item)
    && call.id == Field(item.fields, "id") && item.fields["arguments"] == JObject(call.arguments)
    && StandsFor(call.name, Field(item.fields, "name"))
  }

  ghost predicate AreCallsOf(calls: seq<ToolCall>, items: seq<Json>) {
    |calls| == |items| && forall i :: 0 <= i < |items| ==> IsCallOf(calls[i], items[i])
  }

  // Calls are parsed all or nothing, in order, under their internal names.
  lemma {:induction false} CallsOfAll(items: seq<Json>)
    ensures CallsOf(items).Ok? <==> forall i :: 0 <= i < |items| ==> ValidCall(items[i])
    ensures CallsOf(items).Ok? ==> AreCallsOf(CallsOf(items).value, items)
  {
    if items != [] {
      CallsOfAll(items[1..]);
      if items[0].JObject? {
        NameStandsFor(Field(items[0].fields, "name"));
      }
      assert forall i :: 1 <= i < |items| ==> items[i] == items[1..][i - 1];
    }
  }

  function CallItems(e: Event): seq<Json> {
    if "tool_calls" in e && e["tool_calls"].JArray? then e["tool_calls"].items else []
  }

  predicate ValidCalls(e: Event) {
    "tool_calls" in e ==>
      e["tool_calls"].JArray? && forall i :: 0 <= i < |e["tool_calls"].items| ==> ValidCall(e["tool_calls"].items[i])
  }

  lemma ResponseOfTerminal(e: Event, upstream: Option<string>)
    requires IsEvent(e)
    ensures var result := TerminalResult(e, upstream);
      && (result.Ok? && result.value.Response? <==> Field(e, "kind") == "run.completed" && ValidCalls(e))
      && (result.Ok? && result.value.Response? ==>
        && result.value.content == Field(e, "content")
        && result.value.session == (if Sid(e) != "" then Some(Sid(e)) else upstream)
        && AreCallsOf(result.value.calls, CallItems(e)))
  {
    assert "content" in STRING_FIELDS;
    if "tool_calls" in e {
      CallsOfAll(e["tool_calls"].items);
    }
  }

  /**
    A response comes back exactly when the stream is one well-formed run that ends with
    run.completed and its tool calls are valid; it then carries that event's content, the
    session of the run and the calls the event lists, one for one.
  */
  lemma ResponseIff(json: Decoder, upstream: Option<string>, lines: seq<string>)
    ensures Complete(json, upstream, lines).Response? <==>
        Accepted(json, upstream, lines) && ResponseEvents(Delivered(json, lines).value)
    ensures Complete(json, upstream, lines).Response? ==>
        ResponseOf(Delivered(json, lines).value, upstream, Complete(json, upstream, lines))
  {
    OutcomeOfStream(json, upstream, lines);
    if Accepted(json, upstream, lines) {
      AcceptedAreEvents(json, upstream, lines);
      ResponseOfEvents(Delivered(json, lines).value, upstream, Complete(json, upstream, lines));
    }
  }

  lemma ResponseOfEvents(events: seq<Event>, upstream: Option<string>, outcome: Outcome)
    requires events != [] && IsEvent(events[|events| - 1])
    requires var result := TerminalResult(events[|events| - 1], Session(events, upstream));
      if result.Ok? then outcome == result.value else outcome.Protocol?
    ensures outcome.Response? <==> ResponseEvents(events)
    ensures outcome.Response? ==> ResponseOf(events, upstream, outcome)
  {
    ResponseOfTerminal(events[|events| - 1], Session(events, upstream));
    SessionIsLast(events, upstream);
  }

  predicate ResponseEvents(events: seq<Event>) {
    events != [] && Field(events[|events| - 1], "kind") == "run.completed" && ValidCalls(events[|events| - 1])
  }

  ghost predicate ResponseOf(events: seq<Event>, upstream: Option<string>, outcome: Outcome) {
    && outcome.Response? && events != []
    && var last := events[|events| - 1];
       && outcome.content == Field(last, "content")
       && outcome.session == Session(events, upstream)
       && AreCallsOf(outcome.calls, CallItems(last))
  }

  lemma AcceptedAreEvents(json: Decoder, upstream: Option<string>, lines: seq<string>)
    requires Accepted(json, upstream, lines)
    ensures var events := Delivered(json, lines).value; events != [] && IsEvent(events[|events| - 1])
  {
    DeliveredAreEvents(json, Blocks([], lines));
  }

  lemma SessionIsLast(events: seq<Event>, upstream: Option<string>)
    requires events != []
    ensures var last := events[|events| - 1];
      Sid(last) != "" ==> Session(events, upstream) == Some(Sid(last))
  {
  }

  /**
    The other terminal events: a failure may leave its code out but not invent one, an abort must
    name a known one, and neither turns into the other or into a response.
  */
  lemma FailureOfTerminal(e: Event, upstream: Option<string>)
    requires IsEvent(e) && Terminal(e)
    ensures var result := TerminalResult(e, upstream);
      && (result.Ok? && result.value.RunFailed? <==>
            Field(e, "kind") == "run.failed" && ("error_code" in e ==> Field(e, "error_code") in FAILURE_CODES))
      && (result.Ok? && result.value.RunAborted? <==>
            Field(e, "kind") == "run.aborted" && "error_code" in e && Field(e, "error_code") in ABORT_CODES)
      && (result.Ok? ==> !result.value.Protocol?)
      && (result.Ok? && !result.value.Response? ==>
            && result.value.code != "" && result.value.reason != ""
            && result.value.session == (if Sid(e) != "" then Some(Sid(e)) else upstream)
            && result.value.partial == Field(e, "partial_content"))
  {
    assert "error" in STRING_FIELDS && "error_code" in STRING_FIELDS && "partial_content" in STRING_FIELDS;
    assert "" !in FAILURE_CODES && "" !in ABORT_CODES;
  }

  /**
    A failed or aborted run reports the partial text of its terminal event only: what the deltas
    had accumulated is kept exactly when that event repeats it or there was none.
  */
  lemma FailureKeepsPartialIff(json: Decoder, upstream: Option<string>, lines: seq<string>)
    requires var outcome := Complete(json, upstream, lines); outcome.RunFailed? || outcome.RunAborted?
    ensures Accepted(json, upstream, lines)
    ensures var events, outcome := Delivered(json, lines).value, Complete(json, upstream, lines);
      outcome.partial == Partial(events) <==> HasText(events[|events| - 1], "partial_content") || Partial(events) == ""
  {
    OutcomeOfStream(json, upstream, lines);
    AcceptedAreEvents(json, upstream, lines);
    FailedPartial(Delivered(json, lines).value, upstream, Complete(json, upstream, lines));
  }

  lemma FailedPartial(events: seq<Event>, upstream: Option<string>, outcome: Outcome)
    requires events != [] && IsEvent(events[|events| - 1]) && Terminal(events[|events| - 1])
    requires TerminalResult(events[|events| - 1], Session(events, upstream)) == Ok(outcome)
        && (outcome.RunFailed? || outcome.RunAborted?)
    ensures outcome.partial == Partial(events) <==>
        HasText(events[|events| - 1], "partial_content") || Partial(events) == ""
  {
    FailureOfTerminal(events[|events| - 1], Session(events, upstream));
    PartialOfTerminal(events);
  }

  lemma PartialOfTerminal(events: seq<Event>)
    requires events != [] && Terminal(events[|events| - 1])
    ensures var last := events[|events| - 1];
      Field(last, "partial_content") == Partial(events) <==> HasText(last, "partial_content") || Partial(events) == ""
  {
  }

  // ---- what cannot matter ----

  // Once the blank line that ends a terminal frame is read, the rest of the stream is not.
  lemma {:induction false} LaterLinesIgnored(json: Decoder, s: Stream, lines: seq<string>, later: seq<string>)
    requires s.terminal.None? && lines != [] && lines[|lines| - 1] == ""
    requires var reading := Read(json, s, lines); reading.fault.None? && reading.stream.terminal.Some?
    ensures Read(json, s, lines + later) == Read(json, s, lines)
    decreases |lines|
  {
    var all := lines + later;
    assert all[0] == lines[0] && all[1..] == lines[1..] + later;
    var step := StepLine(json, s, lines[0]);
    if !(lines[0] == "" && step.value.terminal.Some?) {
      if |lines| > 1 {
        LaterLinesIgnored(json, step.value, lines[1..], later);
      }
    }
  }

  // The two refusals of an event after the terminal one are never made.
  lemma {:induction false} NeverAfterTerminal(json: Decoder, s: Stream, lines: seq<string>)
    requires s.terminal.None?
    ensures var reading := Read(json, s, lines);
      reading.fault.Some? ==> reading.fault.value.diagnostic !in {DuplicateTerminal, EventAfterTerminal}
    decreases |lines|
  {
    if lines != [] {
      var step := StepLine(json, s, lines[0]);
      if step.Ok? {
        if step.value.terminal.Some? {
          assert Idle(step.value);
          ClosedReadsNothing(json, step.value);
        } else {
          NeverAfterTerminal(json, step.value, lines[1..]);
        }
      }
    }
  }

  // A comment line anywhere, even inside a frame, changes nothing.
  lemma {:induction false} CommentsIgnored(json: Decoder, s: Stream, before: seq<string>, comment: string,
      after: seq<string>)
    requires Comment(comment)
    ensures Read(json, s, before + [comment] + after) == Read(json, s, before + after)
    decreases |before|
  {
    var lines, plain := before + [comment] + after, before + after;
    if before == [] {
      assert lines[0] == comment && lines[1..] == plain;
    } else {
      assert lines[0] == before[0] && lines[1..] == before[1..] + [comment] + after;
      assert plain[0] == before[0] && plain[1..] == before[1..] + after;
      var step := StepLine(json, s, before[0]);
      if step.Ok? {
        CommentsIgnored(json, step.value, before[1..], comment, after);
      }
    }
  }

  // Between frames, blank lines may be repeated.
  lemma {:induction false} ExtraBlankLines(json: Decoder, s: Stream, before: seq<string>, after: seq<string>)
    requires s.terminal.None? && (before == [] ==> Idle(s)) && (before != [] ==> before[|before| - 1] == "")
    ensures Read(json, s, before + [""] + after) == Read(json, s, before + after)
    decreases |before|
  {
    var lines, plain := before + [""] + after, before + after;
    if before == [] {
      assert lines[0] == "" && lines[1..] == plain;
    } else {
      assert lines[0] == before[0] && lines[1..] == before[1..] + [""] + after;
      assert plain[0] == before[0] && plain[1..] == before[1..] + after;
      var step := StepLine(json, s, before[0]);
      if step.Ok? && step.value.terminal.None? {
        BlankLeavesIdle(json, s, before[0]);
        ExtraBlankLines(json, step.value, before[1..], after);
      }
    }
  }

  lemma BlankLeavesIdle(json: Decoder, s: Stream, line: string)
    ensures line == "" && StepLine(json, s, line).Ok? ==> Idle(StepLine(json, s, line).value)
  {
  }

  // ---- printing and reading back ----

  predicate Prints(json: Decoder, encode: Event -> string, e: Event) {
    && encode(e) != "" && !IsSpace(encode(e)[0])
    && json(encode(e)) == Some(JObject(e))
  }

  function PrintOne(encode: Event -> string, e: Event): seq<string> {
    ["event: " + Field(e, "kind"), "data: " + encode(e), ""]
  }

  function Print(encode: Event -> string, events: seq<Event>): seq<string> {
    if events == [] then [] else PrintOne(encode, events[0]) + Print(encode, events[1..])
  }

  lemma Trimmed(text: string)
    requires text != "" && !IsSpace(text[0]) && !IsSpace(text[|text| - 1])
    ensures Strip(" " + text) == text
  {
    SpaceTrimmed(text);
  }

  lemma SpaceTrimmed(text: string)
    requires text != "" && !IsSpace(text[0])
    ensures LStrip(" " + text) == text
  {
    assert (" " + text)[1..] == text && LStrip(text) == text;
  }

  lemma KindsAreTrimmed(kind: string)
    requires kind in EVENT_KINDS
    ensures kind != "" && !IsSpace(kind[0]) && !IsSpace(kind[|kind| - 1])
  {
    if kind[0] == 'm' {
    } else if kind[0] == 'r' {
    }
  }

  lemma PrintedFields(kind: string, data: string)
    requires kind in EVENT_KINDS && data != "" && !IsSpace(data[0])
    ensures var block := ["event: " + kind, "data: " + data];
      WellFormed(block) && Names(block) == [kind] && Data(block) == [data]
  {
    var first, second := "event: " + kind, "data: " + data;
    var block := [first, second];
    assert block[..1] == [first];
    assert first[6..] == " " + kind && second[5..] == " " + data;
    SpaceTrimmed(data);
    KindsAreTrimmed(kind);
    Trimmed(kind);
    OtherStart(first, "data:");
    OtherStart(second, "event:");
    NamesAndData(block);
    NamesAndData([first]);
  }

  lemma OtherStart(line: string, prefix: string)
    requires line != "" && prefix != "" && line[0] != prefix[0]
    ensures !(prefix <= line)
  {
  }

  // One step of the recursion over a block's lines.
  lemma NamesAndData(block: seq<string>)
    requires block != [] && !Comment(block[|block| - 1])
    ensures var init, last := block[..|block| - 1], block[|block| - 1];
      && Names(block) == Names(init) + (if "event:" <= last then [Strip(last[6..])] else [])
      && Data(block) == Data(init) + (if "data:" <= last then [LStrip(last[5..])] else [])
  {
  }

  lemma PrintedBlock(json: Decoder, encode: Event -> string, e: Event)
    requires IsEvent(e) && Prints(json, encode, e)
    ensures Meaning(json, PrintOne(encode, e)[..2]) == Frame(e)
  {
    PrintedFields(Field(e, "kind"), encode(e));
    var lines := PrintOne(encode, e);
    assert lines[..2] == [lines[0], lines[1]];
  }

  // Only the events up to the first terminal one are read.
  function UpToTerminal(events: seq<Event>): seq<Event> {
    if events == [] then [] else if Terminal(events[0]) then [events[0]] else [events[0]] + UpToTerminal(events[1..])
  }

  lemma {:induction false} PrintedIsDelivered(json: Decoder, encode: Event -> string, events: seq<Event>)
    requires forall i :: 0 <= i < |events| ==> IsEvent(events[i]) && Prints(json, encode, events[i])
    ensures Delivered(json, Print(encode, events)) == Some(UpToTerminal(events))
  {
    if events == [] {
      var none: seq<string> := [];
      assert Blocks([], []) == [none] && [none][1..] == [];
      assert Meaning(json, []) == Nothing;
    } else {
      var one, rest := PrintOne(encode, events[0]), Print(encode, events[1..]);
      PrintedBlock(json, encode, events[0]);
      PrintedIsDelivered(json, encode, events[1..]);
      PrintedSplits(one[0], one[1], rest);
      assert one + rest == [one[0], one[1], ""] + rest && one[..2] == [one[0], one[1]];
    }
  }

  lemma PrintedSplits(first: string, second: string, rest: seq<string>)
    requires first != "" && second != ""
    ensures Blocks([], [first, second, ""] + rest) == [[first, second]] + Blocks([], rest)
  {
    var lines := [first, second, ""] + rest;
    assert lines[1..] == [second, ""] + rest && lines[1..][1..] == [""] + rest && ([""] + rest)[1..] == rest;
    assert [] + [first] == [first] && [first] + [second] == [first, second];
    assert Blocks([], lines) == Blocks([first], lines[1..]) == Blocks([first, second], [""] + rest);
  }

  lemma {:induction false} ConformingIsWhole(events: seq<Event>)
    requires forall i :: 0 <= i < |events| - 1 ==> !Terminal(events[i])
    ensures UpToTerminal(events) == events
  {
    if |events| > 1 {
      assert !Terminal(events[0]);
      assert forall i :: 0 <= i < |events[1..]| - 1 ==> events[1..][i] == events[i + 1];
      ConformingIsWhole(events[1..]);
    }
  }

  /**
    Any run printed as frames is read back: the callback gets its events in order, the last one
    decides, and the outcome is that of the terminal event.
  */
  lemma {:induction false} PrintedRunIsReadBack(json: Decoder, encode: Event -> string, upstream: Option<string>,
      events: seq<Event>)
    requires forall i :: 0 <= i < |events| ==> IsEvent(events[i]) && Prints(json, encode, events[i])
    requires Conforms(events, upstream) && events != [] && Terminal(events[|events| - 1])
    ensures var lines := Print(encode, events);
      && Accepted(json, upstream, lines) && Delivered(json, lines) == Some(events)
      && Read(json, Start(upstream), lines).fault.None?
      && Read(json, Start(upstream), lines).stream.seen == events[..|events| - 1]
  {
    PrintedIsDelivered(json, encode, events);
    ConformingIsWhole(events);
    AcceptedRunIsSeen(json, upstream, Print(encode, events), events);
  }

  lemma AcceptedRunIsSeen(json: Decoder, upstream: Option<string>, lines: seq<string>, events: seq<Event>)
    requires Delivered(json, lines) == Some(events) && Conforms(events, upstream)
    requires events != [] && Terminal(events[|events| - 1])
    ensures var reading := Read(json, Start(upstream), lines);
      reading.fault.None? && reading.stream.seen == events[..|events| - 1] && reading.stream.terminal.Some?
  {
    StateOfStream(json, upstream, lines);
    WholeRun(events);
  }

  lemma {:induction false} WholeRun(events: seq<Event>)
    requires events != [] && Terminal(events[|events| - 1])
    requires forall i :: 0 <= i < |events| - 1 ==> !Terminal(events[i])
    ensures NonTerminals(events) == events[..|events| - 1]
  {
    var init := events[..|events| - 1];
    assert forall i :: 0 <= i < |init| ==> init[i] == events[i];
    AllNonTerminal(init);
  }

  lemma {:induction false} AllNonTerminal(events: seq<Event>)
    requires forall i :: 0 <= i < |events| ==> !Terminal(events[i])
    ensures NonTerminals(events) == events
  {
    if events != [] {
      AllNonTerminal(events[..|events| - 1]);
    }
  }

  // ---- a failed run that loses its text ----

  // An event of run "r" with one more text field.
  function TextEvent(kind: string, key: string, text: string): Event {
    map["kind" := JString(kind), "run_id" := JString("r"), key := JString(text)]
  }

  const STARTED := TextEvent("run.started", "model", "m")
  const DELTA := TextEvent("message.delta", "text", "hi")
  const FAILED := TextEvent("run.failed", "error", "boom")

  function TextOf(e: Event): string {
    "{" + (
      if Field(e, "kind") == "run.started" then "\"kind\": \"run.started\", \"run_id\": \"r\", \"model\": \"m\"}"
      else if Field(e, "kind") == "message.delta" then
          "\"kind\": \"message.delta\", \"run_id\": \"r\", \"text\": \"hi\"}"
      else "\"kind\": \"run.failed\", \"run_id\": \"r\", \"error\": \"boom\"}")
  }

  lemma TextEventFields(kind: string, key: string, text: string)
    requires kind in EVENT_KINDS && key in {"model", "text", "error"}
    ensures var e := TextEvent(kind, key, text);
      && IsEvent(e) && Field(e, "kind") == kind && Field(e, "run_id") == "r" && Field(e, key) == text && Sid(e) == ""
      && !HasText(e, "partial_content") && "error_code" !in e
  {
    var e := TextEvent(kind, key, text);
    assert key != "kind" && key != "run_id" && key != "upstream_session_id" && key != "partial_content"
        && key != "error_code";
    assert forall k :: k in e ==> e[k].JString?;
  }

  lemma FailedRunEvents()
    ensures IsEvent(STARTED) && IsEvent(DELTA) && IsEvent(FAILED)
    ensures Field(STARTED, "kind") == "run.started" && Sid(STARTED) == "" && Field(STARTED, "run_id") == "r"
    ensures Field(DELTA, "kind") == "message.delta" && Sid(DELTA) == "" && Field(DELTA, "run_id") == "r"
        && Field(DELTA, "text") == "hi"
    ensures Field(FAILED, "kind") == "run.failed" && Sid(FAILED) == "" && Field(FAILED, "run_id") == "r"
    ensures Field(FAILED, "error") == "boom" && !HasText(FAILED, "partial_content") && "error_code" !in FAILED
  {
    TextEventFields("run.started", "model", "m");
    TextEventFields("message.delta", "text", "hi");
    TextEventFields("run.failed", "error", "boom");
  }

  lemma EventPrints(json: Decoder, e: Event)
    requires json(TextOf(e)) == Some(JObject(e))
    ensures Prints(json, TextOf, e)
  {
    assert TextOf(e)[0] == '{';
  }

  lemma ThreeEventsConform(first: Event, second: Event, last: Event)
    requires Field(first, "kind") == "run.started" && Field(second, "kind") == "message.delta"
        && Field(last, "kind") == "run.failed"
    requires Field(first, "run_id") == Field(second, "run_id") == Field(last, "run_id")
    requires Sid(first) == Sid(second) == Sid(last) == ""
    ensures Conforms([first, second, last], None) && Terminal(last)
  {
  }

  lemma {:induction false} FailedRunIsWellFormed(json: Decoder, events: seq<Event>)
    requires events == [STARTED, DELTA, FAILED]
    requires forall i :: 0 <= i < 3 ==> json(TextOf(events[i])) == Some(JObject(events[i]))
    ensures forall i :: 0 <= i < 3 ==> IsEvent(events[i]) && Prints(json, TextOf, events[i])
    ensures Conforms(events, None) && Terminal(events[2])
  {
    FailedRunEvents();
    ThreeEventsConform(events[0], events[1], events[2]);
    forall i | 0 <= i < 3 ensures Prints(json, TextOf, events[i]) { EventPrints(json, events[i]); }
  }

  lemma FailedRunText(events: seq<Event>)
    requires events == [STARTED, DELTA, FAILED]
    ensures Partial(events) == "hi" && Session(events, None) == None
    ensures TerminalResult(FAILED, None) == Ok(RunFailed("provider_process_failed", "boom", "", None))
  {
    FailedRunEvents();
    var one, two := [STARTED], [STARTED, DELTA];
    assert events[..2] == two && two[..1] == one && one[..0] == [];
    assert Partial(one) == "" && Session(one, None) == None;
    assert Partial(two) == "" + "hi" && Session(two, None) == None;
  }

  /** A run that says "hi" and then fails without repeating it: the failure reports no text. */
  lemma FailureLosesPartial(json: Decoder, events: seq<Event>)
    requires events == [STARTED, DELTA, FAILED]
    requires forall i :: 0 <= i < 3 ==> json(TextOf(events[i])) == Some(JObject(events[i]))
    ensures Delivered(json, Print(TextOf, events)) == Some(events) && Partial(events) == "hi"
    ensures Complete(json, None, Print(TextOf, events)) == RunFailed("provider_process_failed", "boom", "", None)
  {
    FailedRunIsWellFormed(json, events);
    PrintedRunIsReadBack(json, TextOf, None, events);
    FailedRunText(events);
    OutcomeOfStream(json, None, Print(TextOf, events));
  }

  // ---- the partial text and the kept session ----

  predicate Replaces(e: Event) { Field(e, "kind") in {"message.snapshot", "message.completed"} }

  function DeltaText(events: seq<Event>): string {
    if events == [] then ""
    else
      var last := events[|events| - 1];
      DeltaText(events[..|events| - 1]) + if Field(last, "kind") == "message.delta" then Field(last, "text") else ""
  }

  // After a snapshot only its own text and the later deltas count.
  lemma {:induction false} PartialSinceSnapshot(before: seq<Event>, snapshot: Event, after: seq<Event>)
    requires Replaces(snapshot)
    requires forall i :: 0 <= i < |after| ==> !Replaces(after[i]) && !Terminal(after[i])
    ensures Partial(before + [snapshot] + after) == Field(snapshot, "text") + DeltaText(after)
    decreases |after|
  {
    var all := before + [snapshot] + after;
    if after == [] {
      assert all == before + [snapshot];
      assert all[..|before|] == before;
    } else {
      var init := after[..|after| - 1];
      assert all[..|all| - 1] == before + [snapshot] + init;
      PartialSinceSnapshot(before, snapshot, init);
    }
  }

  // Whatever the stream did, the kept session is the earlier one or the session of this run.
  lemma {:induction false} KeptSession(events: seq<Event>, upstream: Option<string>)
    requires Conforms(events, upstream)
    ensures Kept(events, upstream) in {upstream, Session(events, upstream)}
    ensures upstream.Some? && upstream.value != "" ==> Kept(events, upstream) == Session(events, upstream) == upstream
    decreases |events|
  {
    if events != [] {
      var init, last := events[..|events| - 1], events[|events| - 1];
      assert events == init + [last];
      ConformingPrefix(init, last, upstream);
      ConformingMayFollow(init, last, upstream);
      SessionIsNamed(init, upstream);
      KeptSession(init, upstream);
    }
  }
}
