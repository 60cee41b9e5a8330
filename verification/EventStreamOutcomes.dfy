/**
  How every stream ends, said in terms of its lines, its events and the JSON they carry: what a
  line, a block and an event must look like, what is refused and for which reason, and what the
  terminal event turns into.
*/
module EventStreamOutcomes {
  import opened Outcomes
  import opened Strings
  import opened EventStream
  import opened EventStreamSpec
  import opened EventStreamTheorems

  // ---- lines and blocks ----

  // The lines that these blocks are cut from: a blank line between two blocks.
  function Lines(blocks: seq<seq<string>>): seq<string> {
    if blocks == [] then []
    else if |blocks| == 1 then blocks[0]
    else blocks[0] + [""] + Lines(blocks[1..])
  }

  // A stream is cut at its blank lines, and at no other line.
  lemma {:induction false} BlocksAreTheLines(open: seq<string>, lines: seq<string>)
    requires "" !in open
    ensures var blocks := Blocks(open, lines);
      && blocks != [] && open <= blocks[0] && Lines(blocks) == open + lines
      && forall i :: 0 <= i < |blocks| ==> "" !in blocks[i]
    decreases |lines|
  {
    if lines == [] {
      assert open + lines == open;
    } else if lines[0] == "" {
      BlocksAreTheLines([], lines[1..]);
      var rest := Blocks([], lines[1..]);
      assert ([open] + rest)[1..] == rest;
      assert open + lines == open + [""] + ([] + lines[1..]);
    } else {
      BlocksAreTheLines(open + [lines[0]], lines[1..]);
      assert open + lines == open + [lines[0]] + lines[1..];
    }
  }

  predicate EventLine(line: string) { "event:" <= line }
  predicate DataLine(line: string) { "data:" <= line }

  // The block has one event line, which gives this name.
  ghost predicate NamedOnce(block: seq<string>, name: string) {
    exists i :: 0 <= i < |block| && NamedAt(block, i, name)
  }

  ghost predicate NamedAt(block: seq<string>, i: nat, name: string)
    requires i < |block|
  {
    && EventLine(block[i]) && Trims(block[i][6..], name)
    && forall j :: 0 <= j < |block| && j != i ==> !EventLine(block[j])
  }

  // The data lines of the block are those at these places, and carry these texts.
  ghost predicate ArePieces(block: seq<string>, at: seq<nat>, pieces: seq<string>) {
    && |at| == |pieces|
    && (forall k :: 0 <= k < |at| ==> at[k] < |block| && DataLine(block[at[k]]) && CutsLeft(block[at[k]][5..], pieces[k]))
    && (forall j, k :: 0 <= j < k < |at| ==> at[j] < at[k])
    && (forall i :: 0 <= i < |block| && DataLine(block[i]) ==> i in at)
  }

  lemma {:induction false} DataArePieces(block: seq<string>) returns (at: seq<nat>)
    ensures ArePieces(block, at, Data(block))
  {
    at := [];
    if block != [] {
      var n := |block| - 1;
      var init := block[..n];
      at := DataArePieces(init);
      PiecesGrow(init, block[n], at, Data(init));
      assert block == init + [block[n]] && (DataLine(block[n]) ==> block[n][0] == 'd');
      at := if DataLine(block[n]) then at + [n] else at;
    }
  }

  lemma {:induction false} PiecesGrow(block: seq<string>, last: string, at: seq<nat>, pieces: seq<string>)
    requires ArePieces(block, at, pieces)
    ensures DataLine(last) ==> ArePieces(block + [last], at + [|block|], pieces + [LStrip(last[5..])])
    ensures !DataLine(last) ==> ArePieces(block + [last], at, pieces)
  {
    var grown := block + [last];
    assert forall i :: 0 <= i < |block| ==> grown[i] == block[i];
    if DataLine(last) {
      LStripCuts(last[5..]);
      var places := at + [|block|];
      assert places[|at|] == |block| && forall k :: 0 <= k < |at| ==> places[k] == at[k];
      assert forall i: nat :: i in at ==> i in places;
    }
  }

  lemma {:induction false} NoPieces(block: seq<string>, at: seq<nat>, pieces: seq<string>)
    requires ArePieces(block, at, pieces)
    ensures pieces == [] <==> forall i :: 0 <= i < |block| ==> !DataLine(block[i])
  {
    assert |at| > 0 ==> DataLine(block[at[0]]);
  }

  lemma {:induction false} NoName(block: seq<string>)
    ensures Names(block) == [] <==> forall i :: 0 <= i < |block| ==> !EventLine(block[i])
  {
    if block != [] {
      var n := |block| - 1;
      NoName(block[..n]);
      assert EventLine(block[n]) ==> block[n][0] == 'e';
      assert forall i :: 0 <= i < n ==> block[i] == block[..n][i];
    }
  }

  ghost predicate NamedTwice(block: seq<string>) {
    exists i, j :: 0 <= i < j < |block| && EventLine(block[i]) && EventLine(block[j])
  }

  lemma {:induction false} OneName(block: seq<string>)
    ensures |Names(block)| == 1 ==> NamedOnce(block, Names(block)[0])
    ensures |Names(block)| > 1 ==> NamedTwice(block)
  {
    if block != [] {
      var n := |block| - 1;
      var init, last := block[..n], block[n];
      assert EventLine(last) ==> last[0] == 'e';
      NoName(init);
      OneName(init);
      assert block == init + [last];
      if EventLine(last) {
        assert Names(block) == Names(init) + [Strip(last[6..])];
        NameAdded(init, last);
      } else {
        assert Names(block) == Names(init);
        if |Names(init)| == 1 { NameStays(init, last, Names(init)[0]); }
        if |Names(init)| > 1 { TwiceStays(init, last); }
      }
    }
  }

  lemma {:induction false} NameAdded(init: seq<string>, last: string)
    requires EventLine(last)
    ensures (forall i :: 0 <= i < |init| ==> !EventLine(init[i])) ==> NamedOnce(init + [last], Strip(last[6..]))
    ensures (exists i :: 0 <= i < |init| && EventLine(init[i])) ==> NamedTwice(init + [last])
  {
    var block, n := init + [last], |init|;
    StripTrims(last[6..]);
    assert block[n] == last && forall i :: 0 <= i < n ==> block[i] == init[i];
    if exists i :: 0 <= i < n && EventLine(init[i]) {
      var i :| 0 <= i < n && EventLine(init[i]);
      assert EventLine(block[i]) && EventLine(block[n]);
    } else {
      assert NamedAt(block, n, Strip(last[6..]));
    }
  }

  lemma {:induction false} NameStays(init: seq<string>, last: string, name: string)
    requires NamedOnce(init, name) && !EventLine(last)
    ensures NamedOnce(init + [last], name)
  {
    var block := init + [last];
    assert forall i :: 0 <= i < |init| ==> block[i] == init[i];
    var i :| 0 <= i < |init| && NamedAt(init, i, name);
    assert NamedAt(block, i, name);
  }

  lemma {:induction false} TwiceStays(init: seq<string>, last: string)
    requires NamedTwice(init)
    ensures NamedTwice(init + [last])
  {
    var block := init + [last];
    var i, j :| 0 <= i < j < |init| && EventLine(init[i]) && EventLine(init[j]);
    assert EventLine(block[i]) && EventLine(block[j]);
  }

  // ---- events ----

  predicate Text(e: Event, key: string) { key in e && e[key].JString? }

  predicate KnownKind(kind: string) {
    || kind == "run.started" || kind == "session.updated" || kind == "message.delta" || kind == "message.snapshot"
    || kind == "reasoning.delta" || kind == "tool.activity" || kind == "message.completed"
    || kind == "output.completed" || kind == "run.retrying" || kind == "run.heartbeat"
    || kind == "run.completed" || kind == "run.failed" || kind == "run.aborted"
  }

  predicate OfKnownKind(e: Event) { Text(e, "kind") && KnownKind(e["kind"].text) }

  predicate OfSomeRun(e: Event) { Text(e, "run_id") && e["run_id"].text != "" }

  predicate TextKey(key: string) {
    || key == "kind" || key == "run_id" || key == "model" || key == "provider" || key == "text"
    || key == "upstream_session_id" || key == "content" || key == "error" || key == "error_code"
    || key == "partial_content"
  }

  // The optional fields have the types they should.
  ghost predicate Shaped(e: Event) {
    && (forall key :: TextKey(key) && key in e ==> e[key].JString?)
    && ("tool" in e ==> e["tool"].JObject?)
    && ("tool_calls" in e ==> e["tool_calls"].JArray?)
  }

  // Why this text under this name is no event: the first thing that is wrong with it.
  ghost predicate NoEvent(json: Decoder, name: string, data: string, d: Diagnostic) {
    match json(data)
    case None => d == MalformedEventJson
    case Some(JObject(e)) =>
      if !OfKnownKind(e) then d == InvalidEventKind
      else if e["kind"].text != name then d == SseEventKindMismatch
      else if !OfSomeRun(e) then d == InvalidRunId
      else !Shaped(e) && d == InvalidEventShape
    case _ => d == EventIsNotObject
  }

  ghost predicate IsEventOf(json: Decoder, name: string, data: string, e: Event) {
    json(data) == Some(JObject(e)) && OfKnownKind(e) && e["kind"].text == name && OfSomeRun(e) && Shaped(e)
  }

  /** The text of a frame is decoded exactly when it is an event of the kind the frame names. */
  lemma {:induction false} DecodedIff(json: Decoder, name: string, data: string)
    ensures var decoded := DecodeEvent(json, name, data);
      if decoded.Ok? then IsEventOf(json, name, data, decoded.value) else NoEvent(json, name, data, decoded.error)
  {
    KindsAndKeys();
  }

  lemma KindsAndKeys()
    ensures forall kind :: kind in EVENT_KINDS <==> KnownKind(kind)
    ensures forall key :: key in STRING_FIELDS <==> TextKey(key)
  {
  }

  predicate EndingKind(kind: string) { kind == "run.completed" || kind == "run.failed" || kind == "run.aborted" }

  lemma {:induction false} TerminalKinds(e: Event)
    ensures Terminal(e) <==> Text(e, "kind") && EndingKind(e["kind"].text)
  {
  }

  // ---- frames ----

  /** A block delivers an event exactly when it is a frame whose texts, joined, are that event. */
  lemma {:induction false} FrameIff(json: Decoder, block: seq<string>, e: Event)
    ensures Meaning(json, block) == Frame(e) <==> exists at, name :: IsFrameOf(json, block, at, name, e)
    ensures Meaning(json, block) == Nothing <==> forall i :: 0 <= i < |block| ==> ":" <= block[i]
  {
    NoName(block);
    OneName(block);
    var at := DataArePieces(block);
    NoPieces(block, at, Data(block));
    if Meaning(json, block) == Frame(e) {
      DecodedIff(json, Names(block)[0], JoinLines(Data(block)));
      assert IsFrameOf(json, block, at, Names(block)[0], e);
    }
    if exists at, name :: IsFrameOf(json, block, at, name, e) {
      var places, name :| IsFrameOf(json, block, places, name, e);
      FrameMeans(json, block, places, name, e);
    }
    if Meaning(json, block) == Nothing {
      forall i | 0 <= i < |block| ensures ":" <= block[i] { assert KnownField(block[i]); }
    }
    if forall i :: 0 <= i < |block| ==> ":" <= block[i] {
      forall i | 0 <= i < |block| ensures !EventLine(block[i]) && !DataLine(block[i]) {
        assert block[i][0] == ':';
      }
    }
  }

  lemma {:induction false} FrameMeans(json: Decoder, block: seq<string>, at: seq<nat>, name: string, e: Event)
    requires IsFrameOf(json, block, at, name, e)
    ensures Meaning(json, block) == Frame(e)
  {
    var i :| 0 <= i < |block| && NamedAt(block, i, name);
    NoName(block);
    OneName(block);
    var j :| 0 <= j < |block| && NamedAt(block, j, Names(block)[0]);
    assert i == j;
    TrimsOnce(block[i][6..], name, Names(block)[0]);
    DecodedIff(json, name, JoinLines(Data(block)));
  }

  ghost predicate IsFrameOf(json: Decoder, block: seq<string>, at: seq<nat>, name: string, e: Event) {
    && (forall i :: 0 <= i < |block| ==> ":" <= block[i] || EventLine(block[i]) || DataLine(block[i]))
    && NamedOnce(block, name)
    && Data(block) != [] && ArePieces(block, at, Data(block))
    && IsEventOf(json, name, JoinLines(Data(block)), e)
  }

  // ---- where and why reading stops ----

  // The first line of the block that its earlier lines do not allow, and why.
  ghost predicate RefusedLine(block: seq<string>, i: nat, d: Diagnostic)
    requires i < |block|
  {
    && WellFormed(block[..i])
    && (if ":" <= block[i] || DataLine(block[i]) then false
        else if EventLine(block[i]) then d == DuplicateEventField && exists j :: 0 <= j < i && EventLine(block[j])
        else d == InvalidSseField)
  }

  // Why an event may not come after these events of the same stream.
  ghost predicate MayNotFollow(events: seq<Event>, e: Event, upstream: Option<string>, d: Diagnostic) {
    var kind, run := Field(e, "kind"), Field(e, "run_id");
    if events == [] && kind != "run.started" then d == MissingRunStarted
    else if events != [] && kind == "run.started" then d == DuplicateRunStarted
    else if events != [] && run != Field(events[0], "run_id") then d == RunIdChanged
    else
      && d == UpstreamSessionIdChanged && Sid(e) != ""
      && Session(events, upstream).Some? && Sid(e) != Session(events, upstream).value
  }

  // Why a block of allowed lines is refused after these events.
  ghost predicate RefusedFrame(json: Decoder, events: seq<Event>, upstream: Option<string>, block: seq<string>,
      d: Diagnostic)
  {
    if Names(block) == [] || Data(block) == [] then
      d == InvalidSseFrame && Names(block) + Data(block) != []
    else
      var name, data := Names(block)[0], JoinLines(Data(block));
      || NoEvent(json, name, data, d)
      || exists e :: IsEventOf(json, name, data, e) && MayNotFollow(events, e, upstream, d)
  }

  ghost predicate Refused(json: Decoder, events: seq<Event>, upstream: Option<string>, block: seq<string>, d: Diagnostic)
  {
    if WellFormed(block) then RefusedFrame(json, events, upstream, block, d)
    else exists i :: 0 <= i < |block| && RefusedLine(block, i, d)
  }

  // A session as an error reports it: an empty text may be left out.
  predicate Reports(reported: Option<string>, session: Option<string>) {
    reported == session || (reported == None && session == Some(""))
  }

  // What the client has seen of these events.
  predicate Observes(s: Stream, events: seq<Event>, upstream: Option<string>) {
    && s.partial == Partial(events) && s.upstream == Session(events, upstream)
    && s.saved == Kept(events, upstream) && s.seen == events
  }

  // After these events the block is refused, and the reading shows just them.
  ghost predicate StopsWith(json: Decoder, upstream: Option<string>, events: seq<Event>, block: seq<string>,
      reading: Reading)
    requires reading.fault.Some?
  {
    var fault := reading.fault.value;
    && Conforms(events, upstream) && (forall i :: 0 <= i < |events| ==> !Terminal(events[i]))
    && Refused(json, events, upstream, block, fault.diagnostic)
    && fault.code == "provider_protocol_error" && fault.partial == Partial(events)
    && Reports(fault.upstream, Session(events, upstream))
    && Observes(reading.stream, events, upstream)
  }

  // The blocks before the n-th delivered events that conform to those taken before; the n-th is refused.
  ghost predicate StopsAt(json: Decoder, upstream: Option<string>, taken: seq<Event>, blocks: seq<seq<string>>, n: nat,
      reading: Reading)
    requires n < |blocks| && reading.fault.Some?
  {
    var more := Events(json, blocks[..n]);
    more.Some? && StopsWith(json, upstream, taken + more.value, blocks[n], reading)
  }

  // A state in which these events, none of them terminal, have been taken.
  ghost predicate HasTaken(s: Stream, events: seq<Event>, upstream: Option<string>) {
    && Conforms(events, upstream) && (forall i :: 0 <= i < |events| ==> !Terminal(events[i]))
    && Clear(s) == StateAfter(events, upstream)
  }

  lemma {:induction false} TakenIsObserved(s: Stream, events: seq<Event>, upstream: Option<string>)
    requires HasTaken(s, events, upstream)
    ensures Observes(s, events, upstream) && s.terminal.None?
  {
    AllNonTerminal(events);
  }

  // A frame that is not taken is refused for its first flaw.
  lemma {:induction false} FrameRefused(json: Decoder, s: Stream, events: seq<Event>, upstream: Option<string>,
      block: seq<string>)
    requires HasTaken(s, events, upstream) && Holds(s, block) && ProcessFrame(json, s).Err?
    ensures var fault := ProcessFrame(json, s).error;
      && RefusedFrame(json, events, upstream, block, fault.diagnostic)
      && fault.code == "provider_protocol_error" && fault.partial == Partial(events)
      && Reports(fault.upstream, Session(events, upstream))
  {
    TakenIsObserved(s, events, upstream);
    if Names(block) != [] && Data(block) != [] {
      var name, data := Names(block)[0], JoinLines(Data(block));
      DecodedIff(json, name, data);
      var decoded := DecodeEvent(json, name, data);
      if decoded.Ok? {
        EventRefused(StateAfter(events, upstream), events, decoded.value, upstream);
      }
    }
  }

  lemma {:induction false} EventRefused(s: Stream, events: seq<Event>, e: Event, upstream: Option<string>)
    requires s == StateAfter(events, upstream) && s.terminal.None?
    ensures Take(s, e).Err? ==> MayNotFollow(events, e, upstream, Take(s, e).error)
  {
  }

  ghost predicate Stops(json: Decoder, upstream: Option<string>, taken: seq<Event>, blocks: seq<seq<string>>,
      reading: Reading)
  {
    reading.fault.Some? && exists n :: 0 <= n < |blocks| && StopsAt(json, upstream, taken, blocks, n, reading)
  }

  lemma {:induction false} StopsHere(json: Decoder, upstream: Option<string>, taken: seq<Event>,
      blocks: seq<seq<string>>, reading: Reading)
    requires blocks != [] && reading.fault.Some? && HasTaken(reading.stream, taken, upstream)
    requires var fault := reading.fault.value;
      && Refused(json, taken, upstream, blocks[0], fault.diagnostic) && fault.code == "provider_protocol_error"
      && fault.partial == Partial(taken) && Reports(fault.upstream, Session(taken, upstream))
    ensures Stops(json, upstream, taken, blocks, reading)
  {
    TakenIsObserved(reading.stream, taken, upstream);
    assert blocks[..0] == [] && taken + [] == taken;
    assert StopsAt(json, upstream, taken, blocks, 0, reading);
  }

  lemma {:induction false} StopsLater(json: Decoder, upstream: Option<string>, taken: seq<Event>,
      block: seq<string>, rest: seq<seq<string>>, reading: Reading)
    requires Meaning(json, block) == Nothing && Stops(json, upstream, taken, rest, reading)
    ensures Stops(json, upstream, taken, [block] + rest, reading)
  {
    var n: nat :| n < |rest| && StopsAt(json, upstream, taken, rest, n, reading);
    NoMoreEvents(json, block, rest[..n]);
    BlocksShift(block, rest, n);
    StopsThere(json, upstream, taken, [block] + rest, n + 1, Events(json, rest[..n]).value, reading);
  }

  lemma {:induction false} NoMoreEvents(json: Decoder, block: seq<string>, rest: seq<seq<string>>)
    requires Meaning(json, block) == Nothing
    ensures Events(json, [block] + rest) == Events(json, rest)
  {
    assert ([block] + rest)[0] == block && ([block] + rest)[1..] == rest;
  }

  lemma {:induction false} OneMoreEvent(json: Decoder, block: seq<string>, rest: seq<seq<string>>, e: Event)
    requires Meaning(json, block) == Frame(e) && !Terminal(e) && Events(json, rest).Some?
    ensures Events(json, [block] + rest) == Some([e] + Events(json, rest).value)
  {
    assert ([block] + rest)[0] == block && ([block] + rest)[1..] == rest;
  }

  lemma {:induction false} StopsAfter(json: Decoder, upstream: Option<string>, taken: seq<Event>, e: Event,
      block: seq<string>, rest: seq<seq<string>>, reading: Reading)
    requires Meaning(json, block) == Frame(e) && !Terminal(e)
    requires Stops(json, upstream, taken + [e], rest, reading)
    ensures Stops(json, upstream, taken, [block] + rest, reading)
  {
    var n: nat :| n < |rest| && StopsAt(json, upstream, taken + [e], rest, n, reading);
    var more := Events(json, rest[..n]).value;
    OneMoreEvent(json, block, rest[..n], e);
    Appended(taken, e, more);
    BlocksShift(block, rest, n);
    StopsThere(json, upstream, taken, [block] + rest, n + 1, [e] + more, reading);
  }

  lemma Appended(taken: seq<Event>, e: Event, more: seq<Event>)
    ensures taken + ([e] + more) == taken + [e] + more
  {
  }

  lemma BlocksShift(block: seq<string>, rest: seq<seq<string>>, n: nat)
    requires n < |rest|
    ensures ([block] + rest)[..n + 1] == [block] + rest[..n] && ([block] + rest)[n + 1] == rest[n]
  {
  }

  lemma {:induction false} StopsThere(json: Decoder, upstream: Option<string>, taken: seq<Event>,
      blocks: seq<seq<string>>, n: nat, more: seq<Event>, reading: Reading)
    requires n < |blocks| && reading.fault.Some? && Events(json, blocks[..n]) == Some(more)
    requires StopsWith(json, upstream, taken + more, blocks[n], reading)
    ensures Stops(json, upstream, taken, blocks, reading)
  {
    assert StopsAt(json, upstream, taken, blocks, n, reading);
  }

  lemma {:induction false} LineRefused(json: Decoder, s: Stream, taken: seq<Event>, upstream: Option<string>,
      open: seq<string>, lines: seq<string>)
    requires HasTaken(s, taken, upstream) && Holds(s, open) && "" !in open && lines != [] && lines[0] != ""
    requires StepLine(json, s, lines[0]).Err?
    ensures Stops(json, upstream, taken, Blocks(open, lines), Reading(s, Some(StepLine(json, s, lines[0]).error)))
  {
    var line, blocks, n := lines[0], Blocks(open, lines), |open|;
    var d := StepLine(json, s, line).error.diagnostic;
    BlocksAreTheLines(open + [line], lines[1..]);
    TakenIsObserved(s, taken, upstream);
    var block := blocks[0];
    assert open + [line] <= block;
    assert block[n] == line && block[..n] == open;
    NoName(open);
    assert RefusedLine(block, n, d);
    RefusedLineRefuses(block, n, d);
    StopsHere(json, upstream, taken, blocks, Reading(s, Some(StepLine(json, s, line).error)));
  }

  lemma {:induction false} RefusedLineRefuses(block: seq<string>, i: nat, d: Diagnostic)
    requires i < |block| && RefusedLine(block, i, d)
    ensures !WellFormed(block)
  {
    if EventLine(block[i]) {
      var j :| 0 <= j < i && EventLine(block[j]);
      NoName(block);
      OneName(block);
    }
  }

  /** A fault comes from the first block that is refused, for the first reason there is. */
  lemma {:induction false} ReadStops(json: Decoder, s: Stream, taken: seq<Event>, upstream: Option<string>,
      open: seq<string>, lines: seq<string>)
    requires HasTaken(s, taken, upstream) && Holds(s, open) && "" !in open
    requires Read(json, s, lines).fault.Some?
    ensures Stops(json, upstream, taken, Blocks(open, lines), Read(json, s, lines))
    decreases |lines|, 2
  {
    TakenIsObserved(s, taken, upstream);
    if lines == [] || lines[0] == "" {
      FrameTakesMeaning(json, s, open);
      var frame := ProcessFrame(json, s);
      if frame.Err? {
        FrameRefused(json, s, taken, upstream, open);
        StopsHere(json, upstream, taken, Blocks(open, lines), Reading(s, Some(frame.error)));
      } else if lines != [] {
        BlankStops(json, s, taken, upstream, open, lines);
      }
    } else {
      StepGrowsBlock(json, s, open, lines[0]);
      var step := StepLine(json, s, lines[0]);
      if step.Ok? {
        ReadStops(json, step.value, taken, upstream, open + [lines[0]], lines[1..]);
      } else {
        LineRefused(json, s, taken, upstream, open, lines);
      }
    }
  }

  lemma {:induction false} BlankStops(json: Decoder, s: Stream, taken: seq<Event>, upstream: Option<string>,
      open: seq<string>, lines: seq<string>)
    requires HasTaken(s, taken, upstream) && Holds(s, open) && lines != [] && lines[0] == ""
    requires ProcessFrame(json, s).Ok? && Read(json, s, lines).fault.Some?
    ensures Stops(json, upstream, taken, Blocks(open, lines), Read(json, s, lines))
    decreases |lines|, 1
  {
    FrameTakesMeaning(json, s, open);
    match Meaning(json, open)
    case Nothing => NothingStops(json, s, taken, upstream, open, lines);
    case Frame(e) => FrameStops(json, s, taken, upstream, open, lines, e);
    case Bad =>
  }

  // A block without an event changes nothing.
  lemma {:induction false} NothingStops(json: Decoder, s: Stream, taken: seq<Event>, upstream: Option<string>,
      open: seq<string>, lines: seq<string>)
    requires HasTaken(s, taken, upstream) && Holds(s, open) && lines != [] && lines[0] == ""
    requires Meaning(json, open) == Nothing && ProcessFrame(json, s) == Ok(s) && Read(json, s, lines).fault.Some?
    requires Idle(s)
    ensures Stops(json, upstream, taken, Blocks(open, lines), Read(json, s, lines))
    decreases |lines|, 0
  {
    TakenIsObserved(s, taken, upstream);
    ReadStops(json, s, taken, upstream, [], lines[1..]);
    StopsLater(json, upstream, taken, open, Blocks([], lines[1..]), Read(json, s, lines));
  }

  // After an event that is taken, reading goes on unless the event is terminal.
  lemma {:induction false} FrameStops(json: Decoder, s: Stream, taken: seq<Event>, upstream: Option<string>,
      open: seq<string>, lines: seq<string>, e: Event)
    requires HasTaken(s, taken, upstream) && Holds(s, open) && lines != [] && lines[0] == ""
    requires Meaning(json, open) == Frame(e) && ProcessFrame(json, s).Ok? && Read(json, s, lines).fault.Some?
    ensures Stops(json, upstream, taken, Blocks(open, lines), Read(json, s, lines))
    decreases |lines|, 0
  {
    TakenIsObserved(s, taken, upstream);
    FrameTakesMeaning(json, s, open);
    var next := ProcessFrame(json, s).value;
    NextConforms(taken, e, upstream);
    ClosedReadsNothing(json, next);
    if !Terminal(e) {
      assert Clear(next) == next;
      ReadStops(json, next, taken + [e], upstream, [], lines[1..]);
      StopsAfter(json, upstream, taken, e, open, Blocks([], lines[1..]), Read(json, s, lines));
    }
  }

  /**
    When reading meets a fault, the blocks before one of them deliver events that could all be
    taken, that one is refused for its first flaw, and the client has seen just those events; the
    fault carries their text and session.
  */
  lemma {:induction false} FaultOfStream(json: Decoder, upstream: Option<string>, lines: seq<string>)
    ensures var reading := Read(json, Start(upstream), lines);
      reading.fault.Some? ==> Stops(json, upstream, [], Blocks([], lines), reading)
  {
    var s := Start(upstream);
    assert Clear(s) == s == StateAfter([], upstream);
    if Read(json, s, lines).fault.Some? {
      ReadStops(json, s, [], upstream, [], lines);
    }
  }

  // ---- what a terminal event turns into ----

  predicate FailureCode(code: string) {
    || code == "provider_unavailable" || code == "provider_not_ready" || code == "provider_auth_required"
    || code == "provider_rate_limited" || code == "provider_protocol_error" || code == "provider_process_failed"
  }

  predicate AbortCode(code: string) { code == "run_cancelled" || code == "run_timeout" }

  predicate Counted(key: string) {
    || key == "input_tokens" || key == "output_tokens"
    || key == "cache_creation_input_tokens" || key == "cache_read_input_tokens"
  }

  // The event counts n tokens under this key.
  predicate Counts(e: Event, key: string, n: int) {
    Counted(key) && "usage" in e && e["usage"].JObject? && key in e["usage"].fields && e["usage"].fields[key] == JInt(n)
  }

  // The usage holds exactly the counts of the event, and there is none when it counts nothing.
  ghost predicate UsageIs(e: Event, usage: Option<map<string, int>>) {
    && (usage == None <==> forall key, n :: !Counts(e, key, n))
    && (usage.Some? ==> forall key, n :: key in usage.value && usage.value[key] == n <==> Counts(e, key, n))
  }

  lemma {:induction false} UsageOfEvent(e: Event)
    ensures UsageIs(e, UsageOf(Get(e, "usage")))
  {
    var usage := UsageOf(Get(e, "usage"));
    if "usage" in e && e["usage"].JObject? {
      var fields := e["usage"].fields;
      assert forall key :: key in USAGE_KEYS <==> Counted(key);
      if usage == None {
        forall key, n ensures !Counts(e, key, n) {
          var counts := map k | k in USAGE_KEYS && k in fields && fields[k].JInt? :: fields[k].number;
          assert counts == map[] && key !in counts;
        }
      } else {
        var key :| key in usage.value;
        assert Counts(e, key, usage.value[key]);
      }
    }
  }

  // The flaw of an item of the list of calls.
  predicate FlawOf(item: Json, d: Diagnostic) {
    if !item.JObject? then d == InvalidToolCall
    else if Field(item.fields, "id") == "" then d == InvalidToolCallId
    else if Field(item.fields, "name") == "" then d == InvalidToolCallName
    else !ValidCall(item) && d == InvalidToolCallArguments
  }

  predicate FlawedAt(items: seq<Json>, i: nat, d: Diagnostic)
    requires i < |items|
  {
    FlawOf(items[i], d) && forall j :: 0 <= j < i ==> ValidCall(items[j])
  }

  // The first item that is not a call is refused for its flaw.
  lemma {:induction false} FirstFlaw(items: seq<Json>)
    ensures CallsOf(items).Err? ==> exists i :: 0 <= i < |items| && FlawedAt(items, i, CallsOf(items).error)
  {
    if items != [] && CallsOf(items).Err? {
      if CallOf(items[0]).Err? {
        assert FlawedAt(items, 0, CallsOf(items).error);
      } else {
        FirstFlaw(items[1..]);
        var i :| 0 <= i < |items[1..]| && FlawedAt(items[1..], i, CallsOf(items).error);
        assert items[i + 1] == items[1..][i];
        assert forall j :: 0 < j <= i ==> items[j] == items[1..][j - 1];
        assert FlawedAt(items, i + 1, CallsOf(items).error);
      }
    }
  }

  // The terminal event can be turned into an outcome of its kind.
  predicate Sound(e: Event) {
    match Field(e, "kind")
    case "run.completed" => ValidCalls(e)
    case "run.failed" => "error_code" in e ==> FailureCode(Field(e, "error_code"))
    case _ => "error_code" in e && AbortCode(Field(e, "error_code"))
  }

  function TextOr(text: string, default: string): string { if text == "" then default else text }

  // The outcome says what the event says, for the session named last.
  ghost predicate Says(outcome: Outcome, e: Event, session: Option<string>) {
    match Field(e, "kind")
    case "run.completed" =>
      && outcome.Response? && outcome.content == Field(e, "content") && outcome.session == session
      && AreCallsOf(outcome.calls, CallItems(e)) && UsageIs(e, outcome.usage)
    case "run.failed" =>
      outcome == RunFailed(
        if "error_code" in e then Field(e, "error_code") else "provider_process_failed",
        TextOr(Field(e, "error"), "remote_run_failed"), Field(e, "partial_content"), session)
    case _ =>
      outcome == RunAborted(
        Field(e, "error_code"), TextOr(Field(e, "error"), "remote_run_aborted"), Field(e, "partial_content"), session)
  }

  // Why the terminal event cannot be turned into an outcome.
  ghost predicate Unsound(e: Event, d: Diagnostic) {
    if Field(e, "kind") == "run.completed" then
      exists i :: 0 <= i < |CallItems(e)| && FlawedAt(CallItems(e), i, d)
    else d == InvalidTerminalErrorCode
  }

  function SessionFrom(e: Event, session: Option<string>): Option<string> {
    if Sid(e) != "" then Some(Sid(e)) else session
  }

  lemma {:induction false} CompletedDecides(e: Event, upstream: Option<string>)
    requires IsEvent(e) && Field(e, "kind") == "run.completed"
    ensures var result := TerminalResult(e, upstream);
      && (result.Ok? <==> Sound(e))
      && (result.Ok? ==> Says(result.value, e, SessionFrom(e, upstream)))
      && (result.Err? ==> Unsound(e, result.error))
  {
    assert "content" in STRING_FIELDS;
    UsageOfEvent(e);
    ResponseOfTerminal(e, upstream);
    if "tool_calls" in e {
      FirstFlaw(e["tool_calls"].items);
      assert CallItems(e) == e["tool_calls"].items && ToolCallsOf(Get(e, "tool_calls")) == CallsOf(CallItems(e));
    }
  }

  lemma {:induction false} FailedDecides(e: Event, upstream: Option<string>)
    requires IsEvent(e) && Field(e, "kind") == "run.failed"
    ensures var result := TerminalResult(e, upstream);
      && (result.Ok? <==> Sound(e))
      && (result.Ok? ==> Says(result.value, e, SessionFrom(e, upstream)))
      && (result.Err? ==> Unsound(e, result.error))
  {
    assert "error" in STRING_FIELDS && "error_code" in STRING_FIELDS && "partial_content" in STRING_FIELDS;
    assert forall code :: code in FAILURE_CODES <==> FailureCode(code);
  }

  lemma {:induction false} AbortedDecides(e: Event, upstream: Option<string>)
    requires IsEvent(e) && Field(e, "kind") == "run.aborted"
    ensures var result := TerminalResult(e, upstream);
      && (result.Ok? <==> Sound(e))
      && (result.Ok? ==> Says(result.value, e, SessionFrom(e, upstream)))
      && (result.Err? ==> Unsound(e, result.error))
  {
    assert "error" in STRING_FIELDS && "error_code" in STRING_FIELDS && "partial_content" in STRING_FIELDS;
    assert forall code :: code in ABORT_CODES <==> AbortCode(code);
    assert !AbortCode("");
  }

  lemma {:induction false} TerminalDecides(e: Event, upstream: Option<string>)
    requires IsEvent(e) && Terminal(e)
    ensures var result := TerminalResult(e, upstream);
      && (result.Ok? <==> Sound(e))
      && (result.Ok? ==> Says(result.value, e, SessionFrom(e, upstream)))
      && (result.Err? ==> Unsound(e, result.error))
  {
    TerminalKinds(e);
    if Field(e, "kind") == "run.completed" {
      CompletedDecides(e, upstream);
    } else if Field(e, "kind") == "run.failed" {
      FailedDecides(e, upstream);
    } else {
      AbortedDecides(e, upstream);
    }
  }

  // ---- the text and the session of a run ----

  function LastOf(events: seq<Event>): Event
    requires events != []
  {
    events[|events| - 1]
  }

  predicate NoSnapshot(events: seq<Event>) { forall k :: 0 <= k < |events| ==> !Replaces(events[k]) }

  // The terminal event gives the text of the run itself.
  predicate Restated(events: seq<Event>) {
    events != [] && Terminal(LastOf(events)) && Text(LastOf(events), "partial_content")
  }

  lemma {:induction false} DeltasOnly(events: seq<Event>)
    requires NoSnapshot(events) && forall k :: 0 <= k < |events| ==> !Terminal(events[k])
    ensures Partial(events) == DeltaText(events)
  {
    if events != [] {
      var init := events[..|events| - 1];
      assert forall k :: 0 <= k < |init| ==> init[k] == events[k];
      DeltasOnly(init);
    }
  }

  // A terminal event that gives no text leaves it as it was.
  lemma {:induction false} SilentEnd(init: seq<Event>, last: Event)
    requires Terminal(last) && !Text(last, "partial_content")
    ensures Partial(init + [last]) == Partial(init) && DeltaText(init + [last]) == DeltaText(init) && !Replaces(last)
  {
    TerminalKinds(last);
    assert (init + [last])[..|init|] == init;
  }

  lemma {:induction false} TextOfOpen(events: seq<Event>, i: nat)
    requires forall k :: 0 <= k < |events| ==> !Terminal(events[k])
    ensures NoSnapshot(events) ==> Partial(events) == DeltaText(events)
    ensures i < |events| && Replaces(events[i]) && NoSnapshot(events[i + 1..]) ==>
        Partial(events) == Field(events[i], "text") + DeltaText(events[i + 1..])
  {
    if NoSnapshot(events) {
      DeltasOnly(events);
    }
    if i < |events| && Replaces(events[i]) && NoSnapshot(events[i + 1..]) {
      assert events == events[..i] + [events[i]] + events[i + 1..];
      PartialSinceSnapshot(events[..i], events[i], events[i + 1..]);
    }
  }

  /**
    The text a run has come to: the partial text its terminal event gives, if it does; otherwise
    the last snapshot and the deltas since, or all deltas when there was no snapshot.
  */
  lemma {:induction false} TextOfRun(events: seq<Event>, i: nat)
    requires forall k :: 0 <= k < |events| - 1 ==> !Terminal(events[k])
    ensures Restated(events) ==> Partial(events) == LastOf(events)["partial_content"].text
    ensures !Restated(events) && NoSnapshot(events) ==> Partial(events) == DeltaText(events)
    ensures !Restated(events) && i < |events| && Replaces(events[i]) && NoSnapshot(events[i + 1..]) ==>
        Partial(events) == Field(events[i], "text") + DeltaText(events[i + 1..])
  {
    if events != [] && Terminal(LastOf(events)) {
      var init, last := events[..|events| - 1], LastOf(events);
      assert events == init + [last];
      if !Restated(events) {
        SilentEnd(init, last);
        TextOfOpen(init, i);
        if i < |init| && Replaces(events[i]) && NoSnapshot(events[i + 1..]) {
          SnapshotsOfInit(init, last, i + 1);
          SilentEnd(init[i + 1..], last);
          assert events[i + 1..] == init[i + 1..] + [last];
        }
        SnapshotsOfInit(init, last, 0);
      }
    } else {
      TextOfOpen(events, i);
    }
  }

  lemma {:induction false} SnapshotsOfInit(init: seq<Event>, last: Event, from: nat)
    requires from <= |init|
    ensures NoSnapshot((init + [last])[from..]) ==> NoSnapshot(init[from..])
  {
    assert (init + [last])[from..] == init[from..] + [last];
    assert forall k :: 0 <= k < |init[from..]| ==> (init[from..] + [last])[k] == init[from..][k];
  }

  /** The session of a run is the one its events name, or else the one known before. */
  lemma {:induction false} SessionOfRun(events: seq<Event>, upstream: Option<string>)
    requires Conforms(events, upstream)
    ensures forall i :: 0 <= i < |events| && Sid(events[i]) != "" ==> Session(events, upstream) == Some(Sid(events[i]))
    ensures (forall i :: 0 <= i < |events| ==> Sid(events[i]) == "") ==> Session(events, upstream) == upstream
  {
    SessionIsNamed(events, upstream);
  }

  predicate Updates(e: Event) { Field(e, "kind") == "session.updated" && Sid(e) != "" }

  /** It is kept for later runs exactly when an event updated it. */
  lemma {:induction false} KeptOfRun(events: seq<Event>, upstream: Option<string>)
    requires Conforms(events, upstream)
    ensures (exists i :: 0 <= i < |events| && Updates(events[i])) ==> Kept(events, upstream) == Session(events, upstream)
    ensures (forall i :: 0 <= i < |events| ==> !Updates(events[i])) ==> Kept(events, upstream) == upstream
    decreases |events|
  {
    if events != [] {
      var n := |events| - 1;
      var init, last := events[..n], events[n];
      assert events == init + [last] && forall k :: 0 <= k < n ==> init[k] == events[k];
      ConformingPrefix(init, last, upstream);
      KeptOfRun(init, upstream);
      SessionOfRun(events, upstream);
      SessionOfRun(init, upstream);
      if !Updates(last) && exists i :: 0 <= i < |events| && Updates(events[i]) {
        var i :| 0 <= i < |events| && Updates(events[i]);
        assert Updates(init[i]);
      }
    }
  }

  // ---- the outcome ----

  // The events make a whole run.
  predicate Ended(events: seq<Event>) { events != [] && Terminal(LastOf(events)) }

  // The fault of a stream whose events conform but cannot be turned into an outcome.
  ghost predicate EndsBadly(events: seq<Event>, upstream: Option<string>, fault: Fault) {
    && fault.partial == Partial(events) && Reports(fault.upstream, Session(events, upstream))
    && if Ended(events) then
         Unsound(LastOf(events), fault.diagnostic) && fault.code == "provider_protocol_error"
       else if events == [] then
         fault.diagnostic == MissingRunStarted && fault.code == "provider_protocol_error"
       else
         fault.diagnostic == MissingTerminal && fault.code == "upstream_stream_incomplete"
  }

  ghost predicate DecidedBy(json: Decoder, upstream: Option<string>, lines: seq<string>, outcome: Outcome) {
    var events := Delivered(json, lines);
    if events.Some? && Conforms(events.value, upstream) then
      if Ended(events.value) && Sound(LastOf(events.value)) then
        Says(outcome, LastOf(events.value), Session(events.value, upstream))
      else outcome.Protocol? && EndsBadly(events.value, upstream, outcome.fault)
    else outcome.Protocol? && exists s :: Stops(json, upstream, [], Blocks([], lines), Reading(s, Some(outcome.fault)))
  }

  lemma {:induction false} ReadState(json: Decoder, upstream: Option<string>, lines: seq<string>)
    ensures var reading, events := Read(json, Start(upstream), lines), Delivered(json, lines);
      && (reading.fault.None? <==> events.Some? && Conforms(events.value, upstream))
      && (reading.fault.None? ==> reading.stream == StateAfter(events.value, upstream))
  {
    var s := Start(upstream);
    ReadTakesEvents(json, s, [], lines);
    assert Clear(s) == s;
    var events := Delivered(json, lines);
    if events.Some? {
      TakenIffConforms(events.value, upstream);
    }
  }

  // The text and session put into a fault at the end are those it already has.
  lemma {:induction false} SameFaultInContext(json: Decoder, upstream: Option<string>, blocks: seq<seq<string>>,
      reading: Reading)
    requires Stops(json, upstream, [], blocks, reading)
    ensures var s := reading.stream;
      Stops(json, upstream, [], blocks, Reading(s, Some(WithContext(reading.fault.value, s.partial, s.upstream))))
  {
    var s, n: nat :| s == reading.stream && n < |blocks| && StopsAt(json, upstream, [], blocks, n, reading);
    var more := Events(json, blocks[..n]).value;
    var again := Reading(s, Some(WithContext(reading.fault.value, s.partial, s.upstream)));
    assert [] + more == more;
    assert StopsWith(json, upstream, more, blocks[n], again);
    StopsThere(json, upstream, [], blocks, n, more, again);
  }

  lemma {:induction false} ConcludeDecides(events: seq<Event>, upstream: Option<string>)
    requires Conforms(events, upstream) && (events != [] ==> IsEvent(LastOf(events)))
    ensures var outcome := Conclude(Reading(StateAfter(events, upstream), None));
      if Ended(events) && Sound(LastOf(events)) then Says(outcome, LastOf(events), Session(events, upstream))
      else outcome.Protocol? && EndsBadly(events, upstream, outcome.fault)
  {
    if Ended(events) {
      TerminalDecides(LastOf(events), Session(events, upstream));
      SessionIsLast(events, upstream);
    }
  }

  /**
    The outcome of every stream: what its terminal event says when its events conform and end in a
    sound one, and otherwise the fault that names the first flaw, with the text and session so far.
  */
  lemma {:induction false} OutcomeDecided(json: Decoder, upstream: Option<string>, lines: seq<string>)
    ensures DecidedBy(json, upstream, lines, Complete(json, upstream, lines))
  {
    var reading, events := Read(json, Start(upstream), lines), Delivered(json, lines);
    ReadState(json, upstream, lines);
    FaultOfStream(json, upstream, lines);
    if reading.fault.None? {
      DeliveredAreEvents(json, Blocks([], lines));
      ConcludeDecides(events.value, upstream);
    } else {
      SameFaultInContext(json, upstream, Blocks([], lines), reading);
    }
  }
}
