/**
  What a stream means, said without the reader: lines split into blocks at blank lines, blocks
  decoded to events, and the rules a whole event sequence keeps. The reader agrees with it.
*/
module EventStreamSpec {
  import opened Outcomes
  import opened Strings
  import opened EventStream

  // ---- blocks ----

  // The lines between blank lines; `open` holds the lines already in the first block.
  function Blocks(open: seq<string>, lines: seq<string>): seq<seq<string>>
    decreases |lines|
  {
    if lines == [] then [open]
    else if lines[0] == "" then [open] + Blocks([], lines[1..])
    else Blocks(open + [lines[0]], lines[1..])
  }

  function Names(block: seq<string>): seq<string> {
    if block == [] then []
    else
      var last := block[|block| - 1];
      Names(block[..|block| - 1]) + if !Comment(last) && "event:" <= last then [Strip(last[6..])] else []
  }

  function Data(block: seq<string>): seq<string> {
    if block == [] then []
    else
      var last := block[|block| - 1];
      Data(block[..|block| - 1]) + if !Comment(last) && "data:" <= last then [LStrip(last[5..])] else []
  }

  predicate KnownField(line: string) { Comment(line) || "event:" <= line || "data:" <= line }

  // Only comments, data lines and at most one event line.
  predicate WellFormed(block: seq<string>) {
    && (forall i :: 0 <= i < |block| ==> KnownField(block[i]))
    && |Names(block)| <= 1
  }

  // A block holds nothing, one event, or something that is refused.
  datatype BlockMeaning = Nothing | Bad | Frame(event: Event)

  function Meaning(json: Decoder, block: seq<string>): BlockMeaning {
    if !WellFormed(block) then Bad
    else if Names(block) == [] && Data(block) == [] then Nothing
    else if Names(block) == [] || Data(block) == [] then Bad
    else
      var event := DecodeEvent(json, Names(block)[0], JoinLines(Data(block)));
      if event.Err? then Bad else Frame(event.value)
  }

  // The events up to the first terminal one, or None when a block before it is refused.
  function Events(json: Decoder, blocks: seq<seq<string>>): Option<seq<Event>> {
    if blocks == [] then Some([])
    else
      match Meaning(json, blocks[0])
      case Bad => None
      case Nothing => Events(json, blocks[1..])
      case Frame(e) =>
        if Terminal(e) then Some([e])
        else
          var rest := Events(json, blocks[1..]);
          if rest.None? then None else Some([e] + rest.value)
  }

  // ---- event sequences ----

  function Sid(e: Event): string { Field(e, "upstream_session_id") }

  /**
    One start, first; nothing after a terminal event; one run; one upstream session, the one
    the client already had if it had one.
  */
  predicate Conforms(events: seq<Event>, upstream: Option<string>) {
    && (forall i :: 0 <= i < |events| ==> (Field(events[i], "kind") == "run.started" <==> i == 0))
    && (forall i :: 0 <= i < |events| - 1 ==> !Terminal(events[i]))
    && (forall i :: 0 <= i < |events| ==> Field(events[i], "run_id") == Field(events[0], "run_id"))
    && (forall i, j :: 0 <= i < |events| && 0 <= j < |events| && Sid(events[i]) != "" && Sid(events[j]) != "" ==>
          Sid(events[i]) == Sid(events[j]))
    && (upstream.Some? ==> forall i :: 0 <= i < |events| && Sid(events[i]) != "" ==> Sid(events[i]) == upstream.value)
  }

  // The session the events name, or the one known before.
  function Session(events: seq<Event>, upstream: Option<string>): Option<string> {
    if events == [] then upstream
    else
      var last := events[|events| - 1];
      if Sid(last) != "" then Some(Sid(last)) else Session(events[..|events| - 1], upstream)
  }

  // The session the client keeps: only a session update changes it.
  function Kept(events: seq<Event>, upstream: Option<string>): Option<string> {
    if events == [] then upstream
    else
      var last := events[|events| - 1];
      if Sid(last) != "" && Field(last, "kind") == "session.updated" then Some(Sid(last))
      else Kept(events[..|events| - 1], upstream)
  }

  function Partial(events: seq<Event>): string {
    if events == [] then "" else PartialAfter(Partial(events[..|events| - 1]), events[|events| - 1])
  }

  function NonTerminals(events: seq<Event>): seq<Event> {
    if events == [] then []
    else
      NonTerminals(events[..|events| - 1]) + if Terminal(events[|events| - 1]) then [] else [events[|events| - 1]]
  }

  // ---- the reader takes the events of the blocks ----

  function TakeAll(s: Stream, events: seq<Event>): Option<Stream>
    decreases |events|
  {
    if events == [] then Some(s)
    else
      var next := Take(s, events[0]);
      if next.Err? then None else TakeAll(next.value, events[1..])
  }

  // The reader's open frame is the block read so far.
  predicate Holds(s: Stream, open: seq<string>) {
    && WellFormed(open)
    && s.frameData == Data(open)
    && s.frameEvent == (if Names(open) == [] then None else Some(Names(open)[0]))
  }

  lemma StepGrowsBlock(json: Decoder, s: Stream, open: seq<string>, line: string)
    requires Holds(s, open) && line != ""
    ensures StepLine(json, s, line).Ok? <==> WellFormed(open + [line])
    ensures StepLine(json, s, line).Ok? ==>
      && Holds(StepLine(json, s, line).value, open + [line])
      && Clear(StepLine(json, s, line).value) == Clear(s)
  {
    var grown := open + [line];
    assert grown[..|grown| - 1] == open && grown[|open|] == line;
    assert forall i :: 0 <= i < |open| ==> grown[i] == open[i];
  }

  lemma {:induction false} RefusedStaysRefused(json: Decoder, open: seq<string>, lines: seq<string>)
    requires !WellFormed(open)
    ensures Events(json, Blocks(open, lines)) == None
    decreases |lines|
  {
    if lines != [] && lines[0] != "" {
      var grown := open + [lines[0]];
      assert grown[..|grown| - 1] == open;
      assert forall i :: 0 <= i < |open| ==> grown[i] == open[i];
      RefusedStaysRefused(json, grown, lines[1..]);
    }
  }

  lemma FrameTakesMeaning(json: Decoder, s: Stream, open: seq<string>)
    requires Holds(s, open)
    ensures var frame := ProcessFrame(json, s);
      match Meaning(json, open)
      case Nothing => frame == Ok(s) && Idle(s)
      case Bad => frame.Err?
      case Frame(e) =>
        var taken := Take(Clear(s), e);
        if taken.Err? then frame.Err? else frame == Ok(taken.value) && Idle(taken.value)
  {
  }

  lemma ClosedReadsNothing(json: Decoder, s: Stream)
    requires Idle(s)
    ensures Close(json, s) == Reading(s, None)
  {
  }

  /**
    Reading succeeds exactly when the lines up to the first terminal frame decode to events
    that can all be taken, and then ends in the state after them.
  */
  lemma {:induction false} ReadTakesEvents(json: Decoder, s: Stream, open: seq<string>, lines: seq<string>)
    requires Holds(s, open) && s.terminal.None?
    ensures var reading, events := Read(json, s, lines), Events(json, Blocks(open, lines));
      && (reading.fault.None? <==> events.Some? && TakeAll(Clear(s), events.value).Some?)
      && (reading.fault.None? ==> reading.stream == TakeAll(Clear(s), events.value).value)
    decreases |lines|
  {
    if lines == [] {
      LastBlock(json, s, open);
    } else if lines[0] == "" {
      BlankLine(json, s, open, lines);
    } else {
      StepGrowsBlock(json, s, open, lines[0]);
      if WellFormed(open + [lines[0]]) {
        ReadTakesEvents(json, StepLine(json, s, lines[0]).value, open + [lines[0]], lines[1..]);
      } else {
        RefusedStaysRefused(json, open + [lines[0]], lines[1..]);
      }
    }
  }

  lemma LastBlock(json: Decoder, s: Stream, open: seq<string>)
    requires Holds(s, open) && s.terminal.None?
    ensures var reading, events := Close(json, s), Events(json, [open]);
      && (reading.fault.None? <==> events.Some? && TakeAll(Clear(s), events.value).Some?)
      && (reading.fault.None? ==> reading.stream == TakeAll(Clear(s), events.value).value)
  {
    FrameTakesMeaning(json, s, open);
    assert Events(json, [open][1..]) == Some([]);
    if Meaning(json, open).Frame? {
      TakeOne(Clear(s), Meaning(json, open).event);
    }
  }

  lemma TakeOne(s: Stream, e: Event)
    ensures TakeAll(s, [e]) == (if Take(s, e).Err? then None else Some(Take(s, e).value))
  {
    assert [e][1..] == [];
  }

  lemma BlankLine(json: Decoder, s: Stream, open: seq<string>, lines: seq<string>)
    requires Holds(s, open) && s.terminal.None? && lines != [] && lines[0] == ""
    ensures var reading, events := Read(json, s, lines), Events(json, Blocks(open, lines));
      && (reading.fault.None? <==> events.Some? && TakeAll(Clear(s), events.value).Some?)
      && (reading.fault.None? ==> reading.stream == TakeAll(Clear(s), events.value).value)
    decreases |lines|, 0
  {
    FrameTakesMeaning(json, s, open);
    var rest := Blocks([], lines[1..]);
    assert Blocks(open, lines)[1..] == rest && Blocks(open, lines)[0] == open;
    match Meaning(json, open)
    case Bad =>
    case Nothing =>
      ReadTakesEvents(json, s, [], lines[1..]);
      assert Clear(s) == s;
    case Frame(e) =>
      TakeOne(Clear(s), e);
      var taken := Take(Clear(s), e);
      if taken.Ok? {
        if Terminal(e) {
          ClosedReadsNothing(json, taken.value);
        } else {
          ReadTakesEvents(json, taken.value, [], lines[1..]);
          assert Clear(taken.value) == taken.value;
        }
      }
      forall more: seq<Event> ensures TakeAll(Clear(s), [e] + more)
          == (if taken.Err? then None else TakeAll(taken.value, more)) {
        assert ([e] + more)[1..] == more;
      }
  }

  // ---- which event sequences can be taken ----

  function StateAfter(events: seq<Event>, upstream: Option<string>): Stream {
    Stream(None, [], Partial(events), Session(events, upstream), Kept(events, upstream),
           if events == [] then None else Some(Field(events[0], "run_id")), |events|, events != [],
           if events != [] && Terminal(events[|events| - 1]) then Some(events[|events| - 1])
               else None, NonTerminals(events))
  }

  lemma {:induction false} SessionIsNamed(events: seq<Event>, upstream: Option<string>)
    ensures var session := Session(events, upstream);
      || (session == upstream && forall i :: 0 <= i < |events| ==> Sid(events[i]) == "")
      || (exists i :: 0 <= i < |events| && Sid(events[i]) != "" && session == Some(Sid(events[i])))
  {
    if events != [] {
      var init, last := events[..|events| - 1], events[|events| - 1];
      SessionIsNamed(init, upstream);
      assert forall i :: 0 <= i < |init| ==> events[i] == init[i];
      if Sid(last) == "" {
        if !(forall i :: 0 <= i < |init| ==> Sid(init[i]) == "") {
          var i :| 0 <= i < |init| && Sid(init[i]) != "" && Session(init, upstream) == Some(Sid(init[i]));
          assert Sid(events[i]) != "";
        }
      } else {
        assert events[|init|] == last;
      }
    }
  }

  lemma ConformingPrefix(events: seq<Event>, e: Event, upstream: Option<string>)
    requires Conforms(events + [e], upstream)
    ensures Conforms(events, upstream)
  {
    var all := events + [e];
    assert forall i :: 0 <= i < |events| ==> all[i] == events[i];
  }

  // The rules a sequence puts on its next event.
  predicate MayFollow(events: seq<Event>, e: Event, upstream: Option<string>) {
    && (Field(e, "kind") == "run.started" <==> events == [])
    && (events != [] ==> !Terminal(events[|events| - 1]) && Field(e, "run_id") == Field(events[0], "run_id"))
    && (Sid(e) != "" && Session(events, upstream).Some? ==> Sid(e) == Session(events, upstream).value)
  }

  lemma ConformingGrows(events: seq<Event>, e: Event, upstream: Option<string>)
    requires Conforms(events, upstream) && MayFollow(events, e, upstream)
    ensures Conforms(events + [e], upstream)
  {
    var all, n := events + [e], |events|;
    assert all[n] == e && forall i :: 0 <= i < n ==> all[i] == events[i];
    SessionIsNamed(events, upstream);
  }

  lemma ConformingMayFollow(events: seq<Event>, e: Event, upstream: Option<string>)
    requires Conforms(events + [e], upstream)
    ensures MayFollow(events, e, upstream)
  {
    var all, n := events + [e], |events|;
    assert all[n] == e && forall i :: 0 <= i < n ==> all[i] == events[i];
    SessionIsNamed(events, upstream);
    assert n > 0 ==> !Terminal(all[n - 1]);
  }

  lemma StateGrows(events: seq<Event>, e: Event, upstream: Option<string>)
    requires MayFollow(events, e, upstream)
    ensures Take(StateAfter(events, upstream), e) == Ok(StateAfter(events + [e], upstream))
  {
    var all := events + [e];
    assert all[|all| - 1] == e && all[..|all| - 1] == events;
    assert events != [] ==> all[0] == events[0];
    var before, after := StateAfter(events, upstream), StateAfter(all, upstream);
    assert Take(before, e).Ok?;
    var taken := Take(before, e).value;
    assert taken.seen == after.seen && taken.terminal == after.terminal && taken.runId == after.runId;
  }

  // The reader refuses the next event exactly when it breaks a rule of the sequence.
  lemma NextConforms(events: seq<Event>, e: Event, upstream: Option<string>)
    requires Conforms(events, upstream)
    ensures Take(StateAfter(events, upstream), e).Ok? <==> Conforms(events + [e], upstream)
    ensures Conforms(events + [e], upstream) ==>
        Take(StateAfter(events, upstream), e) == Ok(StateAfter(events + [e], upstream))
  {
    if MayFollow(events, e, upstream) {
      ConformingGrows(events, e, upstream);
      StateGrows(events, e, upstream);
    } else if Conforms(events + [e], upstream) {
      ConformingMayFollow(events, e, upstream);
    }
  }

  lemma {:induction false} TakeAllThenOne(s: Stream, events: seq<Event>, e: Event)
    ensures TakeAll(s, events + [e]) ==
      var before := TakeAll(s, events);
      if before.None? || Take(before.value, e).Err? then None else Some(Take(before.value, e).value)
    decreases |events|
  {
    if events == [] {
      TakeOne(s, e);
      assert events + [e] == [e];
    } else {
      assert (events + [e])[0] == events[0] && (events + [e])[1..] == events[1..] + [e];
      if Take(s, events[0]).Ok? {
        TakeAllThenOne(Take(s, events[0]).value, events[1..], e);
      }
    }
  }

  lemma {:induction false} TakenIffConforms(events: seq<Event>, upstream: Option<string>)
    ensures TakeAll(Start(upstream), events).Some? <==> Conforms(events, upstream)
    ensures Conforms(events, upstream) ==> TakeAll(Start(upstream), events) == Some(StateAfter(events, upstream))
    decreases |events|
  {
    if events != [] {
      var init, last := events[..|events| - 1], events[|events| - 1];
      assert events == init + [last];
      TakenIffConforms(init, upstream);
      TakeAllThenOne(Start(upstream), init, last);
      if Conforms(init, upstream) {
        NextConforms(init, last, upstream);
      } else if Conforms(events, upstream) {
        ConformingPrefix(init, last, upstream);
      }
    }
  }
}
