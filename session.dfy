/** The session state the stream updates, and the state updaters of the
    dispatch (App.tsx, the bodies of the two `for` loops over `parts`).

    The state has an append-only chat log, the ephemeral message shown next
    to each agent, the single interrupt slot, and the expiry timers still to
    fire. Every timer waits the same 2000 ms, so they fire in the order they
    were scheduled; the model keeps them as a queue of the keys they will
    delete and fires them with an explicit step. */
module Session {
  import opened Records

  /** Which of the two stream loops is running: the one behind
      `handleChatSend` or the one behind `handleInterruptSubmit`. */
  datatype Flow = Send | Resume

  datatype SessionState = SessionState(
    chatLog: seq<ChatEntry>,
    ephemeral: map<string, string>,
    interrupt: Value,
    pending: seq<string>)

  /** The updater a timer applies: copy the ephemeral messages and delete
      one key. */
  function Expire(m: map<string, string>, key: string): (r: map<string, string>)
    ensures key !in r
    ensures forall k :: k in m && k != key ==> k in r && r[k] == m[k]
    ensures forall k :: k in r ==> k in m
  {
    m - {key}
  }

  /** The keys whose deletion one parsed record schedules. The send loop
      schedules one only for an ephemeral update; the resume loop schedules
      one after every parsed record, for `String(data.agent)`. */
  function Scheduled(r: Record, flow: Flow): (keys: seq<string>)
    ensures |keys| <= 1
    ensures IsEphemeral(r) ==> keys == [r.agent.s]
    ensures flow == Send ==> (keys == [] <==> !IsEphemeral(r))
    ensures flow == Resume ==> keys == [PropertyKey(r.agent)]
  {
    match flow
    case Send => if IsEphemeral(r) then [r.agent.s] else []
    case Resume => [PropertyKey(r.agent)]
  }

  /** One parsed record applied to the state. */
  function ApplyRecord(s: SessionState, r: Record, flow: Flow): (t: SessionState)
    ensures IsEnd(r) ==> t.chatLog == s.chatLog + [ChatEntry(r.kind, r.agent, r.message)]
    ensures !IsEnd(r) ==> t.chatLog == s.chatLog
    ensures IsInterrupt(r) ==> t.interrupt == r.message
    ensures !IsInterrupt(r) ==> t.interrupt == s.interrupt
    ensures IsEphemeral(r) ==> t.ephemeral == s.ephemeral[r.agent.s := r.message.s]
    ensures !IsEphemeral(r) ==> t.ephemeral == s.ephemeral
    ensures flow == Send ==> t.pending == s.pending + (if IsEphemeral(r) then [r.agent.s] else [])
    ensures flow == Resume ==> t.pending == s.pending + [PropertyKey(r.agent)]
  {
    var updated :=
      match Classify(r)
      case AppendEntry(entry) => s.(chatLog := s.chatLog + [entry])
      case SetInterrupt(prompt) => s.(interrupt := prompt)
      case ShowEphemeral(agent, message) => s.(ephemeral := s.ephemeral[agent := message])
      case NoAction => s;
    updated.(pending := s.pending + Scheduled(r, flow))
  }

  /** One emitted line: parsed and applied, or, when `JSON.parse` throws,
      skipped after logging. */
  function ApplyLine(s: SessionState, line: string, parse: string -> Option<Record>, flow: Flow): (t: SessionState)
    ensures parse(line).None? ==> t == s
  {
    match parse(line)
    case None => s
    case Some(r) => ApplyRecord(s, r, flow)
  }

  /** The lines applied one after the other, in order. The chat log and the
      timer queue only grow: what was there stays in front. */
  function Run(s: SessionState, lines: seq<string>, parse: string -> Option<Record>, flow: Flow): (t: SessionState)
    ensures s.chatLog <= t.chatLog && s.pending <= t.pending
    decreases |lines|
  {
    if lines == [] then s
    else ApplyLine(Run(s, lines[..|lines| - 1], parse, flow), lines[|lines| - 1], parse, flow)
  }

  /** Applying two runs of lines one after the other is applying their
      concatenation. */
  lemma {:induction false} RunAppend(s: SessionState, a: seq<string>, b: seq<string>, parse: string -> Option<Record>, flow: Flow)
    ensures Run(s, a + b, parse, flow) == Run(Run(s, a, parse, flow), b, parse, flow)
    decreases |b|
  {
    if b == [] {
      assert a + b == a;
    } else {
      var b' := b[..|b| - 1];
      assert (a + b)[..|a + b| - 1] == a + b';
      RunAppend(s, a, b', parse, flow);
    }
  }

  /** A line that fails to parse changes nothing, and the lines after it
      are still processed. */
  lemma MalformedLineSkipped(s: SessionState, before: seq<string>, bad: string, after: seq<string>, parse: string -> Option<Record>, flow: Flow)
    requires parse(bad).None?
    ensures Run(s, before + [bad] + after, parse, flow) == Run(s, before + after, parse, flow)
  {
    RunAppend(s, before + [bad], after, parse, flow);
    assert (before + [bad])[..|before + [bad]| - 1] == before;
    RunAppend(s, before, after, parse, flow);
  }

  /** The chat log entries of the `end` records among `lines`, in order. */
  function EndEntries(lines: seq<string>, parse: string -> Option<Record>): seq<ChatEntry> {
    if lines == [] then []
    else
      var head := parse(lines[0]);
      (if head.Some? && IsEnd(head.value) then [ChatEntry(head.value.kind, head.value.agent, head.value.message)] else [])
      + EndEntries(lines[1..], parse)
  }

  /** One line adds the entry of its `end` record, if it has one. */
  lemma ApplyLineChatLog(s: SessionState, line: string, parse: string -> Option<Record>, flow: Flow)
    ensures ApplyLine(s, line, parse, flow).chatLog == s.chatLog + EndEntries([line], parse)
  {
    assert [line][1..] == [];
  }

  lemma {:induction false} EndEntriesAppend(a: seq<string>, b: seq<string>, parse: string -> Option<Record>)
    ensures EndEntries(a + b, parse) == EndEntries(a, parse) + EndEntries(b, parse)
  {
    if a == [] {
      assert a + b == b;
    } else {
      assert (a + b)[1..] == a[1..] + b;
      EndEntriesAppend(a[1..], b, parse);
    }
  }

  /** The chat log only grows: a run appends exactly the entries of its
      `end` records, in order, and earlier entries stay as they were. */
  lemma {:induction false} RunChatLog(s: SessionState, lines: seq<string>, parse: string -> Option<Record>, flow: Flow)
    ensures Run(s, lines, parse, flow).chatLog == s.chatLog + EndEntries(lines, parse)
    decreases |lines|
  {
    if lines != [] {
      var init := lines[..|lines| - 1];
      var last := lines[|lines| - 1];
      RunChatLog(s, init, parse, flow);
      ApplyLineChatLog(Run(s, init, parse, flow), last, parse, flow);
      assert lines == init + [last];
      EndEntriesAppend(init, [last], parse);
    }
  }

  /** The line parses to an `interrupt` record. */
  predicate InterruptLine(line: string, parse: string -> Option<Record>) {
    parse(line).Some? && IsInterrupt(parse(line).value)
  }

  /** Without an `interrupt` record the interrupt slot keeps its value. */
  lemma {:induction false} RunKeepsInterrupt(s: SessionState, lines: seq<string>, parse: string -> Option<Record>, flow: Flow)
    requires forall j :: 0 <= j < |lines| ==> !InterruptLine(lines[j], parse)
    ensures Run(s, lines, parse, flow).interrupt == s.interrupt
    decreases |lines|
  {
    if lines != [] {
      RunKeepsInterrupt(s, lines[..|lines| - 1], parse, flow);
      assert !InterruptLine(lines[|lines| - 1], parse);
    }
  }

  /** The interrupt slot is a single slot: after a run it holds the message
      of the last `interrupt` record. */
  lemma LastInterruptWins(s: SessionState, lines: seq<string>, parse: string -> Option<Record>, flow: Flow, i: int)
    requires 0 <= i < |lines| && InterruptLine(lines[i], parse)
    requires forall j :: i < j < |lines| ==> !InterruptLine(lines[j], parse)
    ensures Run(s, lines, parse, flow).interrupt == parse(lines[i]).value.message
  {
    var upTo := lines[..i + 1];
    var rest := lines[i + 1..];
    assert lines == upTo + rest;
    RunAppend(s, upTo, rest, parse, flow);
    assert upTo[..|upTo| - 1] == lines[..i];
    forall j | 0 <= j < |rest| ensures !InterruptLine(rest[j], parse) {
      assert rest[j] == lines[i + 1 + j];
    }
    RunKeepsInterrupt(Run(s, upTo, parse, flow), rest, parse, flow);
  }

  /** The line parses to an ephemeral update for `agent`. */
  predicate ShowsFor(line: string, parse: string -> Option<Record>, agent: string) {
    parse(line).Some? && IsEphemeral(parse(line).value) && parse(line).value.agent.s == agent
  }

  /** Without an ephemeral update for `agent`, its entry is left alone:
      updates for other agents never touch it. */
  lemma {:induction false} RunKeepsOtherAgents(s: SessionState, lines: seq<string>, parse: string -> Option<Record>, flow: Flow, agent: string)
    requires forall j :: 0 <= j < |lines| ==> !ShowsFor(lines[j], parse, agent)
    ensures var t := Run(s, lines, parse, flow);
      (agent in t.ephemeral <==> agent in s.ephemeral) &&
      (agent in s.ephemeral ==> t.ephemeral[agent] == s.ephemeral[agent])
    decreases |lines|
  {
    if lines != [] {
      RunKeepsOtherAgents(s, lines[..|lines| - 1], parse, flow, agent);
      assert !ShowsFor(lines[|lines| - 1], parse, agent);
    }
  }

  /** Ephemeral messages are last-write-wins per agent: after a run, an
      agent that received an update shows the message of its last one. */
  lemma LastEphemeralWins(s: SessionState, lines: seq<string>, parse: string -> Option<Record>, flow: Flow, agent: string, i: int)
    requires 0 <= i < |lines| && ShowsFor(lines[i], parse, agent)
    requires forall j :: i < j < |lines| ==> !ShowsFor(lines[j], parse, agent)
    ensures var t := Run(s, lines, parse, flow);
      agent in t.ephemeral && t.ephemeral[agent] == parse(lines[i]).value.message.s
  {
    var upTo := lines[..i + 1];
    var rest := lines[i + 1..];
    assert lines == upTo + rest;
    RunAppend(s, upTo, rest, parse, flow);
    assert upTo[..|upTo| - 1] == lines[..i];
    forall j | 0 <= j < |rest| ensures !ShowsFor(rest[j], parse, agent) {
      assert rest[j] == lines[i + 1 + j];
    }
    RunKeepsOtherAgents(Run(s, upTo, parse, flow), rest, parse, flow, agent);
  }

  /** The keys whose deletion the lines schedule, in order. */
  function ScheduledKeys(lines: seq<string>, parse: string -> Option<Record>, flow: Flow): seq<string> {
    if lines == [] then []
    else
      (match parse(lines[0]) case None => [] case Some(r) => Scheduled(r, flow))
      + ScheduledKeys(lines[1..], parse, flow)
  }

  lemma {:induction false} ScheduledKeysAppend(a: seq<string>, b: seq<string>, parse: string -> Option<Record>, flow: Flow)
    ensures ScheduledKeys(a + b, parse, flow) == ScheduledKeys(a, parse, flow) + ScheduledKeys(b, parse, flow)
  {
    if a == [] {
      assert a + b == b;
    } else {
      assert (a + b)[1..] == a[1..] + b;
      ScheduledKeysAppend(a[1..], b, parse, flow);
    }
  }

  /** One line queues the expiries its record schedules. */
  lemma ApplyLinePending(s: SessionState, line: string, parse: string -> Option<Record>, flow: Flow)
    ensures ApplyLine(s, line, parse, flow).pending == s.pending + ScheduledKeys([line], parse, flow)
  {
    assert [line][1..] == [];
  }

  /** A run queues exactly the expiries its records schedule, behind the
      ones already queued. */
  lemma {:induction false} RunPending(s: SessionState, lines: seq<string>, parse: string -> Option<Record>, flow: Flow)
    ensures Run(s, lines, parse, flow).pending == s.pending + ScheduledKeys(lines, parse, flow)
    decreases |lines|
  {
    if lines != [] {
      var init := lines[..|lines| - 1];
      var last := lines[|lines| - 1];
      RunPending(s, init, parse, flow);
      ApplyLinePending(Run(s, init, parse, flow), last, parse, flow);
      assert lines == init + [last];
      ScheduledKeysAppend(init, [last], parse, flow);
    }
  }

  /** The send loop schedules an expiry for every ephemeral update, and the
      resume loop schedules one for every parsed record; either way an
      agent shown a message has its expiry queued. */
  lemma {:induction false} ShownAgentScheduled(lines: seq<string>, parse: string -> Option<Record>, flow: Flow, agent: string, i: int)
    requires 0 <= i < |lines| && ShowsFor(lines[i], parse, agent)
    ensures agent in ScheduledKeys(lines, parse, flow)
  {
    if i > 0 {
      ShownAgentScheduled(lines[1..], parse, flow, agent, i - 1);
    }
  }

  /** In the resume loop every parsed record schedules one expiry, an `end`
      or `interrupt` record included. */
  lemma {:induction false} ResumeSchedulesEveryRecord(lines: seq<string>, parse: string -> Option<Record>, i: int)
    requires 0 <= i < |lines| && parse(lines[i]).Some?
    ensures PropertyKey(parse(lines[i]).value.agent) in ScheduledKeys(lines, parse, Resume)
  {
    if i > 0 {
      ResumeSchedulesEveryRecord(lines[1..], parse, i - 1);
    }
  }

  /** The earliest queued timer fires. */
  function FireNext(s: SessionState): (t: SessionState)
    requires s.pending != []
    ensures t.pending == s.pending[1..]
    ensures t.chatLog == s.chatLog && t.interrupt == s.interrupt
    ensures s.pending[0] !in t.ephemeral
    ensures forall k :: k in t.ephemeral <==> k in s.ephemeral && k != s.pending[0]
    ensures forall k :: k in t.ephemeral ==> t.ephemeral[k] == s.ephemeral[k]
  {
    s.(ephemeral := Expire(s.ephemeral, s.pending[0]), pending := s.pending[1..])
  }

  /** Every queued timer fires, in order. */
  function FireAll(s: SessionState): SessionState
    decreases |s.pending|
  {
    if s.pending == [] then s else FireAll(FireNext(s))
  }

  /** Once every timer has fired, exactly the keys no timer named remain,
      with their messages; the chat log and the interrupt slot are
      untouched. */
  lemma {:induction false} FireAllEffect(s: SessionState)
    ensures FireAll(s).pending == []
    ensures FireAll(s).chatLog == s.chatLog && FireAll(s).interrupt == s.interrupt
    ensures forall k :: k in FireAll(s).ephemeral <==> k in s.ephemeral && k !in s.pending
    ensures forall k :: k in FireAll(s).ephemeral ==> FireAll(s).ephemeral[k] == s.ephemeral[k]
    decreases |s.pending|
  {
    if s.pending != [] {
      var next := FireNext(s);
      FireAllEffect(next);
      forall k ensures k in s.pending <==> k == s.pending[0] || k in next.pending {
        assert s.pending == [s.pending[0]] + next.pending;
      }
    }
  }

  /** Every ephemeral message a stream shows is gone once the timers have
      fired. */
  lemma ShownMessagesExpire(s: SessionState, lines: seq<string>, parse: string -> Option<Record>, flow: Flow, agent: string, i: int)
    requires 0 <= i < |lines| && ShowsFor(lines[i], parse, agent)
    ensures agent !in FireAll(Run(s, lines, parse, flow)).ephemeral
  {
    ShownAgentScheduled(lines, parse, flow, agent, i);
    RunPending(s, lines, parse, flow);
    FireAllEffect(Run(s, lines, parse, flow));
  }
}
