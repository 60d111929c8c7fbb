/** The chat client component (App.tsx): its state, the two selection
    handlers, the input handlers, the send and resume handlers with their
    stream loops, and the expiry timers firing. The network stream is the
    sequence of decoded chunks it delivered before it ended, and
    `JSON.parse` is the parameter `parse` (`None` where it throws). */
module App {
  import opened Text
  import opened Records
  import opened Framing
  import opened Session
  import opened Selection

  /** The body of the send request. */
  datatype ChatRequest = ChatRequest(threadId: string, query: string, agentList: seq<string>, orchestratorType: string)

  /** The body of the resume request. */
  datatype ResumeRequest = ResumeRequest(threadId: string, query: string)

  /** What the user has selected and typed, and the busy flag. */
  datatype ControlState = ControlState(
    selectedOrchestrator: Option<string>,
    selectedAgents: seq<string>,
    messageInput: string,
    interruptInput: string,
    isLoading: bool)

  class ChatClient {
    const threadId: string
    var selectedOrchestrator: Option<string>
    var selectedAgents: seq<string>
    var messageInput: string
    var interruptInput: string
    var isLoading: bool
    var chatLog: seq<ChatEntry>
    var ephemeralMessages: map<string, string>
    var interruptPrompt: Value
    /** The keys the expiry timers still to fire will delete, oldest first. */
    var pendingExpiries: seq<string>

    /** The part of the state the streams update. */
    function State(): SessionState
      reads this
    {
      SessionState(chatLog, ephemeralMessages, interruptPrompt, pendingExpiries)
    }

    function Controls(): ControlState
      reads this
    {
      ControlState(selectedOrchestrator, selectedAgents, messageInput, interruptInput, isLoading)
    }

    /** A fresh component; the thread id comes from `uuidv4()`. */
    constructor (threadId: string)
      ensures this.threadId == threadId
      ensures State() == SessionState([], map[], Null, [])
      ensures Controls() == ControlState(None, [], [], [], false)
    {
      this.threadId := threadId;
      selectedOrchestrator := None;
      selectedAgents := [];
      messageInput := [];
      interruptInput := [];
      isLoading := false;
      chatLog := [];
      ephemeralMessages := map[];
      interruptPrompt := Null;
      pendingExpiries := [];
    }

    method ToggleAgentSelection(title: string)
      modifies this
      ensures Controls() == old(Controls()).(selectedAgents := ToggleAgent(old(selectedAgents), title))
      ensures State() == old(State())
    {
      selectedAgents := ToggleAgent(selectedAgents, title);
    }

    method ToggleOrchestratorSelection(title: string)
      modifies this
      ensures Controls() == old(Controls()).(selectedOrchestrator := ToggleOrchestrator(old(selectedOrchestrator), title))
      ensures State() == old(State())
    {
      selectedOrchestrator := ToggleOrchestrator(selectedOrchestrator, title);
    }

    /** The `onChange` handler of the chat input box. */
    method UpdateMessageInput(text: string)
      modifies this
      ensures Controls() == old(Controls()).(messageInput := text)
      ensures State() == old(State())
    {
      messageInput := text;
    }

    /** The `onChange` handler of the interrupt answer box. */
    method UpdateInterruptInput(text: string)
      modifies this
      ensures Controls() == old(Controls()).(interruptInput := text)
      ensures State() == old(State())
    {
      interruptInput := text;
    }

    /** The body of the `for` loop over the parts: parse the line and
        dispatch on the record, scheduling expiries as the flow does. */
    method HandleLine(line: string, parse: string -> Option<Record>, flow: Flow)
      modifies this
      ensures State() == ApplyLine(old(State()), line, parse, flow)
      ensures Controls() == old(Controls())
    {
      var parsed := parse(line);
      if parsed.Some? {
        var data := parsed.value;
        var agent := data.agent;
        var message := data.message;
        var kind := data.kind;
        if kind == Text("end") {
          chatLog := chatLog + [ChatEntry(kind, agent, message)];
        } else if kind == Text("interrupt") {
          interruptPrompt := message;
        } else if Truthy(agent) && Truthy(message) {
          ephemeralMessages := ephemeralMessages[agent.s := message.s];
          if flow == Send {
            pendingExpiries := pendingExpiries + [agent.s];
          }
        }
        if flow == Resume {
          pendingExpiries := pendingExpiries + [PropertyKey(agent)];
        }
      }
    }

    /** The `for` loop over the lines one chunk completed. */
    method HandleParts(parts: seq<string>, parse: string -> Option<Record>, flow: Flow)
      modifies this
      ensures State() == Run(old(State()), parts, parse, flow)
      ensures Controls() == old(Controls())
    {
      for j := 0 to |parts|
        invariant State() == Run(old(State()), parts[..j], parse, flow)
        invariant Controls() == old(Controls())
      {
        HandleLine(parts[j], parse, flow);
        assert parts[..j + 1][..j] == parts[..j];
      }
      assert parts[..|parts|] == parts;
    }

    /** The stream loop: every chunk is fed to the line decoder and every
        line it completes is handled, in order. The state afterwards depends
        only on the text the stream delivered, not on its chunking. */
    method ReadStream(chunks: seq<string>, parse: string -> Option<Record>, flow: Flow)
      modifies this
      ensures State() == Run(old(State()), CompleteLines(Concat(chunks)), parse, flow)
      ensures Controls() == old(Controls())
    {
      var decoder := new LineDecoder();
      var i := 0;
      while i < |chunks|
        invariant 0 <= i <= |chunks|
        invariant decoder.Valid() && decoder.consumed == Concat(chunks[..i])
        invariant State() == Run(old(State()), decoder.emitted, parse, flow)
        invariant Controls() == old(Controls())
      {
        ghost var before := decoder.emitted;
        var parts := decoder.Feed(chunks[i]);
        HandleParts(parts, parse, flow);
        RunAppend(old(State()), before, parts, parse, flow);
        assert chunks[..i + 1][..i] == chunks[..i];
        i := i + 1;
      }
      assert chunks[..i] == chunks;
    }

    /** `handleChatSend`. A query that is blank after trimming is rejected
        before anything changes. Otherwise the request carries the thread,
        the query, the selected agents and the orchestrator (or its
        default); the reply stream is applied in the send flow; the busy
        flag ends cleared and the input box empty. */
    method HandleChatSend(chunks: seq<string>, parse: string -> Option<Record>) returns (request: Option<ChatRequest>)
      modifies this
      ensures !Submittable(old(messageInput)) ==>
        request.None? && State() == old(State()) && Controls() == old(Controls())
      ensures Submittable(old(messageInput)) ==>
        && request == Some(ChatRequest(threadId, old(messageInput), old(selectedAgents), OrchestratorType(old(selectedOrchestrator))))
        && State() == Run(old(State()), CompleteLines(Concat(chunks)), parse, Send)
        && Controls() == old(Controls()).(messageInput := [], isLoading := false)
    {
      if Trim(messageInput) == [] {
        request := None;
        return;
      }
      isLoading := true;
      request := Some(ChatRequest(threadId, messageInput, selectedAgents, OrchestratorType(selectedOrchestrator)));
      ReadStream(chunks, parse, Send);
      isLoading := false;
      messageInput := [];
    }

    /** `handleInterruptSubmit`. A blank answer does nothing. Otherwise the
        interrupt slot is cleared before anything else, the request carries
        the thread and the answer, the reply stream is applied in the
        resume flow, and the busy flag ends cleared and the answer box
        empty. */
    method HandleInterruptSubmit(chunks: seq<string>, parse: string -> Option<Record>) returns (request: Option<ResumeRequest>)
      modifies this
      ensures !Submittable(old(interruptInput)) ==>
        request.None? && State() == old(State()) && Controls() == old(Controls())
      ensures Submittable(old(interruptInput)) ==>
        && request == Some(ResumeRequest(threadId, old(interruptInput)))
        && State() == Run(old(State()).(interrupt := Null), CompleteLines(Concat(chunks)), parse, Resume)
        && Controls() == old(Controls()).(interruptInput := [], isLoading := false)
    {
      if Trim(interruptInput) == [] {
        request := None;
        return;
      }
      interruptPrompt := Null;
      isLoading := true;
      request := Some(ResumeRequest(threadId, interruptInput));
      ReadStream(chunks, parse, Resume);
      isLoading := false;
      interruptInput := [];
    }

    /** The oldest pending timer fires and deletes its key. */
    method FireNextExpiry()
      requires pendingExpiries != []
      modifies this
      ensures State() == FireNext(old(State()))
      ensures Controls() == old(Controls())
    {
      var key := pendingExpiries[0];
      pendingExpiries := pendingExpiries[1..];
      var updated := ephemeralMessages;
      updated := updated - {key};
      ephemeralMessages := updated;
    }
  }
}
