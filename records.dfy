/** The records of the chat stream: one JSON object per line, of which the
    client reads the fields `type`, `agent` and `message`, and the decision
    its dispatch takes on each record. */
module Records {

  datatype Option<T> = None | Some(value: T)

  /** The value a record field holds once parsed: absent (`undefined`),
      `null`, or a string. */
  datatype Value = Missing | Null | Text(s: string)

  /** JavaScript truthiness of a field value: `undefined`, `null` and the
      empty string are falsy, every other string is truthy. */
  function Truthy(v: Value): (b: bool)
    ensures b <==> v != Missing && v != Null && v != Text([])
  {
    v.Text? && v.s != []
  }

  /** The key a value denotes when used as an object property name
      (`String(v)`): a string is its own key, so a message shown under an
      agent's name is deleted under the same name; an absent or `null` value
      becomes the key "undefined" or "null". */
  function PropertyKey(v: Value): (k: string)
    ensures v.Text? ==> k == v.s
    ensures Truthy(v) ==> k != []
    ensures v == Missing ==> k == "undefined"
    ensures v == Null ==> k == "null"
  {
    match v
    case Missing => "undefined"
    case Null => "null"
    case Text(s) => s
  }

  /** One parsed line: `data.type`, `data.agent` and `data.message`. */
  datatype Record = Record(kind: Value, agent: Value, message: Value)

  /** An entry of the chat log, `{ type, agent, message }`, copied from a
      record as it is. */
  datatype ChatEntry = ChatEntry(kind: Value, agent: Value, message: Value)

  /** What the dispatch does with a record. */
  datatype Action =
    | AppendEntry(entry: ChatEntry)
    | SetInterrupt(prompt: Value)
    | ShowEphemeral(agent: string, message: string)
    | NoAction

  predicate IsEnd(r: Record) {
    r.kind == Text("end")
  }

  predicate IsInterrupt(r: Record) {
    r.kind == Text("interrupt")
  }

  /** A record that is neither an end nor an interrupt and names an agent
      and a message, both non-empty. */
  predicate IsEphemeral(r: Record) {
    !IsEnd(r) && !IsInterrupt(r) && Truthy(r.agent) && Truthy(r.message)
  }

  /** The dispatch decision. The checks are made in a fixed order: an `end`
      record goes to the chat log whatever else it holds, then an
      `interrupt` record fills the interrupt slot, then a record with a
      non-empty agent and message becomes that agent's ephemeral message;
      anything else is ignored. */
  function Classify(r: Record): (a: Action)
    ensures a.AppendEntry? <==> r.kind == Text("end")
    ensures a.AppendEntry? ==> a.entry == ChatEntry(r.kind, r.agent, r.message)
    ensures a.SetInterrupt? <==> r.kind == Text("interrupt")
    ensures a.SetInterrupt? ==> a.prompt == r.message
    ensures a.ShowEphemeral? <==>
      r.kind != Text("end") && r.kind != Text("interrupt") && r.agent.Text? && r.agent.s != [] && r.message.Text? && r.message.s != []
    ensures a.ShowEphemeral? ==> r.agent == Text(a.agent) && r.message == Text(a.message)
  {
    if IsEnd(r) then AppendEntry(ChatEntry(r.kind, r.agent, r.message))
    else if IsInterrupt(r) then SetInterrupt(r.message)
    else if Truthy(r.agent) && Truthy(r.message) then ShowEphemeral(r.agent.s, r.message.s)
    else NoAction
  }
}
