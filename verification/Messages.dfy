/** Upstream WebSocket messages and the requests that are sent to the upstream. */
module Messages {
  import opened Basics

  datatype Json =
    | JObject(fields: map<string, Json>)
    | JString(text: string)
    | JOther

  /** A received message. `json` is what parsing the text yields, `None` when it is not JSON;
      `Undecodable` is a binary message that is not UTF-8. */
  datatype Message =
    | Text(text: string, json: Option<Json>)
    | Undecodable

  function Field(j: Json, name: string): Option<Json> {
    if j.JObject? && name in j.fields then Some(j.fields[name]) else None
  }

  function StringField(j: Json, name: string): Option<string> {
    var f := Field(j, name);
    if f.Some? && f.value.JString? then Some(f.value.text) else None
  }

  function EventType(m: Message): string
    requires m.Text?
  {
    if m.json.None? then "message"
    else
      var t := StringField(m.json.value, "type");
      if t.Some? then t.value else "message"
  }

  function CompletedId(m: Message): Option<string>
    requires m.Text?
  {
    if m.json.None? || StringField(m.json.value, "type") != Some("response.completed") then None
    else
      var response := Field(m.json.value, "response");
      if response.Some? && StringField(response.value, "id").Some? then StringField(response.value, "id")
      else StringField(m.json.value, "response_id")
  }

  /** The message ends its stream: it decodes and its completed id is a non-empty string; an empty
      id does not end it. */
  predicate Terminal(m: Message) {
    m.Text? && CompletedId(m).Some? && CompletedId(m).value != ""
  }

  // ---- The same, read off the fields ----

  /** The nested `response.id`, where there is one and it is a string. */
  ghost predicate NestedId(fields: map<string, Json>, id: string) {
    && "response" in fields && fields["response"].JObject?
    && "id" in fields["response"].fields && fields["response"].fields["id"] == JString(id)
  }

  /** The message says that the response `id` is completed: by its nested id, and only without one by
      its top-level `response_id`. */
  ghost predicate Completes(m: Message, id: string) {
    && m.Text? && m.json.Some? && m.json.value.JObject?
    && var fields := m.json.value.fields;
    && "type" in fields && fields["type"] == JString("response.completed")
    && (NestedId(fields, id)
        || ((forall other :: !NestedId(fields, other)) && "response_id" in fields && fields["response_id"] == JString(id)))
  }

  lemma {:induction false} CompletedIdExactly(m: Message, id: string)
    requires m.Text?
    ensures CompletedId(m) == Some(id) <==> Completes(m, id)
  {
    if m.json.Some? && m.json.value.JObject? && "response" in m.json.value.fields {
      var nested := StringField(m.json.value.fields["response"], "id");
      assert nested.Some? ==> NestedId(m.json.value.fields, nested.value);
    }
  }

  /** What ends a stream. */
  ghost predicate EndsStream(m: Message) {
    exists id :: id != "" && Completes(m, id)
  }

  lemma {:induction false} TerminalExactly(m: Message)
    ensures Terminal(m) <==> EndsStream(m)
  {
    if m.Text? {
      if CompletedId(m).Some? {
        CompletedIdExactly(m, CompletedId(m).value);
      }
      forall id | Completes(m, id) ensures CompletedId(m) == Some(id) {
        CompletedIdExactly(m, id);
      }
    }
  }

  /** The completed message that the upstream usually sends: its nested id counts, whatever stands
      beside it; without one the id is the string under `response_id`, or there is none. */
  lemma {:induction false} CompletedMessage(text: string, fields: map<string, Json>)
    requires "type" in fields && fields["type"] == JString("response.completed")
    ensures var id := CompletedId(Text(text, Some(JObject(fields))));
      && (forall nested :: NestedId(fields, nested) ==> id == Some(nested))
      && ((forall nested :: !NestedId(fields, nested)) ==>
           id == if "response_id" in fields && fields["response_id"].JString? then Some(fields["response_id"].text) else None)
  {
    var m := Text(text, Some(JObject(fields)));
    forall nested | NestedId(fields, nested) ensures CompletedId(m) == Some(nested) {
      CompletedIdExactly(m, nested);
    }
    if forall nested :: !NestedId(fields, nested) {
      if CompletedId(m).Some? {
        CompletedIdExactly(m, CompletedId(m).value);
      }
      if "response_id" in fields && fields["response_id"].JString? {
        CompletedIdExactly(m, fields["response_id"].text);
      }
    }
  }

  /** The type under which a message is shown: the string under `type` of a JSON object, else
      `message`. */
  ghost predicate HasType(m: Message, t: string) {
    if m.Text? && m.json.Some? && m.json.value.JObject? && "type" in m.json.value.fields && m.json.value.fields["type"].JString?
    then m.json.value.fields["type"] == JString(t)
    else t == "message"
  }

  lemma {:induction false} EventTypeExactly(m: Message, t: string)
    requires m.Text?
    ensures EventType(m) == t <==> HasType(m, t)
  {
  }

  datatype Body = NotUtf8 | NotJson | Parsed(json: Json)

  datatype BodyError = InvalidRequestBody | InvalidRequestJson

  /** The `response.create` request for a body, or the 400 error of `build_response_create_request`. */
  function CreateRequest(body: Body): (r: Result<map<string, Json>, BodyError>)
    ensures r.Ok? <==> body.Parsed? && body.json.JObject?
    ensures r.Ok? ==> StringField(JObject(r.value), "type") == Some("response.create")
    ensures r.Ok? ==> forall name :: name != "type" ==> Field(JObject(r.value), name) == Field(body.json, name)
  {
    match body
    case NotUtf8 => Err(InvalidRequestBody)
    case NotJson => Err(InvalidRequestJson)
    case Parsed(JObject(fields)) => Ok(fields["type" := JString("response.create")])
    case Parsed(_) => Err(InvalidRequestJson)
  }
}
