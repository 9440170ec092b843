/** The entities shared by the chat widget: who sent a message, the message
    itself, and the shape of a JSON value as the bot service returns it. */
module Types {
  import opened Results

  /** The four sender categories; each is shown with its own style. */
  datatype MessageSender = User | Bot | TypingIndicator | Error

  /** One entry of the conversation, `ChatMessageData` of `types.ts`. The
      timestamp, a `Date` there, is its clock reading in milliseconds. */
  datatype ChatMessage = ChatMessage(id: string, text: string, sender: MessageSender, timestamp: nat)

  /** A JSON value as far as the bot's reply shape matters: a string, an
      object with its fields in key order, or anything else (number,
      boolean, null, array). The fields of a parsed reply body stand for
      `N8NBotResponse`: optional `output`, `reply` and `answer` strings
      and any other keys. */
  datatype JsonValue =
    | JString(str: string)
    | JObject(fields: seq<(string, JsonValue)>)
    | JOther

  /** The value of the first field named `key`; `None` is JavaScript's
      `undefined`. */
  function LookupField(fields: seq<(string, JsonValue)>, key: string): (r: Option<JsonValue>)
    ensures r.None? <==> forall i :: 0 <= i < |fields| ==> fields[i].0 != key
    ensures r.Some? ==> exists i :: 0 <= i < |fields| && fields[i] == (key, r.value)
                                    && forall j :: 0 <= j < i ==> fields[j].0 != key
  {
    if fields == [] then None
    else if fields[0].0 == key then Some(fields[0].1)
    else
      var r := LookupField(fields[1..], key);
      LookupShift(fields, key, r);
      r
  }

  /** A match found in the tail of `fields` is the first match of `fields`
      when the head does not match. */
  lemma LookupShift(fields: seq<(string, JsonValue)>, key: string, r: Option<JsonValue>)
    requires fields != [] && fields[0].0 != key
    requires r.Some? ==> exists i :: 0 <= i < |fields| - 1 && fields[1..][i] == (key, r.value)
                                     && forall j :: 0 <= j < i ==> fields[1..][j].0 != key
    ensures r.Some? ==> exists i :: 0 <= i < |fields| && fields[i] == (key, r.value)
                                    && forall j :: 0 <= j < i ==> fields[j].0 != key
  {
    if r.Some? {
      var i :| 0 <= i < |fields| - 1 && fields[1..][i] == (key, r.value)
               && forall j :: 0 <= j < i ==> fields[1..][j].0 != key;
      assert fields[i + 1] == (key, r.value);
      forall j | 0 <= j < i + 1 ensures fields[j].0 != key {
        if j > 0 { assert fields[j] == fields[1..][j - 1]; }
      }
    }
  }
}
