/** The client of the bot webhook (`sendMessageToN8N`), from the moment the
    HTTP exchange has produced a response, or thrown, to the reply text or
    error message handed back to the chat. The network call itself, and
    `JSON.parse`, are inputs: a `FetchOutcome` carries what `fetch` produced
    and each response carries what `JSON.parse` makes of its body. */
module BotService {
  import opened Results
  import opened Text
  import opened Types

  // ---------------------------------------------------------------------------
  // Inputs
  // ---------------------------------------------------------------------------

  /** `response.text()`: the body, or a failure to read it. */
  datatype BodyRead = BodyText(text: string) | BodyUnreadable

  /** What `JSON.parse` makes of the body: a syntax error, `null`, or a value
      whose enumerable own properties are `fields` in key order. An array or
      a string is given as the object keyed by its indices and a number or
      boolean as the empty object, since property reads and `Object.values`
      see them that way. */
  datatype JsonParse = ParseFailed | ParsedNull | ParsedObject(fields: seq<(string, JsonValue)>)

  /** The parts of a fetch `Response` the client reads. */
  datatype HttpResponse = HttpResponse(
    status: nat,
    statusText: string,
    contentType: Option<string>,
    body: BodyRead,
    json: JsonParse)

  /** A thrown value: an `Error` object with its message, or anything else
      with its `String(...)` rendering. */
  datatype Thrown = ThrownError(message: string) | ThrownValue(repr: string)

  /** What the awaited `fetch` produced. */
  datatype FetchOutcome = Responded(response: HttpResponse) | FetchThrew(thrown: Thrown)

  // ---------------------------------------------------------------------------
  // Constants
  // ---------------------------------------------------------------------------

  // The messages whose characters the proofs read are each written as a
  // short head and the rest: the verifier reads a character near the start
  // of a concatenation cheaply, but not deep inside one long literal.
  const EmptyBodyReply := "The bot didn't " + "provide a specific response this time."
  const StatusErrorPrefix := "The bot service " + "returned an error"
  const MalformedPrefix := "The bot's " + "JSON response was malformed"
  const NoUsableTextPrefix := "The bot sent " + "a JSON response, but it contained no usable text"
  const EmptyReplyPrefix := "The bot returned " + "an empty or unprocessable response"
  const ReadFailedPrefix := "Failed to read " + "the response from the bot service"
  const EmptyReplyMessage := EmptyReplyPrefix + "."
  const ReadFailedMessage := ReadFailedPrefix + "."
  const ConnectFailurePrefix := "Failed to connect " + "to the bot. Please check your internet connection or the bot service. (Details: "
  const UnknownFailurePrefix := "An unknown error occurred while contacting the bot. (Details: "

  /** The messages the outer handler passes through unchanged. */
  const KnownPrefixes: seq<string> := [
    StatusErrorPrefix,
    MalformedPrefix,
    NoUsableTextPrefix,
    EmptyReplyPrefix,
    ReadFailedPrefix
  ]

  /** How much of a malformed body the error message quotes. */
  const SnippetLimit: nat := 150

  const JsonMediaType := "application/json"

  // ---------------------------------------------------------------------------
  // Reading the response
  // ---------------------------------------------------------------------------

  /** `response.ok`: a status in the range 200..299. */
  predicate IsOk(status: nat) {
    200 <= status <= 299
  }

  /** The error raised when the body of a failed response cannot be read. */
  function UnreadableBodyMessage(status: nat): string {
    StatusErrorPrefix + " (status " + NatToString(status) + ") and the response body could not be read."
  }

  /** The error raised for a response whose status is not OK. */
  function StatusErrorMessage(status: nat, detail: string): string {
    StatusErrorPrefix + " (status " + NatToString(status) + "): " + detail
  }

  /** `s || fallback` for strings. */
  function OrElse(s: string, fallback: string): string {
    if s != "" then s else fallback
  }

  /** A property value that is a truthy string. Truthy values of other types
      are not modelled. */
  function TruthyString(v: Option<JsonValue>): (r: Option<string>)
    ensures r.Some? ==> r.value != ""
  {
    if v.Some? && v.value.JString? && v.value.str != "" then Some(v.value.str) else None
  }

  /** `jsonError.error?.message`, when it is a truthy string. */
  function NestedErrorMessage(fields: seq<(string, JsonValue)>): Option<string> {
    match LookupField(fields, "error")
    case Some(JObject(inner)) => TruthyString(LookupField(inner, "message"))
    case _ => None
  }

  /** The detail of a non-OK response: the body or, when the body is empty,
      the status text; replaced, when the body parses, by
      `error.message || message || body`. Reading a property of `null`
      throws, and the catch keeps the first choice. */
  function StatusErrorDetail(text: string, statusText: string, json: JsonParse): string {
    match json
    case ParsedObject(fields) =>
      var nested := NestedErrorMessage(fields);
      var top := TruthyString(LookupField(fields, "message"));
      if nested.Some? then nested.value else if top.Some? then top.value else text
    case _ => OrElse(text, statusText)
  }

  // ---------------------------------------------------------------------------
  // Choosing the reply from a JSON object
  // ---------------------------------------------------------------------------

  /** A value the reply can be taken from: a string that is not blank. */
  predicate IsUsable(v: JsonValue) {
    v.JString? && !IsBlank(v.str)
  }

  /** `Object.values(data).find(...)`: the first field value, in key order,
      that is a non-blank string. */
  function FirstUsableValue(fields: seq<(string, JsonValue)>): (r: Option<string>)
    ensures r.None? <==> forall i :: 0 <= i < |fields| ==> !IsUsable(fields[i].1)
    ensures r.Some? ==> exists i :: 0 <= i < |fields| && fields[i].1 == JString(r.value) && IsUsable(fields[i].1)
                                    && forall j :: 0 <= j < i ==> !IsUsable(fields[j].1)
  {
    if fields == [] then None
    else if IsUsable(fields[0].1) then Some(fields[0].1.str)
    else
      var r := FirstUsableValue(fields[1..]);
      FirstUsableShift(fields, r);
      r
  }

  /** A first usable value of the tail is the first of `fields` when the head
      is not usable. */
  lemma FirstUsableShift(fields: seq<(string, JsonValue)>, r: Option<string>)
    requires fields != [] && !IsUsable(fields[0].1)
    requires r.Some? ==> exists i :: 0 <= i < |fields| - 1 && fields[1..][i].1 == JString(r.value)
                                     && IsUsable(fields[1..][i].1)
                                     && forall j :: 0 <= j < i ==> !IsUsable(fields[1..][j].1)
    ensures r.Some? ==> exists i :: 0 <= i < |fields| && fields[i].1 == JString(r.value) && IsUsable(fields[i].1)
                                    && forall j :: 0 <= j < i ==> !IsUsable(fields[j].1)
  {
    if r.Some? {
      var i :| 0 <= i < |fields| - 1 && fields[1..][i].1 == JString(r.value)
               && IsUsable(fields[1..][i].1)
               && forall j :: 0 <= j < i ==> !IsUsable(fields[1..][j].1);
      assert fields[i + 1] == fields[1..][i];
      forall j | 0 <= j < i + 1 ensures !IsUsable(fields[j].1) {
        if j > 0 { assert fields[j] == fields[1..][j - 1]; }
      }
    }
  }

  /** The field `key`, when it holds a usable string. */
  function UsableField(fields: seq<(string, JsonValue)>, key: string): Option<string> {
    match LookupField(fields, key)
    case Some(v) => if IsUsable(v) then Some(v.str) else None
    case None => None
  }

  /** The reply chosen from a parsed object: `output`, then `reply`, then
      `answer`, then the first usable value, trimmed. */
  function SelectReply(fields: seq<(string, JsonValue)>): (r: Option<string>)
    ensures r.Some? ==> r.value != "" && IsTrimmed(r.value)
  {
    var chosen :=
      if UsableField(fields, "output").Some? then UsableField(fields, "output")
      else if UsableField(fields, "reply").Some? then UsableField(fields, "reply")
      else if UsableField(fields, "answer").Some? then UsableField(fields, "answer")
      else FirstUsableValue(fields);
    match chosen
    case Some(s) =>
      NonBlankTrimNonEmpty(s);
      Some(Trim(s))
    case None => None
  }

  /** Why the JSON branch's `try` block threw. The message thrown for a
      missing reply is discarded by the catch, so none is kept here. */
  datatype JsonFault = SyntaxError | NullAccess | NoUsableText

  /** The `try` block of the JSON branch: parse, select, and throw when no
      reply was determined. */
  function ParseAndSelect(json: JsonParse): Result<string, JsonFault> {
    match json
    case ParseFailed => Failure(SyntaxError)
    case ParsedNull => Failure(NullAccess)
    case ParsedObject(fields) =>
      var reply := SelectReply(fields);
      if reply.None? || reply.value == "" then Failure(NoUsableText) else Success(reply.value)
  }

  /** The first `SnippetLimit` characters of the body, with an ellipsis
      exactly when something was cut off. */
  function Snippet(text: string): (r: string)
    ensures |text| <= SnippetLimit ==> r == text
    ensures |text| > SnippetLimit ==> |r| == SnippetLimit + 3 && r[SnippetLimit..] == "..."
    ensures text[..if |text| < SnippetLimit then |text| else SnippetLimit] <= r
  {
    if |text| > SnippetLimit then text[..SnippetLimit] + "..." else text
  }

  /** The error raised when the JSON branch fails for any reason. */
  function MalformedMessage(text: string): string {
    MalformedPrefix + ". Raw response: \"" + Snippet(text) + "\""
  }

  /** The content type, lower-cased, mentions `application/json`. */
  predicate DeclaresJson(contentType: Option<string>) {
    contentType.Some? && contentType.value != "" && Contains(ToLower(contentType.value), JsonMediaType)
  }

  /** A content type that spells `application/json` in lower case declares
      JSON. */
  lemma LowerCaseJsonHeaderDeclaresJson(ct: string)
    requires Contains(ct, JsonMediaType)
    ensures DeclaresJson(Some(ct))
  {
    var i :| 0 <= i <= |ct| - |JsonMediaType| && OccursAt(ct, JsonMediaType, i);
    assert forall k :: 0 <= k < |JsonMediaType| ==> !('A' <= JsonMediaType[k] <= 'Z');
    LowerKeepsOccurrence(ct, JsonMediaType, i);
  }

  /** The last guard: an empty reply is an error. */
  function CheckReply(reply: string): Result<string, string> {
    if reply == "" then Failure(EmptyReplyMessage) else Success(reply)
  }

  // ---------------------------------------------------------------------------
  // Error classification
  // ---------------------------------------------------------------------------

  /** `prefixes.some(p => m.startsWith(p))`. */
  function StartsWithAny(prefixes: seq<string>, m: string): (r: bool)
    ensures r <==> exists i :: 0 <= i < |prefixes| && StartsWith(m, prefixes[i])
  {
    if prefixes == [] then false
    else if StartsWith(m, prefixes[0]) then true
    else
      var r := StartsWithAny(prefixes[1..], m);
      assert r ==> exists i :: 0 <= i < |prefixes| && StartsWith(m, prefixes[i]) by {
        if r {
          var i :| 0 <= i < |prefixes[1..]| && StartsWith(m, prefixes[1..][i]);
          assert prefixes[i + 1] == prefixes[1..][i];
        }
      }
      assert (exists i :: 0 <= i < |prefixes| && StartsWith(m, prefixes[i])) ==> r by {
        if exists i :: 0 <= i < |prefixes| && StartsWith(m, prefixes[i]) {
          var i :| 0 <= i < |prefixes| && StartsWith(m, prefixes[i]);
          assert i > 0;
          assert prefixes[1..][i - 1] == prefixes[i];
        }
      }
      r
  }

  /** A message one of the client's own errors begins with. */
  predicate IsClassified(m: string) {
    StartsWithAny(KnownPrefixes, m)
  }

  /** The outer `catch`: known errors pass unchanged, other errors are
      wrapped once as a connection failure, and non-errors as unknown. */
  function Classify(e: Thrown): string {
    match e
    case ThrownError(m) => if IsClassified(m) then m else ConnectFailurePrefix + m + ")"
    case ThrownValue(v) => UnknownFailurePrefix + v + ")"
  }

  // ---------------------------------------------------------------------------
  // The client
  // ---------------------------------------------------------------------------

  /** The body of the outer `try` once the response has arrived: the reply,
      or the message of the `Error` it throws. Every reply is non-empty and
      has no whitespace at either end. */
  function ProcessResponse(r: HttpResponse): (res: Result<string, string>)
    ensures res.Success? ==> res.value != [] && IsTrimmed(res.value)
  {
    match r.body
    case BodyUnreadable =>
      Failure(if IsOk(r.status) then ReadFailedMessage else UnreadableBodyMessage(r.status))
    case BodyText(text) =>
      if !IsOk(r.status) then
        Failure(StatusErrorMessage(r.status, StatusErrorDetail(text, r.statusText, r.json)))
      else if IsBlank(text) then
        EmptyBodyReplyTrimmed();
        Success(EmptyBodyReply)
      else if DeclaresJson(r.contentType) then
        match ParseAndSelect(r.json)
        case Failure(_) => Failure(MalformedMessage(text))
        case Success(reply) => CheckReply(reply)
      else
        CheckReply(Trim(text))
  }

  /** Every error the client raises itself carries one of the known
      prefixes, and the empty-reply guard never fires. */
  lemma ProcessErrorsClassified(r: HttpResponse)
    ensures ProcessResponse(r).Failure? ==>
              IsClassified(ProcessResponse(r).error) && ProcessResponse(r).error != EmptyReplyMessage
  {
    match r.body
    case BodyUnreadable =>
      if IsOk(r.status) {
        PrefixClassified(ReadFailedMessage, 4, ".");
      } else {
        StatusPrefixed(ProcessResponse(r).error, r.status, ") and the response body could not be read.");
      }
    case BodyText(text) =>
      if !IsOk(r.status) {
        StatusPrefixed(ProcessResponse(r).error, r.status, "): " + StatusErrorDetail(text, r.statusText, r.json));
      } else if !IsBlank(text) && DeclaresJson(r.contentType) && ParseAndSelect(r.json).Failure? {
        MalformedClassified(text);
      }
  }

  /** The malformed-JSON error is classified and is not the empty-reply
      error. */
  lemma MalformedClassified(text: string)
    ensures IsClassified(MalformedMessage(text)) && MalformedMessage(text) != EmptyReplyMessage
  {
    var m := MalformedMessage(text);
    PrefixClassified(m, 1, m[|MalformedPrefix|..]);
    NotEmptyReplyMessage(m, MalformedPrefix, 7);
  }

  /** A status error message is classified and is not the empty-reply error. */
  lemma StatusPrefixed(m: string, status: nat, rest: string)
    requires m == StatusErrorPrefix + " (status " + NatToString(status) + rest
    ensures IsClassified(m) && m != EmptyReplyMessage
  {
    PrefixClassified(m, 0, " (status " + NatToString(status) + rest);
    NotEmptyReplyMessage(m, StatusErrorPrefix, 8);
  }

  /** The canned reply has no whitespace at either end. */
  lemma EmptyBodyReplyTrimmed()
    ensures IsTrimmed(EmptyBodyReply)
  {
    assert EmptyBodyReply[0] == 'T';
    assert EmptyBodyReply[|EmptyBodyReply| - 1] == '.';
  }

  /** A message built on the `i`-th known prefix is classified. */
  lemma PrefixClassified(m: string, i: nat, rest: string)
    requires i < |KnownPrefixes| && m == KnownPrefixes[i] + rest
    ensures IsClassified(m)
  {
    assert StartsWith(m, KnownPrefixes[i]);
  }

  /** A message that begins with `p` is not the empty-reply error when `p`
      differs from it at index `k`. */
  lemma NotEmptyReplyMessage(m: string, p: string, k: nat)
    requires StartsWith(m, p) && k < |p| && k < |EmptyReplyMessage| && p[k] != EmptyReplyMessage[k]
    ensures m != EmptyReplyMessage
  {
    assert m[k] == p[k];
  }

  /** A message that begins with `p` does not begin with `q` when the two
      differ at index `k`. */
  lemma PrefixesClash(m: string, p: string, q: string, k: nat)
    requires StartsWith(m, p) && k < |p| && k < |q| && p[k] != q[k]
    ensures !StartsWith(m, q)
  {
    assert m[k] == p[k];
  }

  /** `sendMessageToN8N` after the request has been sent: the reply, or the
      message of the error it throws. */
  function SendMessage(f: FetchOutcome): (res: Result<string, string>)
    ensures res.Success? ==> res.value != "" && Trim(res.value) == res.value
    ensures f.Responded? ==> res == ProcessResponse(f.response)
  {
    match f
    case FetchThrew(e) => Failure(Classify(e))
    case Responded(r) =>
      ProcessErrorsClassified(r);
      match ProcessResponse(r)
      case Success(reply) =>
        TrimOfTrimmed(reply);
        Success(reply)
      case Failure(m) => Failure(Classify(ThrownError(m)))
  }

  // ---------------------------------------------------------------------------
  // Properties of the client
  // ---------------------------------------------------------------------------

  /** An OK response whose body is empty or whitespace gets the canned reply,
      whatever its content type. */
  lemma BlankOkBodyGetsCannedReply(r: HttpResponse)
    requires IsOk(r.status) && r.body.BodyText? && IsBlank(r.body.text)
    ensures SendMessage(Responded(r)) == Success(EmptyBodyReply)
  {
  }

  /** An OK response that does not declare JSON is answered with its body,
      trimmed. */
  lemma PlainBodyIsTheReply(r: HttpResponse)
    requires IsOk(r.status) && r.body.BodyText? && !IsBlank(r.body.text)
    requires !DeclaresJson(r.contentType)
    ensures SendMessage(Responded(r)) == Success(Trim(r.body.text))
  {
    NonBlankTrimNonEmpty(r.body.text);
  }

  /** An OK JSON response is answered with the reply chosen from its object
      when there is one, and reported as malformed otherwise: a syntax error,
      `null`, and an object with no usable string alike. */
  lemma JsonBodyOutcome(r: HttpResponse)
    requires IsOk(r.status) && r.body.BodyText? && !IsBlank(r.body.text)
    requires DeclaresJson(r.contentType)
    ensures SendMessage(Responded(r)).Failure? <==>
              (r.json.ParseFailed? || r.json.ParsedNull?
               || forall i :: 0 <= i < |r.json.fields| ==> !IsUsable(r.json.fields[i].1))
    ensures SendMessage(Responded(r)).Failure? ==>
              SendMessage(Responded(r)).error == MalformedMessage(r.body.text)
              && StartsWith(SendMessage(Responded(r)).error, MalformedPrefix)
    ensures r.json.ParsedObject? && SelectReply(r.json.fields).Some? ==>
              SendMessage(Responded(r)) == Success(SelectReply(r.json.fields).value)
  {
    if r.json.ParsedObject? {
      NoReplyIffNoUsableValue(r.json.fields);
    }
  }

  /** The message thrown when an object holds no usable text never reaches
      the caller: the JSON branch's own catch turns it into the malformed
      error. */
  lemma NoUsableTextNeverSurfaces(r: HttpResponse)
    ensures ProcessResponse(r).Failure? ==> !StartsWith(ProcessResponse(r).error, NoUsableTextPrefix)
  {
    var res := ProcessResponse(r);
    match r.body
    case BodyUnreadable =>
      if IsOk(r.status) {
        PrefixesClash(res.error, ReadFailedPrefix, NoUsableTextPrefix, 0);
      } else {
        PrefixesClash(res.error, StatusErrorPrefix, NoUsableTextPrefix, 10);
      }
    case BodyText(text) =>
      if !IsOk(r.status) {
        PrefixesClash(res.error, StatusErrorPrefix, NoUsableTextPrefix, 10);
      } else if !IsBlank(text) && DeclaresJson(r.contentType) && ParseAndSelect(r.json).Failure? {
        PrefixesClash(res.error, MalformedPrefix, NoUsableTextPrefix, 7);
      } else {
        ProcessErrorsClassified(r);
      }
  }

  /** A response whose status is not OK is reported with its status and a
      detail taken from the body. */
  lemma NonOkStatusReported(r: HttpResponse)
    requires !IsOk(r.status) && r.body.BodyText?
    ensures SendMessage(Responded(r))
            == Failure(StatusErrorMessage(r.status, StatusErrorDetail(r.body.text, r.statusText, r.json)))
  {
  }

  /** The detail of a non-OK response: the nested `error.message` comes
      first, then the top-level `message`, then the body. When the body is
      not a JSON object the detail is the body, or the status text when the
      body is empty. */
  lemma StatusErrorDetailChoice(text: string, statusText: string, json: JsonParse)
    ensures var d := StatusErrorDetail(text, statusText, json);
            json.ParsedObject? && NestedErrorMessage(json.fields).Some? ==>
              d == NestedErrorMessage(json.fields).value
    ensures json.ParsedObject? ==>
              var d := StatusErrorDetail(text, statusText, json);
              var top := TruthyString(LookupField(json.fields, "message"));
              NestedErrorMessage(json.fields).None? && top.Some? ==> d == top.value
    ensures json.ParsedObject? ==>
              var d := StatusErrorDetail(text, statusText, json);
              var top := TruthyString(LookupField(json.fields, "message"));
              NestedErrorMessage(json.fields).None? && top.None? ==> d == text
    ensures var d := StatusErrorDetail(text, statusText, json);
            !json.ParsedObject? ==> (text != "" ==> d == text) && (text == "" ==> d == statusText)
  {
  }

  /** The worked example: status 500 with `{"error":{"message":"boom"}}`. */
  lemma NestedErrorExample(r: HttpResponse)
    requires r.status == 500 && r.body.BodyText?
    requires r.json == ParsedObject([("error", JObject([("message", JString("boom"))]))])
    ensures SendMessage(Responded(r)) == Failure(StatusErrorPrefix + " (status 500): boom")
  {
    var fields := r.json.fields;
    assert LookupField(fields, "error") == Some(JObject([("message", JString("boom"))]));
    assert NestedErrorMessage(fields) == Some("boom");
    assert StatusErrorDetail(r.body.text, r.statusText, r.json) == "boom";
    assert NatToString(500) == "500";
    assert StatusErrorMessage(500, "boom") == StatusErrorPrefix + " (status 500): boom";
  }

  /** A body that cannot be read is reported with the status when the
      response is not OK, and as a read failure when it is. */
  lemma UnreadableBodyReported(r: HttpResponse)
    requires r.body.BodyUnreadable?
    ensures !IsOk(r.status) ==> SendMessage(Responded(r)) == Failure(UnreadableBodyMessage(r.status))
    ensures IsOk(r.status) ==> SendMessage(Responded(r)) == Failure(ReadFailedMessage)
  {
  }

  /** Known errors pass the outer handler unchanged; any other `Error` is
      wrapped exactly once, keeping its message, into a message that is not
      itself a known error. */
  lemma ClassifyErrors(m: string)
    ensures IsClassified(m) ==> Classify(ThrownError(m)) == m
    ensures !IsClassified(m) ==>
              && Classify(ThrownError(m)) == ConnectFailurePrefix + m + ")"
              && !IsClassified(Classify(ThrownError(m)))
  {
    var w := ConnectFailurePrefix + m + ")";
    PrefixesClash(w, ConnectFailurePrefix, StatusErrorPrefix, 0);
    PrefixesClash(w, ConnectFailurePrefix, MalformedPrefix, 0);
    PrefixesClash(w, ConnectFailurePrefix, NoUsableTextPrefix, 0);
    PrefixesClash(w, ConnectFailurePrefix, EmptyReplyPrefix, 0);
    PrefixesClash(w, ConnectFailurePrefix, ReadFailedPrefix, 10);
  }

  /** Every failure the caller sees is a known error, a wrapped connection
      failure, or a wrapped non-error value; a fetch that throws never
      produces a reply. */
  lemma FailureKinds(f: FetchOutcome)
    ensures SendMessage(f).Failure? ==>
              || IsClassified(SendMessage(f).error)
              || StartsWith(SendMessage(f).error, ConnectFailurePrefix)
              || StartsWith(SendMessage(f).error, UnknownFailurePrefix)
    ensures f.FetchThrew? ==> SendMessage(f).Failure?
  {
    if f.Responded? {
      ProcessErrorsClassified(f.response);
    }
  }

  // ---------------------------------------------------------------------------
  // Reply selection against an independent ranking
  // ---------------------------------------------------------------------------

  /** No key appears twice, as in any object `JSON.parse` builds. */
  predicate DistinctKeys(fields: seq<(string, JsonValue)>) {
    forall i, j :: 0 <= i < j < |fields| ==> fields[i].0 != fields[j].0
  }

  /** How strongly the field at index `i` is preferred as the reply: the
      three named fields first, in order, then every other field by
      position. Lower is better. */
  function Rank(fields: seq<(string, JsonValue)>, i: nat): nat
    requires i < |fields|
  {
    var key := fields[i].0;
    if key == "output" then 0
    else if key == "reply" then 1
    else if key == "answer" then 2
    else 3 + i
  }

  /** `x` is the trimmed value of the best-ranked usable field. */
  ghost predicate IsPreferredReply(fields: seq<(string, JsonValue)>, x: string) {
    exists i :: 0 <= i < |fields| && IsUsable(fields[i].1) && x == Trim(fields[i].1.str)
                && forall j :: 0 <= j < |fields| && IsUsable(fields[j].1) ==> Rank(fields, i) <= Rank(fields, j)
  }

  /** With distinct keys, a usable field is what `UsableField` finds under
      its key. */
  lemma UsableFieldFound(fields: seq<(string, JsonValue)>, j: nat)
    requires DistinctKeys(fields) && j < |fields| && IsUsable(fields[j].1)
    ensures UsableField(fields, fields[j].0) == Some(fields[j].1.str)
  {
    var key := fields[j].0;
    var v := LookupField(fields, key);
    var i :| 0 <= i < |fields| && fields[i] == (key, v.value)
             && forall k :: 0 <= k < i ==> fields[k].0 != key;
  }

  /** No reply is chosen exactly when no field holds a usable string. */
  lemma NoReplyIffNoUsableValue(fields: seq<(string, JsonValue)>)
    ensures SelectReply(fields).None? <==> forall i :: 0 <= i < |fields| ==> !IsUsable(fields[i].1)
  {
    if forall i :: 0 <= i < |fields| ==> !IsUsable(fields[i].1) {
      NamedFieldNotUsable(fields, "output");
      NamedFieldNotUsable(fields, "reply");
      NamedFieldNotUsable(fields, "answer");
    }
  }

  lemma NamedFieldNotUsable(fields: seq<(string, JsonValue)>, key: string)
    requires forall i :: 0 <= i < |fields| ==> !IsUsable(fields[i].1)
    ensures UsableField(fields, key).None?
  {
    var v := LookupField(fields, key);
    if v.Some? {
      var i :| 0 <= i < |fields| && fields[i] == (key, v.value)
               && forall k :: 0 <= k < i ==> fields[k].0 != key;
      assert !IsUsable(fields[i].1);
    }
  }

  /** The reply chosen from an object with distinct keys is the trimmed value
      of its best-ranked usable field. */
  lemma SelectReplyIsPreferred(fields: seq<(string, JsonValue)>)
    requires DistinctKeys(fields)
    ensures SelectReply(fields).Some? ==> IsPreferredReply(fields, SelectReply(fields).value)
  {
    if UsableField(fields, "output").Some? {
      PreferredNamed(fields, "output", 0);
    } else if UsableField(fields, "reply").Some? {
      PreferredNamed(fields, "reply", 1);
    } else if UsableField(fields, "answer").Some? {
      PreferredNamed(fields, "answer", 2);
    } else if FirstUsableValue(fields).Some? {
      var s := FirstUsableValue(fields).value;
      var i :| 0 <= i < |fields| && fields[i].1 == JString(s) && IsUsable(fields[i].1)
               && forall j :: 0 <= j < i ==> !IsUsable(fields[j].1);
      forall j | 0 <= j < |fields| && IsUsable(fields[j].1)
        ensures 3 <= Rank(fields, j) && Rank(fields, i) <= Rank(fields, j)
      {
        UsableFieldFound(fields, j);
        UsableFieldFound(fields, i);
      }
      assert Trim(s) == Trim(fields[i].1.str);
    }
  }

  /** The named field `key`, of rank `k`, is usable, and every field of
      lower rank is not. */
  lemma PreferredNamed(fields: seq<(string, JsonValue)>, key: string, k: nat)
    requires DistinctKeys(fields)
    requires (key, k) in {("output", 0), ("reply", 1), ("answer", 2)}
    requires UsableField(fields, key).Some?
    requires k >= 1 ==> UsableField(fields, "output").None?
    requires k >= 2 ==> UsableField(fields, "reply").None?
    ensures IsPreferredReply(fields, Trim(UsableField(fields, key).value))
  {
    var v := LookupField(fields, key);
    var i :| 0 <= i < |fields| && fields[i] == (key, v.value)
             && forall m :: 0 <= m < i ==> fields[m].0 != key;
    assert Rank(fields, i) == k;
    forall j | 0 <= j < |fields| && IsUsable(fields[j].1)
      ensures Rank(fields, i) <= Rank(fields, j)
    {
      UsableFieldFound(fields, j);
    }
  }
}
