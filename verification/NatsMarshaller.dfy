/** The NATS wire format: an envelope's payload as message data, and its other fields as headers. */
module NatsMarshaller {
  import opened Wrappers
  import opened GoStrings
  import opened Topics
  import opened MapOrders
  import opened MessageEnvelopes
  import opened MessageIds
  import opened PayloadConversion

  // ----- nats.Header and nats.Msg -----

  type Header = map<string, seq<string>>

  datatype Msg = Msg(subject: string, header: Header, data: seq<byte>)

  function Get(header: Header, key: string): string {
    if key in header && header[key] != [] then header[key][0] else ""
  }

  function Values(header: Header, key: string): seq<string> {
    if key in header then header[key] else []
  }

  function Set(header: Header, key: string, value: string): Header {
    header[key := [value]]
  }

  function Add(header: Header, key: string, value: string): Header {
    header[key := Values(header, key) + [value]]
  }

  const CONTENT_TYPE_HEADER := "Content-Type"
  const CORRELATION_ID_HEADER := "X-Correlation-ID"
  const REQUEST_ID_HEADER := "RequestId"
  const API_VERSION_HEADER := "ApiVersion"
  const ERROR_CODE_HEADER := "ErrorCode"
  const QUERY_PARAMS_HEADER := "QueryParams"
  const MSG_ID_HEADER := "Nats-Msg-Id"

  lemma HeaderNamesDiffer()
    ensures var names := [CONTENT_TYPE_HEADER, CORRELATION_ID_HEADER, REQUEST_ID_HEADER, API_VERSION_HEADER,
                          ERROR_CODE_HEADER, QUERY_PARAMS_HEADER, MSG_ID_HEADER];
            forall i, j :: 0 <= i < j < |names| ==> names[i] != names[j]
  {
    assert REQUEST_ID_HEADER[0] != ERROR_CODE_HEADER[0];
    assert QUERY_PARAMS_HEADER[0] != MSG_ID_HEADER[0];
  }

  datatype ClientConfig = ClientConfig(clientId: string, exactlyOnce: bool)

  // ----- Marshalling -----

  function QueryOf<V>(v: MessageEnvelope<V>): map<string, string> {
    if v.queryParams.Some? then v.queryParams.value else map[]
  }

  function QueryLine(key: string, value: string): string {
    key + ":" + value
  }

  function QueryLines(query: map<string, string>, order: seq<string>): seq<string> {
    seq(|order|, i requires 0 <= i < |order| => if order[i] in query then QueryLine(order[i], query[order[i]]) else "")
  }

  function FieldHeaders<V>(v: MessageEnvelope<V>): Header {
    Set(Set(Set(Set(Set(map[],
      CORRELATION_ID_HEADER, v.correlationID),
      CONTENT_TYPE_HEADER, v.contentType),
      REQUEST_ID_HEADER, v.requestID),
      API_VERSION_HEADER, v.apiVersion),
      ERROR_CODE_HEADER, Itoa(v.errorCode))
  }

  function WithQueryLines(header: Header, lines: seq<string>): Header {
    if lines == [] then header else header[QUERY_PARAMS_HEADER := lines]
  }

  function WithMessageId(header: Header, config: ClientConfig, correlationID: string): Header {
    if config.exactlyOnce then Set(header, MSG_ID_HEADER, MessageId(config.clientId, correlationID)) else header
  }

  ghost function EncodedMsg<V>(
    config: ClientConfig, v: MessageEnvelope<V>, data: seq<byte>, publishTopic: string, order: seq<string>): Msg
    requires IsOrderOf(order, QueryOf(v).Keys)
  {
    var lines := QueryLines(QueryOf(v), order);
    var header := WithMessageId(WithQueryLines(FieldHeaders(v), lines), config, v.correlationID);
    Msg(TopicToSubject(publishTopic), header, data)
  }

  lemma OneMoreLine(header: Header, query: map<string, string>, order: seq<string>, key: string)
    requires QUERY_PARAMS_HEADER !in header && key in query
    ensures Add(WithQueryLines(header, QueryLines(query, order)), QUERY_PARAMS_HEADER, QueryLine(key, query[key]))
         == WithQueryLines(header, QueryLines(query, order + [key]))
  {
    assert QueryLines(query, order + [key]) == QueryLines(query, order) + [QueryLine(key, query[key])];
  }

  /** Adds a header line for each query parameter; `order` is the order in which Go ranges over the map. */
  method AddQueryLines(header: Header, query: map<string, string>, order: seq<string>) returns (r: Header)
    requires QUERY_PARAMS_HEADER !in header && IsOrderOf(order, query.Keys)
    ensures r == WithQueryLines(header, QueryLines(query, order))
  {
    hide Add, WithQueryLines, QueryLines;
    r := header;
    NoLines(header, query);
    var i := 0;
    while i < |order|
      invariant 0 <= i <= |order|
      invariant r == WithQueryLines(header, QueryLines(query, order[..i]))
    {
      var key := order[i];
      r := Add(r, QUERY_PARAMS_HEADER, QueryLine(key, query[key]));
      OneMoreLine(header, query, order[..i], key);
      assert order[..i] + [key] == order[..i + 1];
      i := i + 1;
    }
    assert order[..i] == order;
  }

  lemma NoLines(header: Header, query: map<string, string>)
    ensures WithQueryLines(header, QueryLines(query, [])) == header
  {
  }

  /** `natsMarshaller.Marshal`, with any order of the range over the query parameters. */
  method Marshal<V>(
    codecs: Codecs<V>, config: ClientConfig, v: MessageEnvelope<V>, publishTopic: string, order: seq<string>)
    returns (r: Result<Msg, Cause>)
    requires IsOrderOf(order, QueryOf(v).Keys)
    ensures match ConvertMsgPayloadToByteArray(codecs, v.contentType, v.payload)
            case Failure(cause) => r == Failure(cause)
            case Success(data) => r == Success(EncodedMsg(config, v, data, publishTopic, order))
  {
    var subject := TopicToSubject(publishTopic);
    var payload := ConvertMsgPayloadToByteArray(codecs, v.contentType, v.payload);
    if payload.Failure? {
      return Failure(payload.error);
    }
    var header: Header := map[];
    header := Set(header, CORRELATION_ID_HEADER, v.correlationID);
    header := Set(header, CONTENT_TYPE_HEADER, v.contentType);
    header := Set(header, REQUEST_ID_HEADER, v.requestID);
    header := Set(header, API_VERSION_HEADER, v.apiVersion);
    header := Set(header, ERROR_CODE_HEADER, Itoa(v.errorCode));
    HeaderNamesDiffer();
    header := AddQueryLines(header, QueryOf(v), order);
    if config.exactlyOnce {
      header := Set(header, MSG_ID_HEADER, MessageId(config.clientId, v.correlationID));
    }
    r := Success(Msg(subject, header, payload.value));
  }

  // ----- Unmarshalling -----

  /** Panicked: a query parameter without a colon is indexed out of range. */
  datatype Outcome = Decoded | BadErrorCode | Panicked

  datatype Lines = Lines(query: map<string, string>, intact: bool)

  /** A line's text before the first colon, and its text between the first and the second. */
  function ParsedLine(line: string): Option<(string, string)> {
    var kv := Split(line, ':');
    if |kv| < 2 then None else Some((TrimSpace(kv[0]), TrimSpace(kv[1])))
  }

  /** The map after the lines were read one after another, up to the first that has no colon. */
  function DecodedLines(lines: seq<string>): Lines {
    if lines == [] then Lines(map[], true)
    else
      var n := |lines| - 1;
      var before := DecodedLines(lines[..n]);
      var parsed := ParsedLine(lines[n]);
      if !before.intact || parsed == None then Lines(before.query, false)
      else Lines(before.query[parsed.value.0 := parsed.value.1], true)
  }

  function DecodedFields<V>(msg: Msg, target: MessageEnvelope<V>): MessageEnvelope<V> {
    target.(receivedTopic := SubjectToTopic(msg.subject),
            payload := Bytes(msg.data),
            correlationID := Get(msg.header, CORRELATION_ID_HEADER),
            contentType := Get(msg.header, CONTENT_TYPE_HEADER),
            requestID := Get(msg.header, REQUEST_ID_HEADER),
            apiVersion := Get(msg.header, API_VERSION_HEADER))
  }

  function DecodedErrorCode(msg: Msg, before: int): Option<int> {
    var errorCode := Get(msg.header, ERROR_CODE_HEADER);
    if errorCode == "" then Some(before) else Atoi(errorCode)
  }

  /** The target envelope and the outcome after unmarshalling `msg` into `target`. */
  function DecodedMsg<V>(msg: Msg, target: MessageEnvelope<V>): (MessageEnvelope<V>, Outcome) {
    var fields := DecodedFields(msg, target);
    match DecodedErrorCode(msg, target.errorCode)
    case None => (fields, BadErrorCode)
    case Some(code) =>
      var lines := DecodedLines(Values(msg.header, QUERY_PARAMS_HEADER));
      (fields.(errorCode := code, queryParams := Some(lines.query)), if lines.intact then Decoded else Panicked)
  }

  /** `natsMarshaller.Unmarshal`. */
  method Unmarshal<V>(msg: Msg, target: EnvelopeRef<V>) returns (outcome: Outcome)
    modifies target
    ensures (target.envelope, outcome) == DecodedMsg(msg, old(target.envelope))
  {
    hide SubjectToTopic, Get, Values, Split, TrimSpace, Atoi, ParsedLine, DecodedLines;
    var topic := SubjectToTopic(msg.subject);
    target.envelope := target.envelope.(receivedTopic := topic);
    target.envelope := target.envelope.(payload := Bytes(msg.data));
    target.envelope := target.envelope.(correlationID := Get(msg.header, CORRELATION_ID_HEADER));
    target.envelope := target.envelope.(contentType := Get(msg.header, CONTENT_TYPE_HEADER));
    target.envelope := target.envelope.(requestID := Get(msg.header, REQUEST_ID_HEADER));
    target.envelope := target.envelope.(apiVersion := Get(msg.header, API_VERSION_HEADER));

    var errorCode := Get(msg.header, ERROR_CODE_HEADER);
    if errorCode != "" {
      var ec := Atoi(errorCode);
      if ec == None {
        return BadErrorCode;
      }
      target.envelope := target.envelope.(errorCode := ec.value);
    }

    target.envelope := target.envelope.(queryParams := Some(map[]));
    var query := Values(msg.header, QUERY_PARAMS_HEADER);
    ghost var fields := target.envelope;
    NoLinesDecoded(query);
    var i := 0;
    while i < |query|
      invariant 0 <= i <= |query|
      invariant DecodedLines(query[..i]).intact
      invariant target.envelope == fields.(queryParams := Some(DecodedLines(query[..i]).query))
    {
      var kv := Split(query[i], ':');
      NextLineDecoded(query, i);
      if |kv| < 2 {
        NeverIntactAgain(query, i + 1);
        return Panicked;
      }
      target.envelope := target.envelope.(
        queryParams := Some(target.envelope.queryParams.value[TrimSpace(kv[0]) := TrimSpace(kv[1])]));
      i := i + 1;
    }
    assert query[..|query|] == query;
    outcome := Decoded;
  }

  lemma NoLinesDecoded(lines: seq<string>)
    ensures DecodedLines(lines[..0]) == Lines(map[], true)
  {
  }

  lemma NextLineDecoded(lines: seq<string>, i: nat)
    requires i < |lines|
    ensures var kv := Split(lines[i], ':');
            var query := DecodedLines(lines[..i]).query;
            DecodedLines(lines[..i]).intact ==>
              DecodedLines(lines[..i + 1])
              == if |kv| < 2 then Lines(query, false) else Lines(query[TrimSpace(kv[0]) := TrimSpace(kv[1])], true)
  {
    hide Split, TrimSpace;
    assert lines[..i + 1][..i] == lines[..i];
  }

  lemma {:induction false} NeverIntactAgain(lines: seq<string>, n: nat)
    requires n <= |lines| && !DecodedLines(lines[..n]).intact
    ensures DecodedLines(lines) == DecodedLines(lines[..n])
    decreases |lines|
  {
    if n == |lines| {
      assert lines[..n] == lines;
    } else {
      assert lines[..|lines| - 1][..n] == lines[..n];
      NeverIntactAgain(lines[..|lines| - 1], n);
    }
  }

  lemma LineParsesExactlyWhenColon(line: string)
    ensures ParsedLine(line).Some? <==> ':' in line
  {
    SplitHead(line, ':');
  }

  /** On any message at all, the query parameters are safe to index exactly when every line has a colon. */
  lemma {:induction false} IntactExactlyWhenColons(lines: seq<string>)
    ensures DecodedLines(lines).intact <==> forall i :: 0 <= i < |lines| ==> ':' in lines[i]
  {
    hide ParsedLine;
    if lines != [] {
      var n := |lines| - 1;
      IntactExactlyWhenColons(lines[..n]);
      LineParsesExactlyWhenColon(lines[n]);
      assert forall i :: 0 <= i < n ==> lines[..n][i] == lines[i];
    }
  }

  // ----- Query parameters -----

  /** What a query parameter is read back as. */
  function ReadBack(query: map<string, string>, key: string): (string, string) {
    if key in query then
      WrittenLineParses(key, query[key]);
      ParsedLine(QueryLine(key, query[key])).value
    else ("", "")
  }

  function Reader(query: map<string, string>): string -> (string, string) {
    key => ReadBack(query, key)
  }

  lemma WrittenLineParses(key: string, value: string)
    ensures ParsedLine(QueryLine(key, value)).Some?
  {
    SplitConcat(key, ':', value);
  }

  /** Reading the written lines back never fails, and collects what each parameter is read back as. */
  lemma {:induction false} WrittenLinesDecode(query: map<string, string>, order: seq<string>)
    requires forall i :: 0 <= i < |order| ==> order[i] in query
    ensures DecodedLines(QueryLines(query, order)) == Lines(Collect(Reader(query), order), true)
  {
    hide ParsedLine;
    if order != [] {
      var n := |order| - 1;
      WrittenLinesDecode(query, order[..n]);
      WrittenLineParses(order[n], query[order[n]]);
      assert QueryLines(query, order)[..n] == QueryLines(query, order[..n]);
      assert Reader(query)(order[n]) == ReadBack(query, order[n]);
    }
  }

  /**
    The decoded map is the same for every order of iteration exactly when parameters that are read
    back under one key are read back with one value.
   */
  lemma DecodingIgnoresOrder(query: map<string, string>)
    ensures (forall o1, o2 :: IsOrderOf(o1, query.Keys) && IsOrderOf(o2, query.Keys) ==>
               DecodedLines(QueryLines(query, o1)) == DecodedLines(QueryLines(query, o2)))
       <==> EntriesAgree(Reader(query), query.Keys)
  {
    hide ReadBack;
    OrderIndependence(Reader(query), query.Keys);
    forall order | IsOrderOf(order, query.Keys)
      ensures DecodedLines(QueryLines(query, order)) == Lines(Collect(Reader(query), order), true)
    {
      WrittenLinesDecode(query, order);
    }
  }

  /** A colon-free key comes back trimmed, with its value cut at the value's first colon and trimmed. */
  lemma ColonFreeKey(query: map<string, string>, key: string)
    requires key in query && ':' !in key
    ensures ReadBack(query, key) == (TrimSpace(key), TrimSpace(Before(query[key], ':')))
  {
    hide TrimSpace;
    SplitConcat(key, ':', query[key]);
    SplitWithoutSeparator(key, ':');
    SplitHead(query[key], ':');
  }

  predicate KeysStayDistinct(query: map<string, string>) {
    && (forall k :: k in query ==> ':' !in k)
    && (forall k1, k2 :: k1 in query && k2 in query && TrimSpace(k1) == TrimSpace(k2) ==> k1 == k2)
  }

  /** What every order of iteration decodes to, when the keys are colon-free and distinct after trimming. */
  lemma DistinctKeysDecode(query: map<string, string>, order: seq<string>)
    requires IsOrderOf(order, query.Keys) && KeysStayDistinct(query)
    ensures var decoded := DecodedLines(QueryLines(query, order)).query;
            && decoded.Keys == (set k | k in query :: TrimSpace(k))
            && forall k :: k in query ==>
                 TrimSpace(k) in decoded && decoded[TrimSpace(k)] == TrimSpace(Before(query[k], ':'))
  {
    hide TrimSpace, ReadBack, Before, DecodedLines;
    WrittenLinesDecode(query, order);
    CollectHolds(Reader(query), order);
    forall k | k in query
      ensures Reader(query)(k) == (TrimSpace(k), TrimSpace(Before(query[k], ':')))
    {
      ColonFreeKey(query, k);
    }
  }

  predicate IsClean(s: string) {
    ':' !in s && IsTrimmed(s)
  }

  predicate IsCleanQuery(query: map<string, string>) {
    forall k :: k in query ==> IsClean(k) && IsClean(query[k])
  }

  lemma ReadBackIsClean(query: map<string, string>, key: string)
    requires key in query
    ensures IsClean(ReadBack(query, key).0) && IsClean(ReadBack(query, key).1)
  {
    hide TrimSpace, IsTrimmed;
    SplitConcat(key, ':', query[key]);
    var line := QueryLine(key, query[key]);
    SplitJoins(line, ':');
    var kv := Split(line, ':');
    TrimSpaceTrims(kv[0]);
    TrimSpaceTrims(kv[1]);
    TrimSpaceShortens(kv[0], ':');
    TrimSpaceShortens(kv[1], ':');
  }

  lemma CleanParameterIsReadBack(query: map<string, string>, key: string)
    requires key in query && IsClean(key) && IsClean(query[key])
    ensures ReadBack(query, key) == (key, query[key])
  {
    hide TrimSpace, IsTrimmed, ReadBack, Before;
    ColonFreeKey(query, key);
    BeforeIsSeparatorFree(query[key], ':');
    TrimSpaceTrims(key);
    TrimSpaceTrims(query[key]);
  }

  /** Query parameters survive exactly when all keys and values are colon-free and trimmed. */
  lemma QueryRoundTrip(query: map<string, string>, order: seq<string>)
    requires IsOrderOf(order, query.Keys)
    ensures DecodedLines(QueryLines(query, order)).query == query <==> IsCleanQuery(query)
  {
    hide IsClean, ReadBack, DecodedLines, Collect, QueryLines;
    WrittenLinesDecode(query, order);
    if IsCleanQuery(query) {
      forall k | k in query
        ensures Reader(query)(k) == (k, query[k])
      {
        CleanParameterIsReadBack(query, k);
      }
      CollectSame(Reader(query), order, query);
    }
    if Collect(Reader(query), order) == query {
      forall d | d in query
        ensures IsClean(d) && IsClean(query[d])
      {
        var k := CollectedFrom(Reader(query), order, d);
        ReadBackIsClean(query, k);
      }
    }
  }

  // ----- Whole messages -----

  lemma EncodedHeaders<V>(
    config: ClientConfig, v: MessageEnvelope<V>, data: seq<byte>, topic: string, order: seq<string>)
    requires IsOrderOf(order, QueryOf(v).Keys)
    ensures var h := EncodedMsg(config, v, data, topic, order).header;
            && Get(h, CORRELATION_ID_HEADER) == v.correlationID
            && Get(h, CONTENT_TYPE_HEADER) == v.contentType
            && Get(h, REQUEST_ID_HEADER) == v.requestID
            && Get(h, API_VERSION_HEADER) == v.apiVersion
            && Get(h, ERROR_CODE_HEADER) == Itoa(v.errorCode)
            && Values(h, QUERY_PARAMS_HEADER) == QueryLines(QueryOf(v), order)
            && Get(h, MSG_ID_HEADER) == if config.exactlyOnce then MessageId(config.clientId, v.correlationID) else ""
  {
    HeaderNamesDiffer();
    assert QueryLines(QueryOf(v), order) == [] <==> order == [];
  }

  /**
    Unmarshalling a marshalled envelope never panics and always succeeds, whatever the target held
    before, the order of iteration, and the delivery guarantee: the message id header touches nothing.
   */
  lemma DecodedAfterEncoded<V>(
    config: ClientConfig, v: MessageEnvelope<V>, data: seq<byte>, topic: string, order: seq<string>,
        target: MessageEnvelope<V>)
    requires IsOrderOf(order, QueryOf(v).Keys)
    requires MIN_INT64 <= v.errorCode <= MAX_INT64
    ensures DecodedMsg(EncodedMsg(config, v, data, topic, order), target)
         == (v.(receivedTopic := SubjectToTopic(TopicToSubject(topic)),
                payload := Bytes(data),
                queryParams := Some(DecodedLines(QueryLines(QueryOf(v), order)).query)), Decoded)
  {
    EncodedHeaders(config, v, data, topic, order);
    AtoiOfItoa(v.errorCode);
    WrittenLinesDecode(QueryOf(v), order);
  }

  /**
    A byte payload comes back in the same envelope, with the topic as received topic and a missing
    query map empty, exactly when the topic is free of NATS syntax and the query is clean.
   */
  lemma MarshalRoundTrip<V>(
    codecs: Codecs<V>, config: ClientConfig, v: MessageEnvelope<V>, topic: string, order: seq<string>,
        target: MessageEnvelope<V>)
    requires IsOrderOf(order, QueryOf(v).Keys)
    requires MIN_INT64 <= v.errorCode <= MAX_INT64
    requires v.payload.Bytes?
    ensures ConvertMsgPayloadToByteArray(codecs, v.contentType, v.payload) == Success(v.payload.bytes)
    ensures DecodedMsg(EncodedMsg(config, v, v.payload.bytes, topic, order), target)
            == (v.(receivedTopic := topic, queryParams := Some(QueryOf(v))), Decoded)
       <==> FreeOfNats(topic) && IsCleanQuery(QueryOf(v))
  {
    DecodedAfterEncoded(config, v, v.payload.bytes, topic, order, target);
    TopicRoundTrip(topic);
    QueryRoundTrip(QueryOf(v), order);
  }

  /**
    A typed payload crosses the wire: whatever the marshaller made of it, the receiver that asks for
    the payload's own type gets the payload back.
   */
  lemma TypedPayloadCrossesTheWire<V(!new)>(
    codecs: Codecs<V>, config: ClientConfig, v: MessageEnvelope<V>, data: seq<byte>, topic: string, order: seq<string>,
    target: MessageEnvelope<V>)
    requires Lawful(codecs) && IsOrderOf(order, QueryOf(v).Keys) && MIN_INT64 <= v.errorCode <= MAX_INT64
    requires v.payload.Typed? && ConvertMsgPayloadToByteArray(codecs, v.contentType, v.payload) == Success(data)
    ensures var received := DecodedMsg(EncodedMsg(config, v, data, topic, order), target).0;
            GetMsgPayload(codecs, received.contentType, received.payload, NamedType(v.payload.typeName))
                == Success(v.payload)
  {
    hide EncodedMsg, DecodedMsg, Lawful, QueryLines, DecodedLines;
    DecodedAfterEncoded(config, v, data, topic, order, target);
    ConversionIsInvisible(codecs, v.contentType, v.payload, NamedType(v.payload.typeName));
  }

  /** A value with a colon in it loses everything from that colon on. */
  lemma ColonInValueIsCut()
    ensures var query := map["since" := "12:30"];
            IsOrderOf(["since"], query.Keys) && DecodedLines(QueryLines(query, ["since"])).query == map["since" := "12"]
  {
    hide TrimSpace, DecodedLines, QueryLines, Before, Split;
    var query := map["since" := "12:30"];
    TrimSpaceTrims("12");
    TrimSpaceTrims("since");
    DistinctKeysDecode(query, ["since"]);
    assert Before("12:30", ':') == "12" by {
      SplitConcat("12", ':', "30");
      assert "12" + ":" + "30" == "12:30";
      SplitWithoutSeparator("12", ':');
      SplitHead("12:30", ':');
    }
    assert forall k :: k in query ==> k == "since";
  }

  // ----- What can go wrong -----

  /** The first line of the error code header; none is the empty text. */
  function ErrorCodeText(msg: Msg): string {
    Get(msg.header, "ErrorCode")
  }

  /** Some number that fits 64 bits is written in the text. */
  ghost predicate IsErrorCode(text: string, code: int) {
    MIN_INT64 <= code <= MAX_INT64 && IsNumeral(text, code)
  }

  /**
    For any message at all: unmarshalling reports a bad error code exactly when there is one that is no
    numeral of 64 bits, and then leaves the target's error code and query as they were; otherwise it takes
    over the code, if there is one, and panics exactly when some query line has no colon.
   */
  lemma OutcomeOfUnmarshal<V>(msg: Msg, target: MessageEnvelope<V>)
    ensures var (after, outcome) := DecodedMsg(msg, target);
            var text, lines := ErrorCodeText(msg), Values(msg.header, "QueryParams");
            && (outcome == BadErrorCode <==> text != "" && forall code :: !IsErrorCode(text, code))
            && (outcome == BadErrorCode ==>
                  after.errorCode == target.errorCode && after.queryParams == target.queryParams)
            && (outcome != BadErrorCode && text == "" ==> after.errorCode == target.errorCode)
            && (outcome != BadErrorCode && text != "" ==> IsErrorCode(text, after.errorCode))
            && (outcome == Panicked <==> outcome != BadErrorCode && exists i :: 0 <= i < |lines| && ':' !in lines[i])
  {
    hide DecodedLines, Atoi, IsNumeral;
    var text, lines := ErrorCodeText(msg), Values(msg.header, "QueryParams");
    assert "ErrorCode" == ERROR_CODE_HEADER && "QueryParams" == QUERY_PARAMS_HEADER;
    IntactExactlyWhenColons(lines);
    if Atoi(text).Some? {
      AtoiExactlyNumerals(text, Atoi(text).value);
    }
    forall code
      ensures Atoi(text) == Some(code) <==> IsErrorCode(text, code)
    {
      AtoiExactlyNumerals(text, code);
    }
  }

  // ----- Exactly once -----

  /** What the JSON marshaller makes of an encoded envelope: no header but the message id. */
  function JsonMsg(config: ClientConfig, correlationID: string, data: seq<byte>, publishTopic: string): Msg {
    var header: Header :=
        if config.exactlyOnce then map[MSG_ID_HEADER := [config.clientId + "-" + correlationID]] else map[];
    Msg(TopicToSubject(publishTopic), header, data)
  }

  /** `jsonMarshaller.Marshal`; `encode` is `json.Marshal` on envelopes. */
  method JsonMarshal<V>(
    encode: MessageEnvelope<V> -> Result<seq<byte>, string>, config: ClientConfig, v: MessageEnvelope<V>,
        publishTopic: string)
    returns (r: Result<Msg, string>)
    ensures match encode(v)
            case Failure(error) => r == Failure(error)
            case Success(data) => r == Success(JsonMsg(config, v.correlationID, data, publishTopic))
  {
    var subject := TopicToSubject(publishTopic);
    var header: Header := map[];
    var data := encode(v);
    if config.exactlyOnce {
      header := Set(header, MSG_ID_HEADER, MessageId(config.clientId, v.correlationID));
    }
    if data.Failure? {
      return Failure(data.error);
    }
    r := Success(Msg(subject, header, data.value));
  }

  /** Both marshallers give one envelope the same subject and the same message id, if they give it one. */
  lemma MarshallersShareMessageId<V>(
    config: ClientConfig, v: MessageEnvelope<V>, data: seq<byte>, json: seq<byte>, topic: string, order: seq<string>)
    requires IsOrderOf(order, QueryOf(v).Keys)
    ensures var ours, theirs :=
        EncodedMsg(config, v, data, topic, order), JsonMsg(config, v.correlationID, json, topic);
            && ours.subject == theirs.subject
            && Values(ours.header, MSG_ID_HEADER) == Values(theirs.header, MSG_ID_HEADER)
            && (MSG_ID_HEADER in ours.header <==> config.exactlyOnce)
            && (MSG_ID_HEADER in theirs.header <==> config.exactlyOnce)
  {
    HeaderNamesDiffer();
  }

  /** `jsonMarshaller.Unmarshal`; `decode` is `json.Unmarshal` on envelopes, into a target. */
  method JsonUnmarshal<V>(
    decode: (seq<byte>, MessageEnvelope<V>) -> (MessageEnvelope<V>, Option<string>), msg: Msg, target: EnvelopeRef<V>)
    returns (error: Option<string>)
    modifies target
    ensures (target.envelope, error) == JsonDecodedMsg(decode, msg, old(target.envelope))
  {
    var topic := SubjectToTopic(msg.subject);
    var (envelope, problem) := decode(msg.data, target.envelope);
    target.envelope := envelope;
    if problem.Some? {
      return problem;
    }
    target.envelope := target.envelope.(receivedTopic := topic);
    error := None;
  }

  function JsonDecodedMsg<V>(
    decode: (seq<byte>, MessageEnvelope<V>) -> (MessageEnvelope<V>, Option<string>), msg: Msg,
    target: MessageEnvelope<V>)
    : (MessageEnvelope<V>, Option<string>)
  {
    var (envelope, error) := decode(msg.data, target);
    if error.Some? then (envelope, error) else (envelope.(receivedTopic := SubjectToTopic(msg.subject)), None)
  }

  /**
    Whatever the JSON decoder makes of the bytes that the encoder made of an envelope is what is received:
    its error, or the envelope with the topic as received topic, exactly when the topic is clean.
   */
  lemma JsonMessageCarriesEnvelope<V>(
    encode: MessageEnvelope<V> -> Result<seq<byte>, string>,
    decode: (seq<byte>, MessageEnvelope<V>) -> (MessageEnvelope<V>, Option<string>),
    config: ClientConfig, v: MessageEnvelope<V>, topic: string, target: MessageEnvelope<V>)
    requires encode(v).Success?
    ensures var received := JsonDecodedMsg(decode, JsonMsg(config, v.correlationID, encode(v).value, topic), target);
            var (envelope, error) := decode(encode(v).value, target);
            && (error.Some? ==> received == (envelope, error))
            && (error == None ==> (received == (envelope.(receivedTopic := topic), None) <==> FreeOfNats(topic)))
  {
    TopicRoundTrip(topic);
  }
}
