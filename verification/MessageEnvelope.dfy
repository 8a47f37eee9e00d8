/** Message envelopes, and the several ways in which one payload can be held by an envelope. */
module MessageEnvelopes {
  import opened Wrappers
  import Base64

  type byte = Base64.byte

  const CONTENT_TYPE_JSON := "application/json"
  const CONTENT_TYPE_CBOR := "application/cbor"

  /** The Go type that a payload is wanted as. */
  datatype GoType = BytesType | StringType | NamedType(name: string)

  /** What Go's `any` holds: nil, a byte slice, a string (its bytes), or a value of some other type. */
  datatype Payload<V> = Nil | Bytes(bytes: seq<byte>) | Text(text: seq<byte>) | Typed(typeName: string, value: V)
  {
    predicate HasType(t: GoType) {
      match this
      case Nil => false
      case Bytes(_) => t == BytesType
      case Text(_) => t == StringType
      case Typed(name, _) => t == NamedType(name)
    }
  }

  datatype MessageEnvelope<V> = MessageEnvelope(
    apiVersion: string,
    receivedTopic: string,
    correlationID: string,
    requestID: string,
    errorCode: int,
    payload: Payload<V>,
    contentType: string,
    queryParams: Option<map<string, string>>)

  /** A topic to subscribe to, and the channel that its messages go to. */
  datatype TopicChannel<C> = TopicChannel(topic: string, messages: C)

  // ----- Codecs -----

  datatype Cause = UnsupportedContentType(contentType: string) | CodecError(message: string)
  datatype PayloadError = MarshalError(cause: Cause) | UnmarshalError(cause: Cause) | Base64Error

  /** An encoder and a decoder of payloads, such as `encoding/json`. */
  datatype Codec<!V> = Codec(
    encode: Payload<V> -> Result<seq<byte>, string>,
    decode: (seq<byte>, GoType) -> Result<Payload<V>, string>)

  datatype Codecs<!V> = Codecs(json: Codec<V>, cbor: Codec<V>)
  {
    function For(contentType: string): Result<Codec<V>, Cause> {
      if contentType == CONTENT_TYPE_JSON then Success(json)
      else if contentType == CONTENT_TYPE_CBOR then Success(cbor)
      else Failure(UnsupportedContentType(contentType))
    }
  }

  /** Decoding an encoded value as its own type gives the value back. */
  ghost predicate DecodeInvertsEncode<V(!new)>(codec: Codec<V>) {
    forall name, value ::
      var encoded := codec.encode(Typed(name, value));
      encoded.Success? ==> codec.decode(encoded.value, NamedType(name)) == Success(Typed(name, value))
  }

  ghost predicate Lawful<V(!new)>(codecs: Codecs<V>) {
    DecodeInvertsEncode(codecs.json) && DecodeInvertsEncode(codecs.cbor)
  }

  function MarshalMsgPayload<V>(codecs: Codecs<V>, contentType: string, payload: Payload<V>): Result<seq<byte>, Cause> {
    if payload.Nil? then Success([])
    else
      match codecs.For(contentType)
      case Failure(cause) => Failure(cause)
      case Success(codec) =>
        match codec.encode(payload)
        case Success(bytes) => Success(bytes)
        case Failure(message) => Failure(CodecError(message))
  }

  function UnmarshalMsgPayload<V>(
    codecs: Codecs<V>, contentType: string, bytes: seq<byte>, t: GoType): Result<Payload<V>, PayloadError>
  {
    match codecs.For(contentType)
    case Failure(cause) => Failure(UnmarshalError(cause))
    case Success(codec) =>
      match codec.decode(bytes, t)
      case Success(payload) => Success(payload)
      case Failure(message) => Failure(UnmarshalError(CodecError(message)))
  }

  // ----- Conversions -----

  function ConvertMsgPayloadToByteArray<V>(
    codecs: Codecs<V>, contentType: string, payload: Payload<V>): Result<seq<byte>, Cause>
  {
    match payload
    case Bytes(bytes) => Success(bytes)
    case Text(text) => Success(text)
    case _ => MarshalMsgPayload(codecs, contentType, payload)
  }

  /** The payload as a value of type `t`. */
  function GetMsgPayload<V>(
    codecs: Codecs<V>, contentType: string, payload: Payload<V>, t: GoType): Result<Payload<V>, PayloadError>
  {
    if payload.HasType(t) then Success(payload)
    else
      match payload
      case Bytes(bytes) => UnmarshalMsgPayload(codecs, contentType, bytes, t)
      case Text(text) => (
        match Base64.Decode(text)
        case None => Failure(Base64Error)
        case Some(decoded) =>
          if t == BytesType then Success(Bytes(decoded))
          else UnmarshalMsgPayload(codecs, contentType, decoded, t)
      )
      case _ =>
        match MarshalMsgPayload(codecs, contentType, payload)
        case Failure(cause) => Failure(MarshalError(cause))
        case Success(bytes) => UnmarshalMsgPayload(codecs, contentType, bytes, t)
  }

  /** A pointer to an envelope. */
  class EnvelopeRef<V> {
    var envelope: MessageEnvelope<V>

    constructor (envelope: MessageEnvelope<V>)
      ensures this.envelope == envelope
    {
      this.envelope := envelope;
    }

    method ConvertPayloadToByteArray(codecs: Codecs<V>) returns (error: Option<Cause>)
      modifies this
      ensures match ConvertMsgPayloadToByteArray(codecs, old(envelope).contentType, old(envelope).payload)
              case Success(bytes) => error == None && envelope == old(envelope).(payload := Bytes(bytes))
              case Failure(cause) => error == Some(cause) && envelope == old(envelope)
    {
      var converted := ConvertMsgPayloadToByteArray(codecs, envelope.contentType, envelope.payload);
      if converted.Failure? {
        return Some(converted.error);
      }
      envelope := envelope.(payload := Bytes(converted.value));
      error := None;
    }
  }

  // ----- Representations of one payload -----

  /**
    A value, its encoded bytes and their base64 text, broken into lines at will, are the same
    payload to whoever asks for it as the value's own type.
   */
  lemma RepresentationIndependence<V(!new)>(
    codecs: Codecs<V>, contentType: string, name: string, value: V, bytes: seq<byte>, text: seq<byte>)
    requires Lawful(codecs)
    requires MarshalMsgPayload(codecs, contentType, Typed(name, value)) == Success(bytes)
    requires Base64.WithoutLineBreaks(text) == Base64.Encode(bytes)
    ensures forall p | p in [Typed(name, value), Bytes(bytes), Text(text)] ::
              GetMsgPayload(codecs, contentType, p, NamedType(name)) == Success(Typed(name, value))
  {
    if contentType == CONTENT_TYPE_JSON {
      JsonPayloads(codecs, name, value, bytes, text);
    } else {
      CborPayloads(codecs, name, value, bytes, text);
    }
  }

  /** Bytes travel unchanged as base64 text, whatever the content type says. */
  lemma BytesThroughText<V>(codecs: Codecs<V>, contentType: string, bytes: seq<byte>)
    ensures GetMsgPayload(codecs, contentType, Text(Base64.Encode(bytes)), BytesType) == Success(Bytes(bytes))
    ensures GetMsgPayload(codecs, contentType, Bytes(bytes), BytesType) == Success(Bytes(bytes))
  {
    Base64.EncodeThenDecode(bytes);
  }

  // ----- Which codec, and which error -----

  /** CBOR content is encoded and decoded by the CBOR codec: a value it encodes is the same in all representations. */
  lemma CborPayloads<V(!new)>(codecs: Codecs<V>, name: string, value: V, bytes: seq<byte>, text: seq<byte>)
    requires DecodeInvertsEncode(codecs.cbor) && codecs.cbor.encode(Typed(name, value)) == Success(bytes)
    requires Base64.WithoutLineBreaks(text) == Base64.Encode(bytes)
    ensures ConvertMsgPayloadToByteArray(codecs, "application/cbor", Typed(name, value)) == Success(bytes)
    ensures forall p | p in [Typed(name, value), Bytes(bytes), Text(text)] ::
              GetMsgPayload(codecs, "application/cbor", p, NamedType(name)) == Success(Typed(name, value))
  {
    Base64.RoundTrip(bytes, text);
    ContentTypesDiffer();
  }

  /** JSON content is encoded and decoded by the JSON codec. */
  lemma JsonPayloads<V(!new)>(codecs: Codecs<V>, name: string, value: V, bytes: seq<byte>, text: seq<byte>)
    requires DecodeInvertsEncode(codecs.json) && codecs.json.encode(Typed(name, value)) == Success(bytes)
    requires Base64.WithoutLineBreaks(text) == Base64.Encode(bytes)
    ensures ConvertMsgPayloadToByteArray(codecs, "application/json", Typed(name, value)) == Success(bytes)
    ensures forall p | p in [Typed(name, value), Bytes(bytes), Text(text)] ::
              GetMsgPayload(codecs, "application/json", p, NamedType(name)) == Success(Typed(name, value))
  {
    Base64.RoundTrip(bytes, text);
    ContentTypesDiffer();
  }

  lemma ContentTypesDiffer()
    ensures "application/json" == CONTENT_TYPE_JSON && "application/cbor" == CONTENT_TYPE_CBOR
    ensures CONTENT_TYPE_JSON != CONTENT_TYPE_CBOR
  {
    assert CONTENT_TYPE_JSON[12] != CONTENT_TYPE_CBOR[12];
  }

  /** What a codec cannot encode fails with its error, whoever asks. */
  lemma EncodingFailures<V>(codecs: Codecs<V>, name: string, value: V, error: string, t: GoType)
    requires t != NamedType(name)
    ensures codecs.cbor.encode(Typed(name, value)) == Failure(error) ==>
              var cause := CodecError(error);
              && ConvertMsgPayloadToByteArray(codecs, "application/cbor", Typed(name, value)) == Failure(cause)
              && GetMsgPayload(codecs, "application/cbor", Typed(name, value), t) == Failure(MarshalError(cause))
    ensures codecs.json.encode(Typed(name, value)) == Failure(error) ==>
              var cause := CodecError(error);
              && ConvertMsgPayloadToByteArray(codecs, "application/json", Typed(name, value)) == Failure(cause)
              && GetMsgPayload(codecs, "application/json", Typed(name, value), t) == Failure(MarshalError(cause))
  {
    ContentTypesDiffer();
  }

  /** Bytes are read by the content type's codec, with what it decodes or with its error; and so is their base64. */
  lemma BytesAreDecoded<V>(codecs: Codecs<V>, bytes: seq<byte>, t: GoType)
    requires t != BytesType && t != StringType
    ensures forall p | p in [Bytes(bytes), Text(Base64.Encode(bytes))] ::
              && (match codecs.cbor.decode(bytes, t)
                  case Success(payload) => GetMsgPayload(codecs, "application/cbor", p, t) == Success(payload)
                  case Failure(error) =>
                    GetMsgPayload(codecs, "application/cbor", p, t) == Failure(UnmarshalError(CodecError(error))))
              && (match codecs.json.decode(bytes, t)
                  case Success(payload) => GetMsgPayload(codecs, "application/json", p, t) == Success(payload)
                  case Failure(error) =>
                    GetMsgPayload(codecs, "application/json", p, t) == Failure(UnmarshalError(CodecError(error))))
  {
    Base64.EncodeThenDecode(bytes);
    ContentTypesDiffer();
  }

  /** No other content type is supported, and the error says which one was asked for. */
  lemma UnsupportedContentTypes<V>(
    codecs: Codecs<V>, contentType: string, name: string, value: V, bytes: seq<byte>, t: GoType)
    requires contentType != "application/json" && contentType != "application/cbor"
    requires t != NamedType(name) && t != BytesType
    ensures var cause := UnsupportedContentType(contentType);
            && ConvertMsgPayloadToByteArray(codecs, contentType, Typed(name, value)) == Failure(cause)
            && GetMsgPayload(codecs, contentType, Typed(name, value), t) == Failure(MarshalError(cause))
            && GetMsgPayload(codecs, contentType, Bytes(bytes), t) == Failure(UnmarshalError(cause))
  {
    ContentTypesDiffer();
  }

  /** A missing payload becomes no bytes, and bytes and strings are their own bytes, under any content type. */
  lemma PlainPayloads<V>(codecs: Codecs<V>, contentType: string, bytes: seq<byte>)
    ensures ConvertMsgPayloadToByteArray(codecs, contentType, Nil) == Success([])
    ensures ConvertMsgPayloadToByteArray(codecs, contentType, Bytes(bytes)) == Success(bytes)
    ensures ConvertMsgPayloadToByteArray(codecs, contentType, Text(bytes)) == Success(bytes)
    ensures GetMsgPayload(codecs, contentType, Bytes(bytes), BytesType) == Success(Bytes(bytes))
    ensures GetMsgPayload(codecs, contentType, Text(bytes), StringType) == Success(Text(bytes))
  {
  }
}
