/** What a reader sees of an envelope whose payload was converted to bytes before: the same, or exactly when not. */
module PayloadConversion {
  import opened Wrappers
  import opened MessageEnvelopes
  import Base64

  /** Reading the payload as a value of type `t` gives the same before and after converting it to bytes. */
  ghost predicate ReadsAlike<V>(codecs: Codecs<V>, contentType: string, payload: Payload<V>, t: GoType)
    requires ConvertMsgPayloadToByteArray(codecs, contentType, payload).Success?
  {
    var bytes := ConvertMsgPayloadToByteArray(codecs, contentType, payload).value;
    GetMsgPayload(codecs, contentType, Bytes(bytes), t) == GetMsgPayload(codecs, contentType, payload, t)
  }

  // ----- Payloads other than strings -----

  /** For all readers but those that want bytes, converting a payload other than a string is invisible. */
  lemma ConversionIsInvisible<V(!new)>(codecs: Codecs<V>, contentType: string, payload: Payload<V>, t: GoType)
    requires Lawful(codecs)
    requires !payload.Text? && t != BytesType
    requires ConvertMsgPayloadToByteArray(codecs, contentType, payload).Success?
    ensures ReadsAlike(codecs, contentType, payload, t)
  {
    if payload.Typed? && t == NamedType(payload.typeName) {
      var codec := codecs.For(contentType).value;
      assert DecodeInvertsEncode(codec);
      assert codec.encode(Typed(payload.typeName, payload.value)).Success?;
    }
  }

  /**
    Bytes take more bytes to encode than they are, in JSON, where they are base64 in quotes or a list
    of numbers, as in CBOR, where they follow a head (section 3 of RFC 8949).
   */
  ghost predicate BytesAreFramed<V(!new)>(codec: Codec<V>) {
    forall encoded, b :: codec.decode(encoded, BytesType) == Success(Payload<V>.Bytes(b)) ==> |b| < |encoded|
  }

  /** For readers that want bytes, it is invisible exactly when the payload was bytes before. */
  lemma ByteReadersReadAlikeExactlyWhenBytes<V(!new)>(codecs: Codecs<V>, contentType: string, payload: Payload<V>)
    requires BytesAreFramed(codecs.json) && BytesAreFramed(codecs.cbor)
    requires !payload.Text?
    requires ConvertMsgPayloadToByteArray(codecs, contentType, payload).Success?
    ensures ReadsAlike(codecs, contentType, payload, BytesType) <==> payload.Bytes?
  {
    var bytes := ConvertMsgPayloadToByteArray(codecs, contentType, payload).value;
    if !payload.Bytes? && codecs.For(contentType).Success? {
      assert BytesAreFramed(codecs.For(contentType).value);
    }
  }

  // ----- Strings -----

  /** A string that is wanted as bytes is decoded, and one that was converted is not. */
  lemma ByteReadersReadTextAlikeExactlyWhenEmpty<V>(codecs: Codecs<V>, contentType: string, text: seq<byte>)
    ensures ReadsAlike(codecs, contentType, Text(text), BytesType) <==> text == []
  {
    if text != [] && Base64.Decode(text).Some? {
      Base64.DecodedIsShorter(text);
    }
  }

  /**
    A decoded string is valid UTF-8, and shorter than a valid encoding of it, in JSON, where it is in
    quotes (section 7 of RFC 8259), as in CBOR, where it follows a head; `isUtf8` is UTF-8 validity.
   */
  ghost predicate StringsAreFramed<V(!new)>(codec: Codec<V>, isUtf8: seq<byte> -> bool) {
    forall encoded, x :: codec.decode(encoded, StringType) == Success(x) ==>
      x.Text? && isUtf8(x.text) && (isUtf8(encoded) ==> |x.text| < |encoded|)
  }

  /** A string that is wanted as a string is returned as it is, and one that was converted never is. */
  lemma StringReadersNeverReadTextAlike<V(!new)>(
    codecs: Codecs<V>, contentType: string, text: seq<byte>, isUtf8: seq<byte> -> bool)
    requires StringsAreFramed(codecs.json, isUtf8) && StringsAreFramed(codecs.cbor, isUtf8)
    ensures !ReadsAlike(codecs, contentType, Text(text), StringType)
  {
    if codecs.For(contentType).Success? {
      assert StringsAreFramed(codecs.For(contentType).value, isUtf8);
    }
  }

  /** A string fails as base64, for every reader but one that wants a string, exactly by its shape. */
  lemma TextFailsExactlyWhenNotBase64<V>(codecs: Codecs<V>, contentType: string, text: seq<byte>, t: GoType)
    requires t != StringType
    ensures GetMsgPayload(codecs, contentType, Text(text), t) == Failure(Base64Error) <==> !Base64.IsBase64(text)
    ensures GetMsgPayload(codecs, contentType, Bytes(text), t) != Failure(Base64Error)
  {
    Base64.DecodesExactlyWhenBase64(text);
  }

  /** So a string without that shape never reads alike. */
  lemma TextReadAlikeIsBase64<V>(codecs: Codecs<V>, contentType: string, text: seq<byte>, t: GoType)
    requires t != StringType && ReadsAlike(codecs, contentType, Text(text), t)
    ensures Base64.IsBase64(text)
  {
    TextFailsExactlyWhenNotBase64(codecs, contentType, text, t);
  }

  /** With a content type that is not supported, the shape decides. */
  lemma UnsupportedTextReadsAlikeExactlyWhenBase64<V>(
    codecs: Codecs<V>, contentType: string, text: seq<byte>, name: string)
    requires codecs.For(contentType).Failure?
    ensures ReadsAlike(codecs, contentType, Text(text), NamedType(name)) <==> Base64.IsBase64(text)
  {
    Base64.DecodesExactlyWhenBase64(text);
  }

  // ----- Strings that hold JSON -----

  predicate IsJsonSpace(b: Base64.byte) {
    b == 9 || b == 10 || b == 13 || b == 32
  }

  /** A quote, a minus, a digit, `[`, `f`, `n`, `t` or `{`: what a JSON value starts with. */
  predicate StartsJsonValue(b: Base64.byte) {
    b == 34 || b == 45 || 48 <= b <= 57 || b == 91 || b == 102 || b == 110 || b == 116 || b == 123
  }

  /** White space and then the start of a value (sections 2 and 3 of RFC 8259). */
  predicate StartsLikeJson(bytes: seq<Base64.byte>) {
    bytes != [] && if IsJsonSpace(bytes[0]) then StartsLikeJson(bytes[1..]) else StartsJsonValue(bytes[0])
  }

  ghost predicate ReadsOnlyJson<V(!new)>(codec: Codec<V>) {
    forall bytes, t :: codec.decode(bytes, t).Success? ==> StartsLikeJson(bytes)
  }

  /** In a text of the alphabet and line breaks, the first character that is no line break decides. */
  lemma {:induction false} FirstCharacterDecides(text: seq<Base64.byte>)
    requires StartsLikeJson(text)
    requires forall c :: c in Base64.WithoutLineBreaks(text) ==> Base64.ValueOf(c).Some? || c == Base64.PAD
    ensures Base64.WithoutLineBreaks(text) != [] && StartsJsonValue(Base64.WithoutLineBreaks(text)[0])
  {
    if Base64.IsLineBreak(text[0]) {
      FirstCharacterDecides(text[1..]);
    } else {
      assert text[0] in Base64.WithoutLineBreaks(text);
    }
  }

  /** No text can be JSON and the base64 of JSON. */
  lemma NotJsonAndItsBase64(text: seq<Base64.byte>)
    requires Base64.Decode(text).Some? && StartsLikeJson(text)
    ensures !StartsLikeJson(Base64.Decode(text).value)
  {
    var t := Base64.WithoutLineBreaks(text);
    Base64.GroupsDecodeExactlyWhen(t);
    FirstCharacterDecides(text);
    var v0, v1 := Base64.ValueOf(t[0]).value, Base64.ValueOf(t[1]).value;
    assert v0 >= 52 || v0 == 31 || v0 == 39 || v0 == 45;
    var first := Base64.Decode(text).value[0];
    assert v0 * 4 <= first as int <= v0 * 4 + 3;
  }

  /**
    A string in an envelope of JSON content, wanted as a value of some type: if its base64 can be read,
    its own bytes cannot, and the other way round. So it reads alike only to those who can read neither.
   */
  lemma JsonTextIsReadInOneWay<V(!new)>(codecs: Codecs<V>, text: seq<byte>, name: string)
    requires ReadsOnlyJson(codecs.json)
    ensures GetMsgPayload(codecs, CONTENT_TYPE_JSON, Bytes(text), NamedType(name)).Failure?
         || GetMsgPayload(codecs, CONTENT_TYPE_JSON, Text(text), NamedType(name)).Failure?
    ensures ReadsAlike(codecs, CONTENT_TYPE_JSON, Text(text), NamedType(name)) ==>
              Base64.IsBase64(text) && GetMsgPayload(codecs, CONTENT_TYPE_JSON, Text(text), NamedType(name)).Failure?
  {
    TextFailsExactlyWhenNotBase64(codecs, CONTENT_TYPE_JSON, text, NamedType(name));
    if Base64.Decode(text).Some? && StartsLikeJson(text) {
      NotJsonAndItsBase64(text);
    }
  }

  /** In particular, a value's JSON text and the base64 of it never read alike. */
  lemma JsonOfValueNeverReadsAlike<V(!new)>(codecs: Codecs<V>, name: string, value: V, json: seq<byte>, text: seq<byte>)
    requires Lawful(codecs) && ReadsOnlyJson(codecs.json)
    requires codecs.json.encode(Typed(name, value)) == Success(json)
    requires text == json || Base64.WithoutLineBreaks(text) == Base64.Encode(json)
    ensures !ReadsAlike(codecs, CONTENT_TYPE_JSON, Text(text), NamedType(name))
  {
    JsonTextIsReadInOneWay(codecs, text, name);
    assert codecs.json.decode(json, NamedType(name)) == Success(Typed(name, value));
    if text != json {
      Base64.RoundTrip(json, text);
    }
  }

  // ----- Strings in encodings that tell values apart by length -----

  /** Encodings of different lengths are never read as one value, as in deterministic CBOR (section 4.2 of RFC 8949). */
  ghost predicate LengthTellsValuesApart<V(!new)>(codec: Codec<V>) {
    forall b1, b2, t :: codec.decode(b1, t).Success? && codec.decode(b1, t) == codec.decode(b2, t) ==> |b1| == |b2|
  }

  /** Then a string reads alike, to those who can read it, exactly when it is empty. */
  lemma ReadableTextReadsAlikeExactlyWhenEmpty<V(!new)>(
    codecs: Codecs<V>, contentType: string, text: seq<byte>, name: string)
    requires codecs.For(contentType).Success? && LengthTellsValuesApart(codecs.For(contentType).value)
    requires GetMsgPayload(codecs, contentType, Text(text), NamedType(name)).Success?
    ensures ReadsAlike(codecs, contentType, Text(text), NamedType(name)) <==> text == []
  {
    var codec := codecs.For(contentType).value;
    var decoded := Base64.Decode(text).value;
    if text != [] {
      Base64.DecodedIsShorter(text);
      assert codec.decode(decoded, NamedType(name)).Success?;
    }
  }

  /** A codec for a type with one value, which it encodes as nothing and reads from anything. */
  function UnitCodec(): Codec<()> {
    Codec(_ => Success([]),
          (_, t: GoType) => if t.NamedType? then Success(Typed(t.name, ())) else Failure("not a value"))
  }

  /** Without such a law nothing can be said: a lawful codec may read every base64 text alike. */
  lemma LawfulCodecCanReadTextAlike(text: seq<byte>, name: string)
    requires Base64.IsBase64(text)
    ensures var codecs := Codecs(UnitCodec(), UnitCodec());
            && Lawful(codecs)
            && GetMsgPayload(codecs, CONTENT_TYPE_CBOR, Text(text), NamedType(name)).Success?
            && ReadsAlike(codecs, CONTENT_TYPE_CBOR, Text(text), NamedType(name))
  {
    Base64.DecodesExactlyWhenBase64(text);
    var codec := UnitCodec();
    forall typeName: string, value: ()
      ensures codec.decode([], NamedType(typeName)) == Success(Typed(typeName, value))
    {
      assert value == ();
    }
    forall typeName: string, value: ()
      ensures codec.encode(Typed(typeName, value)) == Success([])
    {
    }
  }
}
