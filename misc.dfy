/** The two helpers of src/utils/misc.rs: the link to a message, and what sending a serialised
    rich message does with each outcome of decoding and converting it. */
module Misc {

  import opened Wrappers
  import opened Errors
  import opened Text
  import opened Colours
  import opened Schema
  import opened Materialise

  const MessageUrlBase: string := "https://discordapp.com/channels/"

  /** `get_message_url` (lines 11-16): the three ids in decimal, separated by `/`. */
  function GetMessageUrl(guildId: nat, channelId: nat, messageId: nat): (url: string)
    ensures MessageUrlBase <= url
  {
    MessageUrlBase + Decimal(guildId) + "/" + Decimal(channelId) + "/" + Decimal(messageId)
  }

  /** What the command sends to the channel. */
  datatype Sent =
    /** `channel_id.say` with the report of a message that could not be decoded. */
    | DeserialiseReport(json: JsonError)
    /** `channel_id.say` with the report of a message that could not be converted. */
    | CreateReport(parse: ParseError)
    /** `channel_id.send_message` with the converted message. */
    | RichMessage(payload: MessagePayload)

  /** `send_rich_serialized_message` (lines 18-52). `parsed` is the JSON text read into a value,
      or its syntax error; `delivery` is how the one send to the channel went. The command
      succeeds unless that send fails: a message that cannot be decoded or converted is reported
      to the channel, not returned as an error. */
  function SendRichSerializedMessage(parsed: Result<Json, JsonError>, delivery: Result<(), SerenityFailure>)
    : (outcome: (Sent, Result<(), SerenityFailure>))
    ensures outcome.1 == delivery
    ensures parsed.Err? ==> outcome.0 == DeserialiseReport(parsed.error)
    ensures parsed.Ok? && DecodeMessage(parsed.value).Err? ==> outcome.0 == DeserialiseReport(DecodeMessage(parsed.value).error)
    ensures parsed.Ok? && DecodeMessage(parsed.value).Ok? ==>
      var converted := MessagePayloadOf(DecodeMessage(parsed.value).value);
      outcome.0 == if converted.Ok? then RichMessage(converted.value) else CreateReport(converted.error)
  {
    var decoded := if parsed.Ok? then DecodeMessage(parsed.value) else Err(parsed.error);
    match decoded
    case Err(e) => (DeserialiseReport(e), delivery)
    case Ok(message) =>
      match MessagePayloadOf(message)
      case Ok(cm) => (RichMessage(cm), delivery)
      case Err(e) => (CreateReport(e), delivery)
  }

  // ----- properties -----------------------------------------------------------------------------

  /** A decimal rendering never contains `/`. */
  lemma NoSlashInDecimal(n: nat)
    ensures '/' !in Decimal(n)
  {
    DecimalRoundTrip(n);
    assert forall i | 0 <= i < |Decimal(n)| :: Decimal(n)[i] != '/';
  }

  /** After the base, the link splits on `/` into exactly the three ids in decimal (each of which
      reads back as its id, by `DecimalRoundTrip`). */
  lemma MessageUrlIds(guildId: nat, channelId: nat, messageId: nat)
    ensures var rest := GetMessageUrl(guildId, channelId, messageId)[|MessageUrlBase|..];
      Split(rest, '/') == [Decimal(guildId), Decimal(channelId), Decimal(messageId)]
  {
    var g, c, m := Decimal(guildId), Decimal(channelId), Decimal(messageId);
    var rest := GetMessageUrl(guildId, channelId, messageId)[|MessageUrlBase|..];
    assert rest == g + ['/'] + (c + ['/'] + m);
    NoSlashInDecimal(guildId);
    NoSlashInDecimal(channelId);
    NoSlashInDecimal(messageId);
    SplitPrefix(g, '/', c + ['/'] + m);
    SplitPrefix(c, '/', m);
  }

  /** Different messages have different links. */
  lemma MessageUrlInjective(g1: nat, c1: nat, m1: nat, g2: nat, c2: nat, m2: nat)
    requires GetMessageUrl(g1, c1, m1) == GetMessageUrl(g2, c2, m2)
    ensures g1 == g2 && c1 == c2 && m1 == m2
  {
    MessageUrlIds(g1, c1, m1);
    MessageUrlIds(g2, c2, m2);
    DecimalRoundTrip(g1);
    DecimalRoundTrip(c1);
    DecimalRoundTrip(m1);
    DecimalRoundTrip(g2);
    DecimalRoundTrip(c2);
    DecimalRoundTrip(m2);
  }

  /** A rich message is sent exactly when the text decodes and converts, and then it is exactly
      the converted message; every other outcome is one report; the command fails only when the
      send does. */
  lemma RichMessageSentOnlyWhenValid(parsed: Result<Json, JsonError>, delivery: Result<(), SerenityFailure>)
    ensures SendRichSerializedMessage(parsed, delivery).0.RichMessage? <==>
      parsed.Ok? && DecodeMessage(parsed.value).Ok? && MessagePayloadOf(DecodeMessage(parsed.value).value).Ok?
    ensures SendRichSerializedMessage(parsed, delivery).1.Ok? <==> delivery.Ok?
  {
  }

  /** A colour that does not resolve reaches the channel as a report of that colour's error. */
  lemma BadColourIsReported(parsed: Json, m: Message, delivery: Result<(), SerenityFailure>)
    requires DecodeMessage(parsed) == Ok(m)
    requires m.embed.Some? && m.embed.value.colour.Some? && ResolveColour(m.embed.value.colour.value).Err?
    ensures SendRichSerializedMessage(Ok(parsed), delivery) ==
      (CreateReport(ColourParseError(ResolveColour(m.embed.value.colour.value).error)), delivery)
  {
    MessageFailsOnlyOnColour(m);
  }

  /** The complex message of src/parsers/message.rs's tests is sent as its converted builder. */
  lemma ComplexMessageIsSent()
    ensures SendRichSerializedMessage(Ok(JObject([("content", JString("Content")),
               ("embed", ComplexEmbedJson("RED", "Description", "Name", "Value", "Footer", "Name"))])), Ok(()))
         == (RichMessage(MessagePayload(Some("Content"), Some(EmbedPayload(
              Some(Colour(0xE74C3C)), Some("Description"), [FieldPayload("Name", "Value", true)],
              Some(FooterPayload(Some("Footer"), None)), Some(AuthorPayload(Some("Name"), None, None)))))), Ok(()))
  {
    ComplexJsonToBuilder();
  }
}
