/** Turning a decoded `Message` into the chat library's message builder: the `TryFrom` and
    `From` conversions of src/parsers/message.rs (lines 55-70, 87-124, 191-223, 237-245).
    The builders are modelled by the entries they end up holding. */
module Materialise {

  import opened Wrappers
  import opened Errors
  import opened Colours
  import opened Schema

  /** The entries of a footer builder: `text` and `icon_url`. */
  datatype FooterPayload = FooterPayload(text: Option<string>, iconUrl: Option<string>)

  /** The entries of an author builder: `name`, `url` and `icon_url`. */
  datatype AuthorPayload = AuthorPayload(name: Option<string>, url: Option<string>, iconUrl: Option<string>)

  /** One entry of an embed's `fields` list. */
  datatype FieldPayload = FieldPayload(name: string, value: string, inline: bool)

  /** The entries of an embed builder. */
  datatype EmbedPayload = EmbedPayload(
    colour: Option<Colour>,
    description: Option<string>,
    fields: seq<FieldPayload>,
    footer: Option<FooterPayload>,
    author: Option<AuthorPayload>)

  /** The entries of a message builder: its text and its embed. */
  datatype MessagePayload = MessagePayload(content: Option<string>, embed: Option<EmbedPayload>)

  const EmptyEmbed: EmbedPayload := EmbedPayload(None, None, [], None, None)

  // ----- what the conversions produce ---------------------------------------------------------

  /** The fields an embed lists, whichever of the two forms gave them. */
  function FieldsOf(f: EmbedFieldEnum): seq<EmbedField>
  {
    match f
    case Single(field) => [field]
    case Vector(fields) => fields
  }

  /** A field's entry; a field that does not say whether it is inline is not. */
  function FieldEntry(f: EmbedField): FieldPayload
  {
    FieldPayload(f.name, f.value, match f.inline case Some(b) => b case None => false)
  }

  function FieldEntries(fields: seq<EmbedField>): seq<FieldPayload>
  {
    seq(|fields|, i requires 0 <= i < |fields| => FieldEntry(fields[i]))
  }

  /** `From<EmbedFooterEnum> for EmbedFooter`: a bare text is a footer with that text and no icon. */
  function FooterFromEnum(ef: EmbedFooterEnum): EmbedFooter
  {
    match ef
    case TextOnly(text) => EmbedFooter(Some(text), None)
    case Complex(footer) => footer
  }

  /** The footer builder: the footer's `url` is the icon's URL. */
  function FooterPayloadOf(f: EmbedFooter): FooterPayload
  {
    FooterPayload(f.text, f.url)
  }

  /** The author builder: the author's `link` is the author's URL, its `icon` the icon's URL. */
  function AuthorPayloadOf(a: EmbedAuthor): AuthorPayload
  {
    AuthorPayload(Some(a.name), a.link, a.icon)
  }

  function ResolveOptionalColour(c: Option<EmbedColourEnum>): Result<Option<Colour>, ParseError>
  {
    match c
    case None => Ok(None)
    case Some(v) =>
      match ResolveColour(v)
      case Ok(colour) => Ok(Some(colour))
      case Err(e) => Err(ColourParseError(e))
  }

  /** `TryFrom<Embed> for CreateEmbed`: only the colour can fail. */
  function EmbedPayloadOf(e: Embed): Result<EmbedPayload, ParseError>
  {
    var colour :- ResolveOptionalColour(e.colour);
    Ok(EmbedPayload(
      colour,
      e.description,
      match e.field case None => [] case Some(f) => FieldEntries(FieldsOf(f)),
      match e.footer case None => None case Some(f) => Some(FooterPayloadOf(FooterFromEnum(f))),
      match e.author case None => None case Some(a) => Some(AuthorPayloadOf(a))))
  }

  /** `TryFrom<Message> for CreateMessage`: the content is copied and the embed converted. */
  function MessagePayloadOf(m: Message): Result<MessagePayload, ParseError>
  {
    match m.embed
    case None => Ok(MessagePayload(m.content, None))
    case Some(e) =>
      var embed :- EmbedPayloadOf(e);
      Ok(MessagePayload(m.content, Some(embed)))
  }

  // ----- the conversions as the source performs them, on a builder ----------------------------

  /** `From<EmbedFooter> for CreateEmbedFooter` (lines 216-223). */
  method BuildFooter(ef: EmbedFooter) returns (builder: FooterPayload)
    ensures builder == FooterPayloadOf(ef)
  {
    builder := FooterPayload(None, None);
    if ef.text.Some? {
      builder := builder.(text := ef.text);
    }
    if ef.url.Some? {
      builder := builder.(iconUrl := ef.url);
    }
  }

  /** `From<EmbedAuthor> for CreateEmbedAuthor` (lines 237-245). */
  method BuildAuthor(a: EmbedAuthor) returns (builder: AuthorPayload)
    ensures builder == AuthorPayloadOf(a)
  {
    builder := AuthorPayload(None, None, None);
    builder := builder.(name := Some(a.name));
    if a.icon.Some? {
      builder := builder.(iconUrl := a.icon);
    }
    if a.link.Some? {
      builder := builder.(url := a.link);
    }
  }

  /** `TryFrom<Embed> for CreateEmbed` (lines 87-124): the colour first, whose failure abandons
      the builder, then each other part that is present, the fields one by one in order. */
  method BuildEmbed(e: Embed) returns (r: Result<EmbedPayload, ParseError>)
    ensures r == EmbedPayloadOf(e)
  {
    var builder := EmptyEmbed;
    if e.colour.Some? {
      var colour := ResolveColour(e.colour.value);
      if colour.Err? {
        return Err(ColourParseError(colour.error));
      }
      builder := builder.(colour := Some(colour.value));
    }
    if e.description.Some? {
      builder := builder.(description := e.description);
    }
    if e.field.Some? {
      var fields := match e.field.value case Single(field) => [field] case Vector(fields) => fields;
      for i := 0 to |fields|
        invariant builder.fields == FieldEntries(fields[..i])
        invariant builder.colour == EmbedPayloadOf(e).value.colour
        invariant builder.description == e.description
        invariant builder.footer.None? && builder.author.None?
      {
        var field := fields[i];
        builder := builder.(fields := builder.fields + [FieldPayload(field.name, field.value,
                                                                     if field.inline.Some? then field.inline.value else false)]);
      }
      assert fields[..|fields|] == fields;
    }
    if e.footer.Some? {
      var footer := BuildFooter(FooterFromEnum(e.footer.value));
      builder := builder.(footer := Some(footer));
    }
    if e.author.Some? {
      var author := BuildAuthor(e.author.value);
      builder := builder.(author := Some(author));
    }
    return Ok(builder);
  }

  /** `TryFrom<Message> for CreateMessage` (lines 55-70). */
  method BuildMessage(m: Message) returns (r: Result<MessagePayload, ParseError>)
    ensures r == MessagePayloadOf(m)
  {
    var builder := MessagePayload(None, None);
    if m.content.Some? {
      builder := builder.(content := m.content);
    }
    if m.embed.Some? {
      var embed := BuildEmbed(m.embed.value);
      if embed.Err? {
        return Err(embed.error);
      }
      builder := builder.(embed := Some(embed.value));
    }
    return Ok(builder);
  }

  // ----- properties ----------------------------------------------------------------------------

  /** A message fails to convert exactly when its embed has a colour that does not resolve, and
      the failure is that colour's error. */
  lemma MessageFailsOnlyOnColour(m: Message)
    ensures MessagePayloadOf(m).Err? <==>
      m.embed.Some? && m.embed.value.colour.Some? && ResolveColour(m.embed.value.colour.value).Err?
    ensures MessagePayloadOf(m).Err? ==>
      MessagePayloadOf(m).error == ColourParseError(ResolveColour(m.embed.value.colour.value).error)
  {
  }

  /** A converted message keeps its content, has an embed exactly when the message has one,
      and that embed keeps the description and carries the resolved colour. */
  lemma MessageConversion(m: Message)
    requires MessagePayloadOf(m).Ok?
    ensures MessagePayloadOf(m).value.content == m.content
    ensures MessagePayloadOf(m).value.embed.Some? <==> m.embed.Some?
    ensures m.embed.Some? ==>
      var e, p := m.embed.value, MessagePayloadOf(m).value.embed.value;
      p.description == e.description &&
      (p.colour.Some? <==> e.colour.Some?) &&
      (e.colour.Some? ==> ResolveColour(e.colour.value) == Ok(p.colour.value))
  {
  }

  /** Every listed field becomes one entry, in order, with its name and value, inline exactly
      when it says `inline: true`; an embed without fields has no entries. */
  lemma FieldEntriesOfEmbed(e: Embed)
    requires EmbedPayloadOf(e).Ok?
    ensures e.field.None? ==> EmbedPayloadOf(e).value.fields == []
    ensures e.field.Some? ==>
      var listed, entries := FieldsOf(e.field.value), EmbedPayloadOf(e).value.fields;
      |entries| == |listed| &&
      forall i | 0 <= i < |listed| ::
        entries[i].name == listed[i].name && entries[i].value == listed[i].value &&
        (entries[i].inline <==> listed[i].inline == Some(true))
  {
  }

  /** A single field and a one-item list holding it give the same embed. */
  lemma SingleFieldIsOneItemList(e: Embed, f: EmbedField)
    ensures EmbedPayloadOf(e.(field := Some(Single(f)))) == EmbedPayloadOf(e.(field := Some(Vector([f]))))
  {
  }

  /** A bare footer text is the footer with that text and no icon. */
  lemma TextFooterIsComplexFooter(e: Embed, s: string)
    ensures EmbedPayloadOf(e.(footer := Some(TextOnly(s)))) ==
            EmbedPayloadOf(e.(footer := Some(Complex(EmbedFooter(Some(s), None)))))
    ensures EmbedPayloadOf(e.(footer := Some(TextOnly(s)))).Ok? ==>
            EmbedPayloadOf(e.(footer := Some(TextOnly(s)))).value.footer == Some(FooterPayload(Some(s), None))
  {
  }

  /** The author entry always has the name; link and icon land in `url` and `icon_url`. */
  lemma AuthorEntries(a: EmbedAuthor)
    ensures AuthorPayloadOf(a).name == Some(a.name)
    ensures AuthorPayloadOf(a).url == a.link && AuthorPayloadOf(a).iconUrl == a.icon
  {
  }

  /** The `complex_cast` test: the builder the source expects for its complex message. */
  lemma ComplexCastCase()
    ensures MessagePayloadOf(Message(Some("Content"), Some(Embed(
              Some(String("RED")), Some("Description"), Some(Vector([EmbedField("Name", "Value", Some(true))])),
              Some(TextOnly("Footer")), Some(EmbedAuthor("Name", None, None))))))
         == Ok(MessagePayload(Some("Content"), Some(EmbedPayload(
              Some(Colour(0xE74C3C)), Some("Description"), [FieldPayload("Name", "Value", true)],
              Some(FooterPayload(Some("Footer"), None)), Some(AuthorPayload(Some("Name"), None, None))))))
  {
    NameLookupIsCaseSensitive();
    assert FieldEntries([EmbedField("Name", "Value", Some(true))]) == [FieldPayload("Name", "Value", true)];
  }

  /** From JSON to builder: the `complex_message` text converts to the `complex_cast` builder. */
  lemma ComplexJsonToBuilder()
    ensures var decoded := DecodeMessage(JObject([("content", JString("Content")),
               ("embed", ComplexEmbedJson("RED", "Description", "Name", "Value", "Footer", "Name"))]));
      decoded.Ok? && MessagePayloadOf(decoded.value) == Ok(MessagePayload(Some("Content"), Some(EmbedPayload(
              Some(Colour(0xE74C3C)), Some("Description"), [FieldPayload("Name", "Value", true)],
              Some(FooterPayload(Some("Footer"), None)), Some(AuthorPayload(Some("Name"), None, None))))))
  {
    ComplexMessageCase();
    ComplexCastCase();
  }
}
