/** The rich-message schema of src/parsers/message.rs (lines 47-53, 72-85, 126-132, 161-235):
    the typed `Message` tree, and how serde's derived decoders build it from a JSON value.
    The JSON text grammar (json5 / serde_json) is an external parser; decoding starts from the
    value tree it produces. */
module Schema {

  import opened Wrappers
  import opened Errors
  import opened Colours

  /** A parsed JSON value. Numbers are integers (a fractional number fits no field here). */
  datatype Json =
    | JNull
    | JBool(boolean: bool)
    | JNumber(number: int)
    | JString(text: string)
    | JArray(items: seq<Json>)
    | JObject(members: seq<(string, Json)>)

  datatype EmbedField = EmbedField(name: string, value: string, inline: Option<bool>)

  datatype EmbedFieldEnum = Single(field: EmbedField) | Vector(fields: seq<EmbedField>)

  datatype EmbedFooter = EmbedFooter(text: Option<string>, url: Option<string>)

  datatype EmbedFooterEnum = TextOnly(text: string) | Complex(footer: EmbedFooter)

  datatype EmbedAuthor = EmbedAuthor(name: string, link: Option<string>, icon: Option<string>)

  datatype Embed = Embed(
    colour: Option<EmbedColourEnum>,
    description: Option<string>,
    field: Option<EmbedFieldEnum>,
    footer: Option<EmbedFooterEnum>,
    author: Option<EmbedAuthor>)

  datatype Message = Message(content: Option<string>, embed: Option<Embed>)

  // ----- object keys ------------------------------------------------------------------------

  /** The spellings a struct accepts for each of its fields, in declaration order; the first
      spelling of each is the field's own name, the others its `#[serde(alias)]`es. */
  type StructKeys = seq<seq<string>>

  const MessageKeys: StructKeys := [["content", "c"], ["embed", "e"]]
  const EmbedKeys: StructKeys :=
    [["colour", "c", "color"], ["description", "d"], ["field", "f", "fields"], ["footer"], ["author", "a"]]
  const RgbKeys: StructKeys := [["red", "r"], ["green", "g"], ["blue", "b"]]
  const FieldKeys: StructKeys := [["name"], ["value"], ["inline"]]
  const FooterKeys: StructKeys := [["text"], ["url"]]
  const AuthorKeys: StructKeys := [["name", "n"], ["link", "u", "url", "l"], ["icon", "i"]]

  /** The field an object key selects: the first field listing it among its spellings, or none
      (serde then skips the member). */
  function FieldIndex(keys: StructKeys, key: string): (r: Option<nat>)
    ensures r.Some? ==> r.value < |keys| && key in keys[r.value]
    ensures r.Some? ==> forall j | 0 <= j < r.value :: key !in keys[j]
    ensures r.None? ==> forall j | 0 <= j < |keys| :: key !in keys[j]
  {
    if keys == [] then None
    else if key in keys[0] then Some(0)
    else match FieldIndex(keys[1..], key)
      case None => None
      case Some(i) => Some(i + 1)
  }

  /** The members of an object, read left to right, grouped by the field they select. A field
      selected twice (under any spelling) is a `DuplicateField` error; unknown keys are skipped. */
  function Gather(keys: StructKeys, members: seq<(string, Json)>): Result<map<nat, Json>, JsonError>
    requires forall i | 0 <= i < |keys| :: |keys[i]| > 0
  {
    if members == [] then Ok(map[])
    else
      var found :- Gather(keys, members[..|members| - 1]);
      var member := members[|members| - 1];
      match FieldIndex(keys, member.0)
      case None => Ok(found)
      case Some(i) => if i in found then Err(DuplicateField(keys[i][0])) else Ok(found[i := member.1])
  }

  // ----- scalar and generic decoders --------------------------------------------------------

  function DecodeString(j: Json): Result<string, JsonError>
  {
    if j.JString? then Ok(j.text) else Err(InvalidType("a string"))
  }

  function DecodeBool(j: Json): Result<bool, JsonError>
  {
    if j.JBool? then Ok(j.boolean) else Err(InvalidType("a boolean"))
  }

  function DecodeU8(j: Json): Result<u8, JsonError>
  {
    if j.JNumber? && 0 <= j.number < 0x100 then Ok(j.number) else Err(InvalidType("u8"))
  }

  function DecodeU32(j: Json): Result<u32, JsonError>
  {
    if j.JNumber? && 0 <= j.number < 0x1_0000_0000 then Ok(j.number) else Err(InvalidType("u32"))
  }

  /** `Option<T>`: `null` is `None`, anything else must decode as `T`. */
  function DecodeOptional<T>(j: Json, decode: Json -> Result<T, JsonError>): Result<Option<T>, JsonError>
  {
    if j.JNull? then Ok(None)
    else
      var v :- decode(j);
      Ok(Some(v))
  }

  /** `Vec<T>`: an array whose every item decodes as `T`, in order. */
  function DecodeSeq<T>(items: seq<Json>, decode: Json -> Result<T, JsonError>): Result<seq<T>, JsonError>
  {
    if items == [] then Ok([])
    else
      var init :- DecodeSeq(items[..|items| - 1], decode);
      var last :- decode(items[|items| - 1]);
      Ok(init + [last])
  }

  /** An `Option` field: absent is `None`. */
  function OptionalField<T>(found: map<nat, Json>, i: nat, decode: Json -> Result<T, JsonError>)
    : Result<Option<T>, JsonError>
  {
    if i in found then DecodeOptional(found[i], decode) else Ok(None)
  }

  /** A required field: absent is a `MissingField` error. */
  function RequiredField<T>(found: map<nat, Json>, i: nat, name: string, decode: Json -> Result<T, JsonError>)
    : Result<T, JsonError>
  {
    if i in found then decode(found[i]) else Err(MissingField(name))
  }

  // ----- the derived struct decoders ---------------------------------------------------------

  /** The values a derived struct decoder reads, by field position: an object's members gathered
      by key, or an array's items taken positionally (serde's sequence form of a struct, which
      wants exactly one item per field). */
  function StructFields(keys: StructKeys, name: string, j: Json): Result<map<nat, Json>, JsonError>
    requires forall i | 0 <= i < |keys| :: |keys[i]| > 0
  {
    match j
    case JObject(members) => Gather(keys, members)
    case JArray(items) =>
      if |items| == |keys| then Ok(map i | 0 <= i < |items| :: items[i])
      else Err(InvalidLength(|items|))
    case _ => Err(InvalidType(name))
  }

  function DecodeRgb(j: Json): Result<RGBColour, JsonError>
  {
    var found :- StructFields(RgbKeys, "struct RGBColour", j);
    var red :- RequiredField(found, 0, "red", DecodeU8);
    var green :- RequiredField(found, 1, "green", DecodeU8);
    var blue :- RequiredField(found, 2, "blue", DecodeU8);
    Ok(RGBColour(red, green, blue))
  }

  function DecodeEmbedField(j: Json): Result<EmbedField, JsonError>
  {
    var found :- StructFields(FieldKeys, "struct EmbedField", j);
    var name :- RequiredField(found, 0, "name", DecodeString);
    var value :- RequiredField(found, 1, "value", DecodeString);
    var inline :- OptionalField(found, 2, DecodeBool);
    Ok(EmbedField(name, value, inline))
  }

  function DecodeEmbedFooter(j: Json): Result<EmbedFooter, JsonError>
  {
    var found :- StructFields(FooterKeys, "struct EmbedFooter", j);
    var text :- OptionalField(found, 0, DecodeString);
    var url :- OptionalField(found, 1, DecodeString);
    Ok(EmbedFooter(text, url))
  }

  function DecodeEmbedAuthor(j: Json): Result<EmbedAuthor, JsonError>
  {
    var found :- StructFields(AuthorKeys, "struct EmbedAuthor", j);
    var name :- RequiredField(found, 0, "name", DecodeString);
    var link :- OptionalField(found, 1, DecodeString);
    var icon :- OptionalField(found, 2, DecodeString);
    Ok(EmbedAuthor(name, link, icon))
  }

  // ----- the untagged unions: variants are tried in declaration order ------------------------

  function DecodeColourEnum(j: Json): Result<EmbedColourEnum, JsonError>
  {
    match DecodeU32(j)
    case Ok(v) => Ok(Integer(v))
    case Err(_) =>
      match DecodeString(j)
      case Ok(s) => Ok(String(s))
      case Err(_) =>
        match DecodeRgb(j)
        case Ok(rgb) => Ok(RGB(rgb))
        case Err(_) => Err(NoVariantMatched("EmbedColourEnum"))
  }

  function DecodeFieldEnum(j: Json): Result<EmbedFieldEnum, JsonError>
  {
    match DecodeEmbedField(j)
    case Ok(f) => Ok(Single(f))
    case Err(_) =>
      if !j.JArray? then Err(NoVariantMatched("EmbedFieldEnum"))
      else
        match DecodeSeq(j.items, DecodeEmbedField)
        case Ok(fs) => Ok(Vector(fs))
        case Err(_) => Err(NoVariantMatched("EmbedFieldEnum"))
  }

  function DecodeFooterEnum(j: Json): Result<EmbedFooterEnum, JsonError>
  {
    match DecodeString(j)
    case Ok(s) => Ok(TextOnly(s))
    case Err(_) =>
      match DecodeEmbedFooter(j)
      case Ok(f) => Ok(Complex(f))
      case Err(_) => Err(NoVariantMatched("EmbedFooterEnum"))
  }

  function DecodeEmbed(j: Json): Result<Embed, JsonError>
  {
    var found :- StructFields(EmbedKeys, "struct Embed", j);
    EmbedFromFields(found)
  }

  /** The embed's fields, decoded from the values gathered for them. */
  function EmbedFromFields(found: map<nat, Json>): Result<Embed, JsonError>
  {
    var colour :- OptionalField(found, 0, DecodeColourEnum);
    var description :- OptionalField(found, 1, DecodeString);
    var field :- OptionalField(found, 2, DecodeFieldEnum);
    var footer :- OptionalField(found, 3, DecodeFooterEnum);
    var author :- OptionalField(found, 4, DecodeEmbedAuthor);
    Ok(Embed(colour, description, field, footer, author))
  }

  function DecodeMessage(j: Json): Result<Message, JsonError>
  {
    var found :- StructFields(MessageKeys, "struct Message", j);
    var content :- OptionalField(found, 0, DecodeString);
    var embed :- OptionalField(found, 1, DecodeEmbed);
    Ok(Message(content, embed))
  }

  // ----- what gathering an object's members means ---------------------------------------------

  /** No two members of `members` select the same field. */
  predicate DistinctFields(keys: StructKeys, members: seq<(string, Json)>)
  {
    forall a, b | 0 <= a < b < |members| ::
      FieldIndex(keys, members[a].0).None? || FieldIndex(keys, members[a].0) != FieldIndex(keys, members[b].0)
  }

  /** The fields the members of `members` select. */
  function SelectedFields(keys: StructKeys, members: seq<(string, Json)>): set<nat>
  {
    set a | 0 <= a < |members| && FieldIndex(keys, members[a].0).Some? :: FieldIndex(keys, members[a].0).value
  }

  /** Gathering only ever fails on a field given twice. */
  lemma {:induction false} GatherFailsOnlyOnDuplicates(keys: StructKeys, members: seq<(string, Json)>)
    requires forall f | 0 <= f < |keys| :: |keys[f]| > 0
    ensures Gather(keys, members).Err? ==> Gather(keys, members).error.DuplicateField?
    decreases |members|
  {
    if members != [] {
      GatherFailsOnlyOnDuplicates(keys, members[..|members| - 1]);
    }
  }

  /** A successful gathering holds exactly the fields the members select. */
  lemma {:induction false} GatherHoldsSelectedFields(keys: StructKeys, members: seq<(string, Json)>)
    requires forall f | 0 <= f < |keys| :: |keys[f]| > 0
    ensures Gather(keys, members).Ok? ==> Gather(keys, members).value.Keys == SelectedFields(keys, members)
    decreases |members|
  {
    if members != [] && Gather(keys, members).Ok? {
      var n := |members|;
      var init := members[..n - 1];
      GatherHoldsSelectedFields(keys, init);
      assert forall a | 0 <= a < n - 1 :: members[a] == init[a];
      var found := Gather(keys, init).value;
      match FieldIndex(keys, members[n - 1].0)
      case None =>
        assert SelectedFields(keys, members) == SelectedFields(keys, init);
      case Some(f) =>
        assert SelectedFields(keys, members) == SelectedFields(keys, init) + {f};
    }
  }

  /** In a successful gathering each selected field holds the value of the member selecting it. */
  lemma {:induction false} GatherHoldsValues(keys: StructKeys, members: seq<(string, Json)>)
    requires forall f | 0 <= f < |keys| :: |keys[f]| > 0
    ensures Gather(keys, members).Ok? ==>
      forall a | 0 <= a < |members| && FieldIndex(keys, members[a].0).Some? ::
        FieldIndex(keys, members[a].0).value in Gather(keys, members).value &&
        Gather(keys, members).value[FieldIndex(keys, members[a].0).value] == members[a].1
    decreases |members|
  {
    if members != [] && Gather(keys, members).Ok? {
      var n := |members|;
      var init := members[..n - 1];
      GatherHoldsValues(keys, init);
      assert forall a | 0 <= a < n - 1 :: members[a] == init[a];
    }
  }

  /** Adding a member keeps the fields distinct exactly when it selects no field already selected. */
  lemma DistinctFieldsStep(keys: StructKeys, members: seq<(string, Json)>)
    requires members != []
    ensures DistinctFields(keys, members) <==>
      DistinctFields(keys, members[..|members| - 1]) &&
      (FieldIndex(keys, members[|members| - 1].0).None? ||
       FieldIndex(keys, members[|members| - 1].0).value !in SelectedFields(keys, members[..|members| - 1]))
  {
    var n := |members|;
    var init := members[..n - 1];
    assert forall a | 0 <= a < n - 1 :: members[a] == init[a];
  }

  /** Gathering succeeds exactly when no field is given twice. */
  lemma {:induction false} GatherSucceedsOnDistinctFields(keys: StructKeys, members: seq<(string, Json)>)
    requires forall f | 0 <= f < |keys| :: |keys[f]| > 0
    ensures Gather(keys, members).Ok? <==> DistinctFields(keys, members)
    decreases |members|
  {
    if members != [] {
      var init := members[..|members| - 1];
      GatherSucceedsOnDistinctFields(keys, init);
      GatherHoldsSelectedFields(keys, init);
      DistinctFieldsStep(keys, members);
    }
  }

  /** Writing a member's key as another spelling of the same field changes nothing. */
  lemma {:induction false} GatherRespelling(keys: StructKeys, members: seq<(string, Json)>, i: nat, key: string)
    requires forall f | 0 <= f < |keys| :: |keys[f]| > 0
    requires i < |members| && FieldIndex(keys, members[i].0) == FieldIndex(keys, key)
    ensures Gather(keys, members[i := (key, members[i].1)]) == Gather(keys, members)
    decreases |members|
  {
    var respelled := members[i := (key, members[i].1)];
    var n := |members|;
    if i == n - 1 {
      assert respelled[..n - 1] == members[..n - 1];
    } else {
      GatherRespelling(keys, members[..n - 1], i, key);
      assert respelled[..n - 1] == members[..n - 1][i := (key, members[i].1)];
    }
  }

  /** A member whose key names no field is skipped wherever it stands. */
  lemma {:induction false} GatherSkipsUnknownKeys(keys: StructKeys, before: seq<(string, Json)>, key: string,
                                                  v: Json, after: seq<(string, Json)>)
    requires forall f | 0 <= f < |keys| :: |keys[f]| > 0
    requires FieldIndex(keys, key).None?
    ensures Gather(keys, before + [(key, v)] + after) == Gather(keys, before + after)
    decreases |after|
  {
    var n := |after|;
    if n == 0 {
      assert (before + [(key, v)] + after)[..|before|] == before;
      assert before + after == before;
    } else {
      GatherSkipsUnknownKeys(keys, before, key, v, after[..n - 1]);
      assert (before + [(key, v)] + after)[..|before| + n] == before + [(key, v)] + after[..n - 1];
      assert (before + after)[..|before| + n - 1] == before + after[..n - 1];
    }
  }

  /** Which spellings select which field of a `Message`. */
  lemma MessageSpellings(key: string)
    ensures FieldIndex(MessageKeys, key) == Some(0) <==> key in ["content", "c"]
    ensures FieldIndex(MessageKeys, key) == Some(1) <==> key in ["embed", "e"]
    ensures FieldIndex(MessageKeys, key).None? <==> key !in ["content", "c", "embed", "e"]
  {
  }

  /** Which spellings select which field of an `Embed`. */
  lemma EmbedSpellings(key: string)
    ensures FieldIndex(EmbedKeys, key) == Some(0) <==> key in ["colour", "c", "color"]
    ensures FieldIndex(EmbedKeys, key) == Some(1) <==> key in ["description", "d"]
    ensures FieldIndex(EmbedKeys, key) == Some(2) <==> key in ["field", "f", "fields"]
    ensures FieldIndex(EmbedKeys, key) == Some(3) <==> key == "footer"
    ensures FieldIndex(EmbedKeys, key) == Some(4) <==> key in ["author", "a"]
  {
  }

  /** Which spellings select which field of an `EmbedAuthor`. */
  lemma AuthorSpellings(key: string)
    ensures FieldIndex(AuthorKeys, key) == Some(0) <==> key in ["name", "n"]
    ensures FieldIndex(AuthorKeys, key) == Some(1) <==> key in ["link", "u", "url", "l"]
    ensures FieldIndex(AuthorKeys, key) == Some(2) <==> key in ["icon", "i"]
  {
  }

  /** Which spellings select which field of an `RGBColour`. */
  lemma RgbSpellings(key: string)
    ensures FieldIndex(RgbKeys, key) == Some(0) <==> key in ["red", "r"]
    ensures FieldIndex(RgbKeys, key) == Some(1) <==> key in ["green", "g"]
    ensures FieldIndex(RgbKeys, key) == Some(2) <==> key in ["blue", "b"]
  {
  }

  /** A message decodes the same whichever spelling of a field its keys use. */
  lemma MessageRespelling(members: seq<(string, Json)>, i: nat, key: string)
    requires i < |members| && FieldIndex(MessageKeys, members[i].0) == FieldIndex(MessageKeys, key)
    ensures DecodeMessage(JObject(members[i := (key, members[i].1)])) == DecodeMessage(JObject(members))
  {
    GatherRespelling(MessageKeys, members, i, key);
  }

  /** An embed decodes the same whichever spelling of a field its keys use. */
  lemma EmbedRespelling(members: seq<(string, Json)>, i: nat, key: string)
    requires i < |members| && FieldIndex(EmbedKeys, members[i].0) == FieldIndex(EmbedKeys, key)
    ensures DecodeEmbed(JObject(members[i := (key, members[i].1)])) == DecodeEmbed(JObject(members))
  {
    GatherRespelling(EmbedKeys, members, i, key);
    assert StructFields(EmbedKeys, "struct Embed", JObject(members[i := (key, members[i].1)]))
        == StructFields(EmbedKeys, "struct Embed", JObject(members));
  }

  /** An author decodes the same whichever spelling of a field its keys use. */
  lemma AuthorRespelling(members: seq<(string, Json)>, i: nat, key: string)
    requires i < |members| && FieldIndex(AuthorKeys, members[i].0) == FieldIndex(AuthorKeys, key)
    ensures DecodeEmbedAuthor(JObject(members[i := (key, members[i].1)])) == DecodeEmbedAuthor(JObject(members))
  {
    GatherRespelling(AuthorKeys, members, i, key);
  }

  /** An RGB colour decodes the same whichever spelling of a field its keys use. */
  lemma RgbRespelling(members: seq<(string, Json)>, i: nat, key: string)
    requires i < |members| && FieldIndex(RgbKeys, members[i].0) == FieldIndex(RgbKeys, key)
    ensures DecodeRgb(JObject(members[i := (key, members[i].1)])) == DecodeRgb(JObject(members))
  {
    GatherRespelling(RgbKeys, members, i, key);
  }

  // ----- what the untagged unions accept ------------------------------------------------------

  /** An array decodes as a `Vec` exactly when every item decodes, item by item and in order. */
  lemma {:induction false} DecodeSeqMeaning<T>(items: seq<Json>, decode: Json -> Result<T, JsonError>)
    ensures DecodeSeq(items, decode).Ok? <==> forall i | 0 <= i < |items| :: decode(items[i]).Ok?
    ensures DecodeSeq(items, decode).Ok? ==>
      |DecodeSeq(items, decode).value| == |items| &&
      forall i | 0 <= i < |items| :: DecodeSeq(items, decode).value[i] == decode(items[i]).value
    decreases |items|
  {
    if items != [] {
      var n := |items|;
      DecodeSeqMeaning(items[..n - 1], decode);
      assert forall i | 0 <= i < n - 1 :: items[..n - 1][i] == items[i];
    }
  }

  /** A field given on its own is the one-field `Single` form; the same field wrapped in a
      one-item array is the `Vector` form holding just it. */
  lemma FieldEnumForms(j: Json)
    requires DecodeEmbedField(j).Ok?
    ensures DecodeFieldEnum(j) == Ok(Single(DecodeEmbedField(j).value))
    ensures DecodeFieldEnum(JArray([j])) == Ok(Vector([DecodeEmbedField(j).value]))
  {
    DecodeSeqMeaning([j], DecodeEmbedField);
    assert DecodeEmbedField(JArray([j])) == Err(InvalidLength(1));
    assert DecodeSeq([j], DecodeEmbedField).value == [DecodeEmbedField(j).value];
  }

  /** An array of decodable fields is always the `Vector` form, in the array's order. */
  lemma FieldEnumVector(items: seq<Json>)
    requires forall i | 0 <= i < |items| :: DecodeEmbedField(items[i]).Ok?
    ensures DecodeFieldEnum(JArray(items)).Ok? && DecodeFieldEnum(JArray(items)).value.Vector?
    ensures |DecodeFieldEnum(JArray(items)).value.fields| == |items|
    ensures forall i | 0 <= i < |items| ::
      DecodeFieldEnum(JArray(items)).value.fields[i] == DecodeEmbedField(items[i]).value
  {
    DecodeSeqMeaning(items, DecodeEmbedField);
    if |items| == |FieldKeys| {
      // The positional `Single` form would need a string name first; a field is never a string.
      assert !items[0].JString?;
    }
  }

  /** A footer given as a string is the text-only form; an object is the complex form. */
  lemma FooterEnumForms(s: string, members: seq<(string, Json)>)
    ensures DecodeFooterEnum(JString(s)) == Ok(TextOnly(s))
    ensures DecodeEmbedFooter(JObject(members)).Ok? ==>
      DecodeFooterEnum(JObject(members)) == Ok(Complex(DecodeEmbedFooter(JObject(members)).value))
    ensures DecodeFooterEnum(JObject([("text", JString(s))])) == Ok(Complex(EmbedFooter(Some(s), None)))
  {
    assert Gather(FooterKeys, [("text", JString(s))]) == Ok(map[0 := JString(s)]) by {
      assert [("text", JString(s))][..0] == [];
    }
  }

  /** A colour is tried as an integer, then as a string (so `"123"` stays a name or hex string),
      then as red/green/blue components. */
  lemma ColourEnumForms(j: Json)
    ensures j.JNumber? && 0 <= j.number < 0x1_0000_0000 ==> DecodeColourEnum(j) == Ok(Integer(j.number))
    ensures j.JNumber? && !(0 <= j.number < 0x1_0000_0000) ==>
      DecodeColourEnum(j) == Err(NoVariantMatched("EmbedColourEnum"))
    ensures j.JString? ==> DecodeColourEnum(j) == Ok(String(j.text))
    ensures j.JObject? && DecodeRgb(j).Ok? ==> DecodeColourEnum(j) == Ok(RGB(DecodeRgb(j).value))
    ensures j.JNull? || j.JBool? ==> DecodeColourEnum(j) == Err(NoVariantMatched("EmbedColourEnum"))
  {
  }

  // ----- the unit tests of src/parsers/message.rs ---------------------------------------------

  lemma ContentOnlyCase()
    ensures DecodeMessage(JObject([("content", JString("My Important Message"))]))
         == Ok(Message(Some("My Important Message"), None))
  {
    assert [("content", JString("My Important Message"))][..0] == [];
  }

  lemma EmbedFieldCase()
    ensures DecodeEmbedField(JObject([("name", JString("Title")), ("value", JString("My Val"))]))
         == Ok(EmbedField("Title", "My Val", None))
  {
    var ms := [("name", JString("Title")), ("value", JString("My Val"))];
    assert ms[..1][..0] == [];
    assert Gather(FieldKeys, ms[..1]) == Ok(map[0 := JString("Title")]);
    assert ms[..|ms| - 1] == ms[..1];
  }

  /** `{"e": {"d": "My Description"}}`: the short spellings at both levels. */
  lemma SimpleEmbedCase()
    ensures DecodeMessage(JObject([("e", JObject([("d", JString("My Description"))]))]))
         == Ok(Message(None, Some(Embed(None, Some("My Description"), None, None, None))))
  {
    assert [("d", JString("My Description"))][..0] == [];
    assert [("e", JObject([("d", JString("My Description"))]))][..0] == [];
  }

  /** `"c"` is the content of a message but the colour of an embed. */
  lemma ShortKeyCCase()
    ensures DecodeMessage(JObject([("c", JString("RED"))])) == Ok(Message(Some("RED"), None))
    ensures DecodeEmbed(JObject([("c", JString("RED"))])) == Ok(Embed(Some(String("RED")), None, None, None, None))
  {
    assert [("c", JString("RED"))][..0] == [];
  }

  /** `{"colour": "RED"}`: a colour name stays a string until it is resolved. */
  lemma ColourEmbedCase()
    ensures DecodeEmbed(JObject([("colour", JString("RED"))])) == Ok(Embed(Some(String("RED")), None, None, None, None))
  {
    assert [("colour", JString("RED"))][..0] == [];
  }

  /** A field given twice under two spellings is rejected. */
  lemma DuplicateSpellingCase()
    ensures DecodeMessage(JObject([("content", JString("a")), ("c", JString("b"))])) == Err(DuplicateField("content"))
  {
    var ms := [("content", JString("a")), ("c", JString("b"))];
    assert ms[..1][..0] == [];
    assert ms[..|ms| - 1] == ms[..1];
    assert Gather(MessageKeys, ms[..1]) == Ok(map[0 := JString("a")]);
    assert FieldIndex(MessageKeys, "c") == Some(0);
  }

  /** One step of gathering: a member selecting a field not yet held adds it. */
  lemma GatherStep(keys: StructKeys, members: seq<(string, Json)>, found: map<nat, Json>, key: string, v: Json, f: nat)
    requires forall i | 0 <= i < |keys| :: |keys[i]| > 0
    requires Gather(keys, members) == Ok(found) && FieldIndex(keys, key) == Some(f) && f !in found
    ensures Gather(keys, members + [(key, v)]) == Ok(found[f := v])
  {
    assert (members + [(key, v)])[..|members|] == members;
  }

  /** Gathering three members that select three different fields. */
  lemma GatherThree(keys: StructKeys, m0: (string, Json), m1: (string, Json), m2: (string, Json), f0: nat, f1: nat, f2: nat)
    requires forall i | 0 <= i < |keys| :: |keys[i]| > 0
    requires FieldIndex(keys, m0.0) == Some(f0) && FieldIndex(keys, m1.0) == Some(f1) && FieldIndex(keys, m2.0) == Some(f2)
    requires f0 != f1 && f0 != f2 && f1 != f2
    ensures Gather(keys, [m0, m1, m2]) == Ok(map[f0 := m0.1][f1 := m1.1][f2 := m2.1])
  {
    GatherStep(keys, [], map[], m0.0, m0.1, f0);
    assert [] + [m0] == [m0];
    GatherStep(keys, [m0], map[f0 := m0.1], m1.0, m1.1, f1);
    assert [m0] + [m1] == [m0, m1];
    GatherStep(keys, [m0, m1], map[f0 := m0.1][f1 := m1.1], m2.0, m2.1, f2);
    assert [m0, m1] + [m2] == [m0, m1, m2];
  }

  /** A field object with all three members, in declaration order. */
  lemma FullFieldCase(name: string, value: string, inline: bool)
    ensures DecodeEmbedField(JObject([("name", JString(name)), ("value", JString(value)), ("inline", JBool(inline))]))
         == Ok(EmbedField(name, value, Some(inline)))
  {
    GatherThree(FieldKeys, ("name", JString(name)), ("value", JString(value)), ("inline", JBool(inline)), 0, 1, 2);
  }

  /** Gathering five members that select five different fields. */
  lemma GatherFive(keys: StructKeys, m0: (string, Json), m1: (string, Json), m2: (string, Json),
                   m3: (string, Json), m4: (string, Json))
    requires forall i | 0 <= i < |keys| :: |keys[i]| > 0
    requires FieldIndex(keys, m0.0) == Some(0) && FieldIndex(keys, m1.0) == Some(1) && FieldIndex(keys, m2.0) == Some(2)
    requires FieldIndex(keys, m3.0) == Some(3) && FieldIndex(keys, m4.0) == Some(4)
    ensures Gather(keys, [m0, m1, m2, m3, m4]) == Ok(map[0 := m0.1][1 := m1.1][2 := m2.1][3 := m3.1][4 := m4.1])
  {
    GatherThree(keys, m0, m1, m2, 0, 1, 2);
    GatherStep(keys, [m0, m1, m2], map[0 := m0.1][1 := m1.1][2 := m2.1], m3.0, m3.1, 3);
    assert [m0, m1, m2] + [m3] == [m0, m1, m2, m3];
    GatherStep(keys, [m0, m1, m2, m3], map[0 := m0.1][1 := m1.1][2 := m2.1][3 := m3.1], m4.0, m4.1, 4);
    assert [m0, m1, m2, m3] + [m4] == [m0, m1, m2, m3, m4];
  }

  /** The shape of the `complex_message` test's embed, for any strings in it: a colour, a
      description, a one-item `fields` array, a string footer and a name-only author. */
  function ComplexEmbedJson(colour: string, description: string, name: string, value: string,
                            footer: string, author: string): Json
  {
    JObject([
      ("colour", JString(colour)),
      ("description", JString(description)),
      ("fields", JArray([JObject([("name", JString(name)), ("value", JString(value)), ("inline", JBool(true))])])),
      ("footer", JString(footer)),
      ("author", JObject([("name", JString(author))]))])
  }

  /** The full-length keys of an embed select its five fields in order. */
  lemma EmbedFullKeys()
    ensures FieldIndex(EmbedKeys, "colour") == Some(0) && FieldIndex(EmbedKeys, "description") == Some(1)
    ensures FieldIndex(EmbedKeys, "fields") == Some(2) && FieldIndex(EmbedKeys, "footer") == Some(3)
    ensures FieldIndex(EmbedKeys, "author") == Some(4)
  {
    assert FieldIndex(EmbedKeys, "fields") == Some(2) by { EmbedSpellings("fields"); }
    assert FieldIndex(EmbedKeys, "footer") == Some(3) by { EmbedSpellings("footer"); }
    assert FieldIndex(EmbedKeys, "author") == Some(4) by { EmbedSpellings("author"); }
  }

  lemma ComplexEmbedGather(colour: string, description: string, name: string, value: string,
                           footer: string, author: string)
    ensures var ms := ComplexEmbedJson(colour, description, name, value, footer, author).members;
      Gather(EmbedKeys, ms) == Ok(map[0 := ms[0].1][1 := ms[1].1][2 := ms[2].1][3 := ms[3].1][4 := ms[4].1])
  {
    var ms := ComplexEmbedJson(colour, description, name, value, footer, author).members;
    EmbedFullKeys();
    GatherFive(EmbedKeys, ms[0], ms[1], ms[2], ms[3], ms[4]);
    assert ms == [ms[0], ms[1], ms[2], ms[3], ms[4]];
  }

  lemma ComplexEmbedFields(name: string, value: string)
    ensures DecodeFieldEnum(JArray([JObject([("name", JString(name)), ("value", JString(value)), ("inline", JBool(true))])]))
         == Ok(Vector([EmbedField(name, value, Some(true))]))
  {
    FullFieldCase(name, value, true);
    FieldEnumForms(JObject([("name", JString(name)), ("value", JString(value)), ("inline", JBool(true))]));
  }

  lemma NameOnlyAuthorCase(author: string)
    ensures DecodeEmbedAuthor(JObject([("name", JString(author))])) == Ok(EmbedAuthor(author, None, None))
  {
    GatherStep(AuthorKeys, [], map[], "name", JString(author), 0);
    assert [] + [("name", JString(author))] == [("name", JString(author))];
  }

  lemma ComplexEmbedCase(colour: string, description: string, name: string, value: string,
                         footer: string, author: string)
    ensures DecodeEmbed(ComplexEmbedJson(colour, description, name, value, footer, author))
         == Ok(Embed(Some(String(colour)), Some(description), Some(Vector([EmbedField(name, value, Some(true))])),
                     Some(TextOnly(footer)), Some(EmbedAuthor(author, None, None))))
  {
    ComplexEmbedGather(colour, description, name, value, footer, author);
    ComplexEmbedFields(name, value);
    NameOnlyAuthorCase(author);
  }

  /** The `complex_message` test: every part of a message at once, under full-length keys. */
  lemma ComplexMessageCase()
    ensures DecodeMessage(JObject([("content", JString("Content")),
                                   ("embed", ComplexEmbedJson("RED", "Description", "Name", "Value", "Footer", "Name"))]))
         == Ok(Message(Some("Content"), Some(Embed(
              Some(String("RED")), Some("Description"), Some(Vector([EmbedField("Name", "Value", Some(true))])),
              Some(TextOnly("Footer")), Some(EmbedAuthor("Name", None, None))))))
  {
    var m0, m1 := ("content", JString("Content")), ("embed", ComplexEmbedJson("RED", "Description", "Name", "Value", "Footer", "Name"));
    GatherStep(MessageKeys, [], map[], m0.0, m0.1, 0);
    assert [] + [m0] == [m0];
    GatherStep(MessageKeys, [m0], map[0 := m0.1], m1.0, m1.1, 1);
    assert [m0] + [m1] == [m0, m1];
    ComplexEmbedCase("RED", "Description", "Name", "Value", "Footer", "Name");
  }
}
