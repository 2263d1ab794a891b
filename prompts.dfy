/** The prompt vocabulary of src/utils/prompts.rs: the answers a prompt can produce, the emoji
    standing for the four control answers, how the two racing prompts' outcomes become an
    answer or an error, and the one-step rich-message builder. */
module Prompts {

  import opened Wrappers
  import opened Errors
  import opened Materialise

  datatype PromptResult = Accept | Cancel | Preview | Skip | TimedOut | Message(text: string)

  /** A reaction emoji: a Unicode emoji, or a guild's custom emoji. */
  datatype ReactionType = Unicode(emoji: string) | Custom(animated: bool, id: nat, name: Option<string>)

  /** The variants in declaration order, as `PromptResult::iter()` yields them; the iterator
      gives the `Message` variant an empty string. */
  const AllVariants: seq<PromptResult> := [Accept, Cancel, Preview, Skip, TimedOut, Message("")]

  predicate IsControl(r: PromptResult)
  {
    r.Accept? || r.Cancel? || r.Preview? || r.Skip?
  }

  /** `emoji_representation` (lines 54-64). */
  function EmojiRepresentation(r: PromptResult): Option<ReactionType>
  {
    match r
    case Accept => Some(Unicode(['✅']))      // white check mark
    case Cancel => Some(Unicode(['❌']))      // cross mark
    case Preview => Some(Unicode(['\U{1F441}']))  // eye
    case Skip => Some(Unicode(['⏩']))        // fast-forward
    case TimedOut => None
    case Message(_) => None
  }

  /** The emoji of the variants in `vs` that have one, in order. */
  function Representations(vs: seq<PromptResult>): seq<ReactionType>
  {
    if vs == [] then []
    else
      (match EmojiRepresentation(vs[0]) case Some(e) => [e] case None => []) + Representations(vs[1..])
  }

  /** `all_representations` (lines 66-68). */
  function AllRepresentations(): seq<ReactionType>
  {
    Representations(AllVariants)
  }

  /** The first variant of `vs` whose emoji is `emoji`. */
  function FirstWithEmoji(vs: seq<PromptResult>, emoji: ReactionType): Option<PromptResult>
  {
    if vs == [] then None
    else if EmojiRepresentation(vs[0]) == Some(emoji) then Some(vs[0])
    else FirstWithEmoji(vs[1..], emoji)
  }

  /** `from_emoji` (lines 70-74). */
  function FromEmoji(emoji: ReactionType): Option<PromptResult>
  {
    FirstWithEmoji(AllVariants, emoji)
  }

  // ----- the outcome of a prompt ----------------------------------------------------------------

  /** The errors of the prompt library: a timeout, a transport failure, or anything else. */
  datatype PromptLibraryError =
    | TimeoutError
    | LibrarySerenityError(cause: SerenityFailure)
    | OtherPromptError(description: string)

  /** Which of the two racing prompts finished first, and with what. The race itself is not
      modelled; either branch may win. */
  datatype PromptRace =
    | TextReplied(reply: Option<string>)
    | Reacted(reaction: Result<ReactionType, PromptLibraryError>)

  /** The error for a reaction that is none of the four control emoji. */
  const UnknownReaction: BotstoneError := ImpossibleError(Botstone(Other("Unknown reaction!")))

  /** The text-reply branch (lines 87-93): a reply is the message, no reply a timeout. */
  function TextReplyResult(reply: Option<string>): PromptResult
  {
    match reply
    case Some(response) => Message(response)
    case None => TimedOut
  }

  /** The reaction branch (lines 94-102). */
  function ReactionResult(reaction: Result<ReactionType, PromptLibraryError>): Result<PromptResult, BotstoneError>
  {
    match reaction
    case Ok(emoji) =>
      (match FromEmoji(emoji)
       case Some(r) => Ok(r)
       case None => Err(UnknownReaction))
    case Err(TimeoutError) => Ok(TimedOut)
    case Err(LibrarySerenityError(e)) => Err(SerenityError(e))
    case Err(OtherPromptError(description)) => Err(ImpossibleError(PromptLibrary(description)))
  }

  /** `prompt_for_message_part`: the answer of whichever prompt finished first. */
  function PromptForMessagePart(race: PromptRace): Result<PromptResult, BotstoneError>
  {
    match race
    case TextReplied(reply) => Ok(TextReplyResult(reply))
    case Reacted(reaction) => ReactionResult(reaction)
  }

  /** `get_rich_message` (lines 22-41): sends the question (which may fail), prompts, and sets
      the new message's content to the reply, if the answer is a reply. */
  method GetRichMessage(sent: Result<(), SerenityFailure>, race: PromptRace) returns (r: Result<MessagePayload, BotstoneError>)
    ensures sent.Err? ==> r == Err(SerenityError(sent.error))
    ensures sent.Ok? && PromptForMessagePart(race).Err? ==> r == Err(PromptForMessagePart(race).error)
    ensures sent.Ok? && PromptForMessagePart(race).Ok? ==>
      r.Ok? && r.value.embed.None? &&
      (PromptForMessagePart(race).value.Message? ==> r.value.content == Some(PromptForMessagePart(race).value.text)) &&
      (!PromptForMessagePart(race).value.Message? ==> r.value.content.None?)
  {
    var createdMessage := MessagePayload(None, None);
    if sent.Err? {
      return Err(SerenityError(sent.error));
    }
    var answer := PromptForMessagePart(race);
    if answer.Err? {
      return Err(answer.error);
    }
    match answer.value {
      case Message(msg) =>
        createdMessage := createdMessage.(content := Some(msg));
      case _ =>
    }
    return Ok(createdMessage);
  }

  // ----- properties -----------------------------------------------------------------------------

  /** Exactly the four control variants have an emoji. */
  lemma EmojiExactlyForControls(r: PromptResult)
    ensures EmojiRepresentation(r).Some? <==> IsControl(r)
  {
  }

  /** `all_representations` is the four control emoji, in declaration order, all different. */
  lemma AllRepresentationsInOrder()
    ensures AllRepresentations() == [EmojiRepresentation(Accept).value, EmojiRepresentation(Cancel).value,
                                     EmojiRepresentation(Preview).value, EmojiRepresentation(Skip).value]
    ensures forall i, j | 0 <= i < j < |AllRepresentations()| :: AllRepresentations()[i] != AllRepresentations()[j]
  {
    var vs := AllVariants;
    assert Representations(vs[5..]) == [] by {
      assert vs[5..][1..] == [];
    }
    assert vs[4..][1..] == vs[5..] && vs[3..][1..] == vs[4..] && vs[2..][1..] == vs[3..];
    assert vs[1..][1..] == vs[2..];
  }

  /** What the first-match search finds: a variant of `vs` carrying that emoji, and nothing
      exactly when no variant of `vs` carries it. */
  lemma {:induction false} FirstWithEmojiMeaning(vs: seq<PromptResult>, emoji: ReactionType)
    ensures FirstWithEmoji(vs, emoji).Some? ==>
      FirstWithEmoji(vs, emoji).value in vs && EmojiRepresentation(FirstWithEmoji(vs, emoji).value) == Some(emoji)
    ensures FirstWithEmoji(vs, emoji).None? <==> forall v | v in vs :: EmojiRepresentation(v) != Some(emoji)
    decreases |vs|
  {
    if vs != [] {
      FirstWithEmojiMeaning(vs[1..], emoji);
      assert forall v | v in vs[1..] :: v in vs;
      assert forall v | v in vs :: v == vs[0] || v in vs[1..];
    }
  }

  /** `from_emoji` inverts `emoji_representation` on the four control variants, and finds only
      variants whose emoji it was given: so every other emoji gives nothing. */
  lemma FromEmojiInvertsRepresentation(r: PromptResult, emoji: ReactionType)
    ensures IsControl(r) ==> FromEmoji(EmojiRepresentation(r).value) == Some(r)
    ensures FromEmoji(emoji).Some? ==> EmojiRepresentation(FromEmoji(emoji).value) == Some(emoji)
    ensures FromEmoji(emoji).None? <==> emoji !in AllRepresentations()
  {
    FirstWithEmojiMeaning(AllVariants, emoji);
    AllRepresentationsInOrder();
  }

  /** The branch results: a text reply is the message or a timeout and never an error; a
      reaction is its control answer, an unknown emoji is impossible, a prompt timeout is a
      timeout, a transport failure passes on, and any other prompt error is impossible. */
  lemma PromptOutcomes(reply: Option<string>, emoji: ReactionType, e: SerenityFailure, other: string)
    ensures PromptForMessagePart(TextReplied(reply)) == Ok(if reply.Some? then Message(reply.value) else TimedOut)
    ensures PromptForMessagePart(Reacted(Ok(emoji))).Ok? <==> emoji in AllRepresentations()
    ensures PromptForMessagePart(Reacted(Ok(emoji))).Ok? ==>
      EmojiRepresentation(PromptForMessagePart(Reacted(Ok(emoji))).value) == Some(emoji)
    ensures emoji !in AllRepresentations() ==> PromptForMessagePart(Reacted(Ok(emoji))) == Err(UnknownReaction)
    ensures PromptForMessagePart(Reacted(Err(TimeoutError))) == Ok(TimedOut)
    ensures PromptForMessagePart(Reacted(Err(LibrarySerenityError(e)))) == Err(SerenityError(e))
    ensures PromptForMessagePart(Reacted(Err(OtherPromptError(other)))).Err? &&
            PromptForMessagePart(Reacted(Err(OtherPromptError(other)))).error.ImpossibleError?
  {
    FromEmojiInvertsRepresentation(Accept, emoji);
  }

  /** A reaction can only ever answer one of the four control variants. */
  lemma ReactionAnswersAreControls(reaction: Result<ReactionType, PromptLibraryError>)
    ensures ReactionResult(reaction).Ok? ==> IsControl(ReactionResult(reaction).value) || ReactionResult(reaction).value.TimedOut?
  {
    if reaction.Ok? {
      FromEmojiInvertsRepresentation(Accept, reaction.value);
    }
  }
}
