# botstone core, modelled in Dafny

botstone is a Discord bot. This project models its deterministic core and proves what that
core promises:

- **Rich messages** (`src/parsers/message.rs`). A message is written as JSON. It is decoded
  into a typed `Message` tree under serde's rules: field aliases, untagged unions and optional
  fields. The tree is then turned into the chat library's message builder. Colours are written
  as an integer, `#RRGGBB`, a colour name or an RGB triple, and each resolves to a 24-bit
  colour or to a precise error. Modules `Colours`, `Schema` and `Materialise`.
- **Permission nodes** (`src/parsers/permissions.rs`). Strings `a.b.c` and `a.b.*` are parsed
  into permissions, and a permission is matched against a requested node. Module
  `Permissions`.
- **Role permissions** (`has_permission` in `src/utils/permissions.rs`). The guild's
  (role, permission) list is sorted in place by node length. Then the function asks whether a
  held role grants the node. Module `RolePermissions`.
- **Prompts** (`src/utils/prompts.rs`). These are the answers a prompt can give, the emoji of
  the four control answers, how a text reply or a reaction becomes an answer or an error, and
  the one-step message builder. Module `Prompts`.
- **Guild prefix cache** (`src/database/queries.rs`, `src/event_handling.rs`).
  `GuildInfoTable` keeps an in-memory map of every guild's command prefix in step with the
  `guild_info` table. Two hooks use it: the back-fill when the cache is ready, and the
  per-message prefix lookup. Modules `GuildInfo` and `EventHandling`.
- **Helpers**. These are the link to a message and the report-or-send decision for a
  serialised message (`src/utils/misc.rs`), `IntoResult` and `unwrap_or_return!`
  (`src/macros.rs`), and the build description (`src/version_data.rs`). Modules `Misc`,
  `Macros` and `Version`.

`Wrappers` holds `Option` and `Result`. `Errors` holds the error types of
`src/structures/errors.rs`. `Text` holds UTF-8 byte length, decimal rendering and splitting.

Strings are sequences of Unicode scalar values. Rust's `len()` counts UTF-8 bytes, so it is
modelled by `Text.ByteLen`. The parser and matcher of permission nodes mix byte lengths with
character indices; both readings are modelled and compared (see Findings), and
`has_permission` uses the matcher as written. The database is a map from `guild_id` to `prefix` held by
the `GuildInfoTable` object, with `guild_id` unique. A query that fails in the database
library, a message send that fails and the winner of the prompt race are all parameters
supplied by the caller.

## Model

| member | source | states |
|---|---|---|
| Colours.FromRgb | src/parsers/message.rs:156 | An RGB triple packs into a 24-bit colour with red, green and blue in bytes 2, 1 and 0. |
| Colours.NonStringColoursResolve | src/parsers/message.rs:137-158 | Integer colours are used unchanged and RGB colours are packed; neither fails. |
| Colours.HexLengthRejected | src/parsers/message.rs:141-147 | A `#` string whose byte length is not 7 fails with `InvalidColourHexLength` carrying the input. |
| Colours.HexStringResolution | src/parsers/message.rs:141-147 | A 7-byte `#` string resolves iff it is `#` and six hex digits of either case (or `#+` and five). The value is the digits in base 16. Otherwise it fails with `InvalidColourHexValue` carrying the input. |
| Colours.HexRoundTrip | src/parsers/message.rs:442-450 | For every v < 16^6, `#` plus v as six upper-case hex digits resolves to v. |
| Colours.NameResolution | src/parsers/message.rs:149-153 | A string not starting with `#` resolves iff it is a key of the name table, to that entry. Otherwise it fails with `UnknownColourName` carrying the input. |
| Colours.NameLookupIsCaseSensitive | src/parsers/message.rs:14-45 | `RED` resolves to 0xE74C3C, while `red` is an unknown name. |
| Colours.HexLengthTestCases | src/parsers/message.rs:391-405 | `#1`, `#10`, `#100`, `#1000000` and `#12345678` fail with the length error. |
| Colours.BadColourTestCases | src/parsers/message.rs:407-414 | `#gggggg` fails with the value error and `abc` with the unknown-name error. |
| Colours.PaddedHexTestCases | src/parsers/message.rs:416-431 | `#000000`, `#000001` and `#000010` give 0, 1 and 16. |
| Colours.DecimalDigitHexTestCase | src/parsers/message.rs:416-431 | `#234099` gives 2310297. |
| Colours.LetterHexTestCase | src/parsers/message.rs:416-431 | `#abcdef` gives 11259375. |
| Colours.PlusSignAccepted | src/parsers/message.rs:143 | `#+12345` is accepted, because `from_str_radix` takes a leading `+`. |
| Schema.FieldIndex | src/parsers/message.rs:47-53 | A key selects the first field that lists it as its name or an alias. |
| Schema.GatherFailsOnlyOnDuplicates | src/parsers/message.rs:47-53 | Reading an object's members fails only with `DuplicateField`. |
| Schema.GatherHoldsSelectedFields | src/parsers/message.rs:72-85 | The fields read are exactly those that some key selects. |
| Schema.GatherHoldsValues | src/parsers/message.rs:72-85 | Each field read holds the value of the member that selected it. |
| Schema.DistinctFieldsStep | src/parsers/message.rs:72-85 | A member keeps the fields distinct iff it selects no field already given. |
| Schema.GatherSucceedsOnDistinctFields | src/parsers/message.rs:72-85 | Reading succeeds iff no field is given twice, under any spellings. |
| Schema.GatherRespelling | src/parsers/message.rs:74-84 | Writing a key as another spelling of the same field changes nothing. |
| Schema.GatherSkipsUnknownKeys | src/parsers/message.rs:47-53 | A key that names no field is ignored wherever it stands. |
| Schema.MessageSpellings | src/parsers/message.rs:47-53 | `content`/`c` select the content and `embed`/`e` the embed. Nothing else selects anything. |
| Schema.EmbedSpellings | src/parsers/message.rs:72-85 | `colour`/`c`/`color`, `description`/`d`, `field`/`f`/`fields`, `footer` and `author`/`a` select the five embed fields. |
| Schema.AuthorSpellings | src/parsers/message.rs:225-235 | `name`/`n`, `link`/`u`/`url`/`l` and `icon`/`i` select the author's fields. |
| Schema.RgbSpellings | src/parsers/message.rs:161-169 | `red`/`r`, `green`/`g` and `blue`/`b` select the colour components. |
| Schema.MessageRespelling | src/parsers/message.rs:47-53 | A message decodes the same under any spelling of its keys. |
| Schema.EmbedRespelling | src/parsers/message.rs:72-85 | An embed decodes the same under any spelling of its keys. |
| Schema.AuthorRespelling | src/parsers/message.rs:225-235 | An author decodes the same under any spelling of its keys. |
| Schema.RgbRespelling | src/parsers/message.rs:161-169 | An RGB colour decodes the same under any spelling of its keys. |
| Schema.DecodeSeqMeaning | src/parsers/message.rs:171-176 | An array decodes as a list iff every item decodes; the items keep their order. |
| Schema.FieldEnumForms | src/parsers/message.rs:171-176 | A lone field object is `Single`, and the same field in a one-item array is `Vector` of it. |
| Schema.FieldEnumVector | src/parsers/message.rs:171-176 | An array of decodable fields is `Vector` of them, in order. |
| Schema.FooterEnumForms | src/parsers/message.rs:184-189 | A string footer is `TextOnly` and an object footer is `Complex`. |
| Schema.ColourEnumForms | src/parsers/message.rs:126-132 | A colour is tried as an integer, then as a string, then as an RGB triple. |
| Schema.ContentOnlyCase | src/parsers/message.rs:254-263 | `{"content": ..}` decodes to a message with that content and no embed. |
| Schema.EmbedFieldCase | src/parsers/message.rs:265-275 | A field without `inline` decodes with `inline` absent. |
| Schema.SimpleEmbedCase | src/parsers/message.rs:277-292 | `{"e": {"d": ..}}` decodes to an embed with only that description. |
| Schema.ColourEmbedCase | src/parsers/message.rs:294-306 | `{"colour": "RED"}` decodes to an embed whose colour is the string `RED`. |
| Schema.ShortKeyCCase | src/parsers/message.rs:49-52 | `c` is the content of a message but the colour of an embed. |
| Schema.DuplicateSpellingCase | src/parsers/message.rs:49-50 | `content` and `c` in one message are a duplicate field. |
| Schema.FullFieldCase | src/parsers/message.rs:177-182 | A field object with `name`, `value` and `inline` decodes to that field. |
| Schema.ComplexEmbedCase | src/parsers/message.rs:308-356 | The embed shape of the complex-message test decodes to its typed embed, for any strings in it. |
| Schema.ComplexMessageCase | src/parsers/message.rs:308-356 | The complex-message test's JSON decodes to the expected `Message`. |
| Materialise.BuildFooter | src/parsers/message.rs:216-223 | The footer builder gets the footer's text, and its `url` as the icon URL. |
| Materialise.BuildAuthor | src/parsers/message.rs:237-245 | The author builder always gets the name. `link` becomes the URL and `icon` the icon URL. |
| Materialise.BuildEmbed | src/parsers/message.rs:87-124 | The step-by-step embed builder, including the field loop, produces exactly the specified embed or the colour's error. |
| Materialise.BuildMessage | src/parsers/message.rs:55-70 | The message builder produces exactly the specified message, or the embed's error. |
| Materialise.MessageFailsOnlyOnColour | src/parsers/message.rs:55-70 | A message fails to convert iff its embed's colour fails to resolve. The error is that colour's, and no partial result is produced. |
| Materialise.MessageConversion | src/parsers/message.rs:59-68 | A converted message keeps its content. It has an embed iff the message has one, and that embed has the description and the resolved colour. |
| Materialise.FieldEntriesOfEmbed | src/parsers/message.rs:101-109 | Every listed field becomes one entry, in order, inline iff it says `inline: true`. No field list gives no entries. |
| Materialise.SingleFieldIsOneItemList | src/parsers/message.rs:171-176 | `Single(f)` and `Vector([f])` give the same embed. |
| Materialise.TextFooterIsComplexFooter | src/parsers/message.rs:191-201 | A text-only footer is the footer with that text and no URL. |
| Materialise.AuthorEntries | src/parsers/message.rs:237-245 | The author entry has the name, the link as URL and the icon as icon URL. |
| Materialise.ComplexCastCase | src/parsers/message.rs:358-389 | The complex-cast test's message converts to the expected builder. |
| Materialise.ComplexJsonToBuilder | src/parsers/message.rs:308-389 | The complex-message JSON decodes and converts to the complex-cast builder. |
| Permissions.ParseAcceptsValidStrings | src/parsers/permissions.rs:39-56 | A string parses iff it is non-empty, does not end in `.`, and ends in `*` only as `.*`. A rejection carries the input. |
| Permissions.ParseRejections | src/parsers/permissions.rs:40-50 | The empty string, a trailing `.` and a `*` not preceded by `.` are rejected. |
| Permissions.ParseAcceptances | src/parsers/permissions.rs:44-54 | `x.*` parses to the wildcard over `x`. Any other accepted string is the exact node itself. |
| Permissions.ParseSerialiseRoundTrip | src/parsers/permissions.rs:39-56 | A parsed permission writes back as the very string it was parsed from. |
| Permissions.SerialiseParseRoundTrip | src/parsers/permissions.rs:39-56 | A writable permission parses back from its written form. |
| Permissions.ReverseInjective | src/parsers/permissions.rs:19-20 | The reversed character sequences are equal iff the strings are. |
| Permissions.ExactMatchesEqualNode | src/parsers/permissions.rs:19-20 | An exact permission matches a node iff the strings are equal. |
| Permissions.WildcardMatchesDottedExtensions | src/parsers/permissions.rs:22-27 | A wildcard matches iff the node starts with its node followed by `.`. It never matches the bare node or a continuation without the dot. |
| Permissions.ParseAgreesOnAscii | src/parsers/permissions.rs:39-56 | On ASCII text the as-written parser and the character-indexed parser agree. |
| Permissions.MatchesAgreesOnAscii | src/parsers/permissions.rs:17-29 | For an ASCII node the as-written matcher and the character-indexed matcher agree. |
| Permissions.AsWrittenWildcardsAreAscii | src/parsers/permissions.rs:44-48 | As written, only ASCII strings parse as wildcards. |
| Permissions.NonAsciiWildcardRejected | src/parsers/permissions.rs:40-48 | As written, `é.*` is rejected. By character it is the wildcard over `é`. |
| Permissions.NonAsciiWildcardMissesChild | src/parsers/permissions.rs:22-27 | As written, the wildcard over `é` misses `é.x`. By character it matches. |
| Permissions.ExactMatchingTestCases | src/parsers/permissions.rs:64-91 | `my.long.perm.node` matches itself, and `my.long` does not match it, under both matchers. |
| Permissions.WildcardMatchingTestCases | src/parsers/permissions.rs:93-118 | `root.*` misses `rootnode`, `my.p.*` misses `my.perm`, and `my.*` matches `my.perm`, under both matchers. |
| Permissions.ParsingTestCases | src/parsers/permissions.rs:120-147 | `my.perm` and `my.*` parse as expected, and `""`, `.`, `*`, `myperm*` and `myperm*.` are rejected, under both parsers. |
| RolePermissions.SortByNodeLength | src/utils/permissions.rs:35 | The in-place sort leaves the entries ordered by non-decreasing node byte length, as a permutation of the input. |
| RolePermissions.HasPermission | src/utils/permissions.rs:34-40 | The entries end sorted and permuted, and the answer is true iff some entry of a held role matches the node under the matcher as written (byte-length index). |
| RolePermissions.AnyHeldMatchesGrants | src/utils/permissions.rs:36-39 | The filter/any chain is true iff some held entry matches. |
| RolePermissions.GrantsIgnoresOrder | src/utils/permissions.rs:35-39 | Reordering the entries never changes the answer. |
| RolePermissions.OnlyHeldEntriesCount | src/utils/permissions.rs:37 | Entries of roles not held never affect the answer. |
| RolePermissions.NothingGrantedWithoutRolesOrEntries | src/utils/permissions.rs:37 | No roles or no entries grants nothing. |
| RolePermissions.GrantsAgreesOnAscii | src/utils/permissions.rs:36-39 | When every node in the table is ASCII, the answer equals the one the character-indexed matcher gives. |
| RolePermissions.NonAsciiWildcardRoleMissesChild | src/utils/permissions.rs:36-39 | A role holding the wildcard over `é` is not granted `é.x`, though by character it would be. |
| Prompts.GetRichMessage | src/utils/prompts.rs:22-41 | A send failure or a prompt error propagates. `Message(msg)` sets the content to `msg`, and any other answer leaves the message empty. |
| Prompts.EmojiExactlyForControls | src/utils/prompts.rs:54-64 | Exactly `Accept`, `Cancel`, `Preview` and `Skip` have an emoji. |
| Prompts.AllRepresentationsInOrder | src/utils/prompts.rs:66-68 | The representations are the four control emoji in declaration order, all distinct. |
| Prompts.FirstWithEmojiMeaning | src/utils/prompts.rs:70-74 | The search finds a variant carrying the emoji, and finds nothing iff no variant carries it. |
| Prompts.FromEmojiInvertsRepresentation | src/utils/prompts.rs:70-74 | `from_emoji` inverts `emoji_representation` on the control variants, and any other emoji gives `None`. |
| Prompts.PromptOutcomes | src/utils/prompts.rs:87-102 | A text reply is `Message` or `TimedOut`. A control emoji answers the variant it represents, and an unknown emoji is `ImpossibleError`. A prompt timeout is `TimedOut`, a transport error propagates, and any other error is `ImpossibleError`. |
| Prompts.ReactionAnswersAreControls | src/utils/prompts.rs:94-102 | A reaction only ever answers a control variant or `TimedOut`. |
| GuildInfo.GetAllGuildInfo | src/database/queries.rs:49-59 | The cache read from the table holds exactly its rows, each under its guild. |
| GuildInfo.GuildInfoTable.constructor | src/database/queries.rs:40-47 | A new table's cache mirrors the database table. |
| GuildInfo.New | src/database/queries.rs:40-47 | A failed read returns the database error. Otherwise the new cache mirrors the table. |
| GuildInfo.GuildInfoTable.GetPrefix | src/database/queries.rs:61-65 | The result is the cached prefix, or `None` iff the guild is not cached. While the cache mirrors the table, that is the table's prefix. |
| GuildInfo.GuildInfoTable.GetGuilds | src/database/queries.rs:118-120 | The result is exactly the guilds with a cached prefix; while mirrored, the guilds in the table. |
| GuildInfo.GuildInfoTable.WriteInfo | src/database/queries.rs:91-111 | On success the guild maps to the inserted row and nothing else changes. An error (including a duplicate guild) changes nothing. The cache stays mirrored. |
| GuildInfo.GuildInfoTable.AddGuild | src/database/queries.rs:113-116 | On success the guild gets the default prefix. It cannot fail for a new guild without a database fault. |
| GuildInfo.GuildInfoTable.SetPrefix | src/database/queries.rs:67-89 | An existing row is updated and cached; otherwise the row is written. On success the guild maps to the new prefix, and an error changes nothing. A failed update is returned; for a guild without a row, a failed insert is returned, and otherwise the call succeeds. |
| GuildInfo.GuildInfoTable.RemoveGuild | src/database/queries.rs:122-133 | No row deleted gives `NothingDeleted` with the cache unchanged. Otherwise exactly that guild leaves cache and table, and a fault changes nothing. |
| GuildInfo.IdConversionRoundTrip | src/database/queries.rs:56 | `i64::from` and `as u64` invert each other on guild ids. |
| GuildInfo.MirrorIsUnique | src/database/queries.rs:49-59 | Only one cache mirrors a given table. |
| GuildInfo.CacheStaysInStep | src/database/queries.rs:106-108 | Inserting a row and caching it keeps the cache mirrored. |
| GuildInfo.CacheStaysInStepOnRemoval | src/database/queries.rs:124-131 | Deleting a row and dropping it from the cache keeps the cache mirrored. |
| EventHandling.CacheReady | src/event_handling.rs:28-45 | Guilds with a prefix are untouched. Each listed guild without one gets the default prefix unless its insert fails. A failure is skipped and the loop goes on. No other guild is added. |
| EventHandling.DynamicPrefix | src/event_handling.rs:61-71 | The prefix is exactly `get_prefix` of the message's guild, which is required. |
| Misc.GetMessageUrl | src/utils/misc.rs:11-16 | The link starts with `https://discordapp.com/channels/`. |
| Misc.MessageUrlIds | src/utils/misc.rs:11-16 | After that base, splitting on `/` gives exactly the three ids in decimal. |
| Misc.MessageUrlInjective | src/utils/misc.rs:11-16 | Different (guild, channel, message) triples have different links. |
| Misc.SendRichSerializedMessage | src/utils/misc.rs:18-52 | A decode failure sends only its report, and so does a conversion failure. Success sends exactly the converted message. The command's result is that of the send. |
| Misc.RichMessageSentOnlyWhenValid | src/utils/misc.rs:24-49 | A rich message is sent iff the text decodes and converts, and the command fails iff the send fails. |
| Misc.BadColourIsReported | src/utils/misc.rs:31-48 | An unresolvable colour is reported with that colour's error. |
| Misc.ComplexMessageIsSent | src/utils/misc.rs:31-42 | The complex test message is sent as its converted builder. |
| Macros.ResultIntoResult | src/macros.rs:10-17 | `Ok(v)` gives `Ok(v)` and `Err(e)` gives `Err(Some(e))`. |
| Macros.OptionIntoResult | src/macros.rs:19-26 | `Some(v)` gives `Ok(v)` and `None` gives `Err(None)`. |
| Macros.IntoResultRoundTrips | src/macros.rs:10-26 | Both conversions lose nothing: the original comes back from the result. |
| Macros.BranchesBySource | src/macros.rs:10-26 | A `Result` only reaches the error handler and an `Option` only the none block. |
| Macros.UnwrapOrReturn | src/macros.rs:44-56 | `Ok(v)` continues with `v` and calls nothing. `Err(Some(e))` calls the error handler once with `e` and returns. `Err(None)` runs the none block once and returns. |
| Macros.UnwrapOrReturnWith | src/macros.rs:33-43 | The single handler is called with `Some(e)` or `None`, once, on return. |
| Macros.UnwrapOrReturnQuietly | src/macros.rs:30-32 | With no-op handlers, the macro continues with the value iff there is one. |
| Macros.AtMostOneHandlerCall | src/macros.rs:44-56 | At most one handler call, and one exactly when the enclosing function returns. |
| Version.DirtyMark | src/version_data.rs:22 | The mark is `*` iff the worktree is not clean, and empty otherwise. |
| Version.Display | src/version_data.rs:20-24 | The description's length is the fields' lengths plus 20 separator characters, plus 1 for the mark. |
| Version.DisplayEnds | src/version_data.rs:22 | The description begins with name, space, version and ends with timestamp, `)`. |
| Version.DirtyMarkFollowsCommit | src/version_data.rs:22 | Clean and changed builds differ only by the `*` right after the commit. |
| Version.DisplayShowsWorktreeState | src/version_data.rs:22 | Two builds that differ only in worktree state have different descriptions. |
| Text.ByteLenBounds | src/parsers/message.rs:142 | The byte length is at least the character count, and equal iff the text is ASCII. |
| Text.DecimalRoundTrip | src/utils/misc.rs:14 | A rendered id is a non-empty digit string without a leading zero, and it reads back as the id. |

## Left out

- JSON text: the json5 and serde_json grammars are external parsers. Decoding starts from a
  JSON value tree, and a syntax error arrives as a value.
- Schema decoding: when an input has several faults, serde may report a different one of them
  than the model. The model gathers the object's keys before decoding any value. Which inputs
  are accepted, and the decoded values, are the same.
- Schema decoding: floating-point JSON numbers are not modelled; no field here takes one.
- The colour name table: its values are the chat library's colour constants, which are outside
  this model; they are written out as constants.
- The chat library's builders are hash maps in the source. Here they are records holding the
  entries the conversions set.
- `prompt_for_message_part`: the race between the text prompt and the reaction prompt, its
  timeout and the message sends are left out. The winner is a parameter, and only the mapping of
  each branch's result is modelled. Custom emoji are a plain datatype.
- `GuildInfoTable`: the `RwLock` and concurrent access are left out, and the cache is modelled
  sequentially.
- `GuildInfoTable`: the SQL statements are replaced by a map from `guild_id` to `prefix`, with
  `guild_id` unique. The schema that makes it unique is not part of this model.
- `GuildInfoTable`: database faults are parameters. Unreachable library failures are not
  modelled: the `expect` on an insert that returns no row, and an update that returns no row
  for an existing guild.
- `GuildInfoStruct`'s `Display`, the `CustomCommands` pass-through (`src/database/queries.rs`
  from line 140) and logging are not modelled.
- EventHandling.CacheReady: the error it logs is not recorded; only its effect on the cache is.
- Misc.SendRichSerializedMessage: the report texts (which embed a debug rendering of the error)
  are modelled by the error value they report.
- The command handlers, bot setup, `src/utils/channel.rs`, `src/utils/guild.rs`, the
  network-bound parts of `src/utils/permissions.rs` and `build.rs` are not part of this model:
  they are network I/O and framework glue.
- Guild, channel and message ids are unbounded naturals in `Misc`; in `GuildInfo` they are
  64-bit, because the conversion to the signed `guild_id` column matters there.

## Findings

| source | as written | input that shows it | evidently intended | confidence | as-written member | corrected member |
|---|---|---|---|---|---|---|
| src/parsers/permissions.rs:40-48 | `len()` counts bytes, but `chars().nth(len - 2)` indexes characters, so a non-ASCII wildcard string looks at the wrong character | `"é.*"` is 4 bytes, so `nth(2)` is `*` rather than `.`, and the string is rejected | `"é.*"` parses to the wildcard over `é` | not executed | Permissions.NonAsciiWildcardRejected | Permissions.ParseAcceptances |
| src/parsers/permissions.rs:22-27 | the wildcard matcher reads the character at index `node.len()`, a byte count | the wildcard over `"é"` (2 bytes) reads `'x'` in `"é.x"` instead of `'.'` and does not match | the wildcard over `é` matches `é.x` | not executed | Permissions.NonAsciiWildcardMissesChild | Permissions.WildcardMatchesDottedExtensions |

The corrected definitions are `Permissions.ParsePermission` and `Permissions.Matches`, indexed by
character. `Permissions.ParseAgreesOnAscii` and `Permissions.MatchesAgreesOnAscii` show that they
agree with the as-written code on ASCII text. `RolePermissions.HasPermission` answers as the
source does, with the as-written matcher, because a guild's entries need not come from the
parser; `RolePermissions.GrantsAgreesOnAscii` shows its answer is the corrected one whenever
the table's nodes are ASCII, and `RolePermissions.NonAsciiWildcardRoleMissesChild` shows the
discrepancy at the level of roles.
The colour's byte-length check (`src/parsers/message.rs:142`) is modelled as written, with
`Text.ByteLen`.
