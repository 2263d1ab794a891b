/** The error enums of src/structures/errors.rs, plus the one parse error of the permission parser. */
module Errors {

  /** The kind carried by Rust's `ParseIntError`. */
  datatype IntErrorKind = Empty | InvalidDigit | PosOverflow

  /** Why a textual JSON value did not fit the message schema. The JSON grammar itself is
      an external parser; `SyntaxError` stands for any diagnostic it produces. */
  datatype JsonError =
    | SyntaxError(diagnostic: string)
    | InvalidType(expected: string)
    | MissingField(field: string)
    | DuplicateField(field: string)
    | InvalidLength(length: nat)
    | NoVariantMatched(enumName: string)

  datatype ColourParseError =
    | InvalidColourHexLength(input: string)
    | InvalidColourHexValue(input: string, cause: IntErrorKind)
    | UnknownColourName(input: string)

  datatype ParseError =
    | ColourParseError(colour: ColourParseError)
    | InvalidNumber(input: string, cause: IntErrorKind)
    | InvalidJson(json: JsonError)

  /** Stand-in for `sqlx::Error`: the database library's failures are not modelled in detail. */
  datatype SqlxError = ConnectionFailed | UniqueViolation

  datatype DatabaseError = SqlxError(cause: SqlxError) | NothingDeleted

  /** Stand-in for `serenity::Error`, a transport failure of the chat library. */
  datatype SerenityFailure = HttpFailure(description: string)

  datatype BotstoneError =
    | ParseError(parse: ParseError)
    | DatabaseError(database: DatabaseError)
    | SerenityError(serenity: SerenityFailure)
    | Other(message: string)
    | ImpossibleError(source: BoxedError)

  /** The boxed `dyn Error` inside `ImpossibleError`: either one of the bot's own errors, or an
      error of the prompt library that the caller did not expect. */
  datatype BoxedError = Botstone(inner: BotstoneError) | PromptLibrary(description: string)

  /** `PermissionParseError` of src/parsers/permissions.rs:41. */
  datatype PermissionParseError = InvalidPermissionString(input: string)
}
