/** The values the command parser produces and the errors every stage can report. */
module Syntax {

  datatype Option<+T> = None | Some(value: T)

  /** The error messages of the editor, one constructor per message. */
  datatype Error =
    | FailedToParseNumericAddress  // a digit run that does not fit a usize
    | UnknownCommand               // a verb character other than `p`
    | ExtraCharactersInStream      // input left over after the verb
    | OutOfBounds                  // an address endpoint outside 1..=number of lines
    | MultipleFilePaths            // a second positional command-line argument

  datatype Result<+T> = Ok(value: T) | Err(error: Error)

  /** The largest value of a usize on a 64-bit target. */
  const USIZE_MAX: nat := 0xFFFF_FFFF_FFFF_FFFF

  /** `$` (the last line) or a literal 1-based line number. */
  datatype AddressToken = Dollar | Number(n: nat)

  datatype Address =
    | Single(token: AddressToken)
    | Range(start: AddressToken, end: AddressToken)

  /** The two verbs: an explicit `p`, and the bare line (no verb at all). */
  datatype CommandToken = Print | PrintAndSet

  datatype Command = Command(address: Option<Address>, kind: CommandToken)

  /** A number token is one the parser can produce: it fits a usize. */
  predicate RepresentableToken(t: AddressToken) {
    t.Number? ==> t.n <= USIZE_MAX
  }

  predicate Representable(c: Command) {
    match c.address
    case None => true
    case Some(Single(t)) => RepresentableToken(t)
    case Some(Range(a, b)) => RepresentableToken(a) && RepresentableToken(b)
  }
}
