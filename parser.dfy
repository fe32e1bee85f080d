/**
 * The parsers as the editor runs them: each consumes characters from a shared,
 * forward-only stream, modelled as the position it reads next, which every call
 * takes and returns. Each is proved to agree with its grammar function.
 */
module Parser {
  import opened Syntax
  import opened Digits
  import opened Grammar

  /**
   * Consumes `$`, or a first digit and then every following digit while
   * remembering the offset of the last one; the covered run is read as a usize.
   */
  method ParseAddressToken(s: string, pos: nat) returns (p: Parsed<Option<AddressToken>>)
    requires pos <= |s|
    ensures p == TokenAt(s, pos)
  {
    if !(pos < |s| && (s[pos] == '$' || IsDigit(s[pos]))) {
      return Parsed(Ok(None), pos);
    }
    var begin := pos;
    var next := pos + 1;
    if s[begin] == '$' {
      return Parsed(Ok(Some(Dollar)), next);
    }
    var end := begin;
    while next < |s| && IsDigit(s[next])
      invariant begin <= end && end + 1 == next <= |s|
      invariant forall k :: begin <= k < next ==> IsDigit(s[k])
      decreases |s| - next
    {
      end := next;
      next := next + 1;
    }
    DigitRunEndIs(s, begin, next);
    var digits := s[begin..end + 1];
    var number := Value(digits);
    if number > USIZE_MAX {
      return Parsed(Err(FailedToParseNumericAddress), next);
    }
    return Parsed(Ok(Some(Number(number))), next);
  }

  /** A first token, then optionally a comma and a second token. */
  method ParseAddress(s: string, pos: nat) returns (p: Parsed<Option<Address>>)
    requires pos <= |s|
    ensures p == AddressAt(s, pos)
  {
    var first := ParseAddressToken(s, pos);
    if first.result.Err? || first.result.value.None? {
      return Parsed(if first.result.Err? then Err(first.result.error) else Ok(None), first.next);
    }
    var start := first.result.value.value;
    if first.next < |s| && s[first.next] == ',' {
      var second := ParseAddressToken(s, first.next + 1);
      match second.result
      case Err(e) =>
        p := Parsed(Err(e), second.next);
      case Ok(None) =>
        p := Parsed(Ok(Some(Single(start))), second.next);
      case Ok(Some(end)) =>
        p := Parsed(Ok(Some(Range(start, end))), second.next);
    } else {
      p := Parsed(Ok(Some(Single(start))), first.next);
    }
  }

  /** Takes the next character, if any, as the verb. */
  method ParseCommandToken(s: string, pos: nat) returns (p: Parsed<CommandToken>)
    requires pos <= |s|
    ensures p == CommandTokenAt(s, pos)
  {
    if pos == |s| {
      return Parsed(Ok(PrintAndSet), pos);
    }
    var c := s[pos];
    if c == 'p' {
      p := Parsed(Ok(Print), pos + 1);
    } else {
      p := Parsed(Err(UnknownCommand), pos + 1);
    }
  }

  /** Address, verb, and a check that the stream is exhausted. */
  method ParseCommandLine(input: string) returns (r: Result<Command>)
    ensures r == ParseCommand(input)
  {
    var address := ParseAddress(input, 0);
    if address.result.Err? {
      return Err(address.result.error);
    }
    var kind := ParseCommandToken(input, address.next);
    if kind.result.Err? {
      return Err(kind.result.error);
    }
    if kind.next < |input| {
      return Err(ExtraCharactersInStream);
    }
    return Ok(Command(address.result.value, kind.result.value));
  }
}
