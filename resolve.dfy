/**
 * Address resolution: a parsed command, the number of lines and the cursor give
 * a 1-based inclusive pair of line numbers, accepted only when both endpoints
 * name an existing line. The order of the endpoints is not checked.
 */
module Resolve {
  import opened Syntax

  datatype LineRange = LineRange(start: nat, end: nat)

  /**
   * The line a token names. It is 0, which no line has, only for a literal 0 or
   * for `$` on an empty buffer; a parsed token on a buffer a usize can count
   * stays within a usize.
   */
  function ResolveToken(t: AddressToken, lineCount: nat): (n: nat)
    ensures n == 0 <==> t == Number(0) || (t == Dollar && lineCount == 0)
    ensures RepresentableToken(t) && lineCount <= USIZE_MAX ==> n <= USIZE_MAX
  {
    match t
    case Dollar => lineCount
    case Number(n) => n
  }

  /** The endpoints before validation: defaults from the cursor, or the explicit tokens. */
  function Endpoints(c: Command, lineCount: nat, current: nat): LineRange
  {
    match c.address
    case None =>
      if c.kind == Print then LineRange(current, current) else LineRange(current + 1, current + 1)
    case Some(Single(t)) =>
      var n := ResolveToken(t, lineCount);
      LineRange(n, n)
    case Some(Range(b, e)) =>
      LineRange(ResolveToken(b, lineCount), ResolveToken(e, lineCount))
  }

  predicate InBounds(address: nat, lineCount: nat) {
    address != 0 && address <= lineCount
  }

  /** Validates the endpoints; an accepted range only names lines that exist. */
  function ResolveAddress(c: Command, lineCount: nat, current: nat): (r: Result<LineRange>)
    ensures r.Ok? ==> 1 <= r.value.start <= lineCount && 1 <= r.value.end <= lineCount
  {
    var range := Endpoints(c, lineCount, current);
    if InBounds(range.start, lineCount) && InBounds(range.end, lineCount) then Ok(range)
    else Err(OutOfBounds)
  }

  /**
   * Without an address, `p` resolves to the cursor line and the bare line to the
   * line after it, each accepted exactly when that line exists.
   */
  lemma ResolveUnaddressed(lineCount: nat, current: nat)
    ensures ResolveAddress(Command(None, Print), lineCount, current) ==
      if 1 <= current <= lineCount then Ok(LineRange(current, current)) else Err(OutOfBounds)
    ensures ResolveAddress(Command(None, PrintAndSet), lineCount, current) ==
      if current < lineCount then Ok(LineRange(current + 1, current + 1)) else Err(OutOfBounds)
  {
  }

  /**
   * Whatever the verb and the cursor, `$` resolves to the last line, accepted
   * when the buffer is not empty, and `n` to line n, accepted when it exists.
   */
  lemma ResolveSingle(n: nat, k: CommandToken, lineCount: nat, current: nat)
    ensures ResolveAddress(Command(Some(Single(Dollar)), k), lineCount, current) ==
      if lineCount >= 1 then Ok(LineRange(lineCount, lineCount)) else Err(OutOfBounds)
    ensures ResolveAddress(Command(Some(Single(Number(n))), k), lineCount, current) ==
      if 1 <= n <= lineCount then Ok(LineRange(n, n)) else Err(OutOfBounds)
  {
  }

  /**
   * A range resolves each of its tokens on its own (`$` to the last line, `n` to
   * n), whatever the verb and the cursor, and is accepted exactly when both
   * lines exist, in either order.
   */
  lemma ResolveRange(b: AddressToken, e: AddressToken, k: CommandToken, lineCount: nat, current: nat)
    ensures var x := if b == Dollar then lineCount else b.n;
      var y := if e == Dollar then lineCount else e.n;
      ResolveAddress(Command(Some(Range(b, e)), k), lineCount, current) ==
        if 1 <= x <= lineCount && 1 <= y <= lineCount then Ok(LineRange(x, y)) else Err(OutOfBounds)
  {
  }

  /** On an empty buffer every command is out of bounds, `$` included. */
  lemma EmptyBufferRejects(c: Command, current: nat)
    ensures ResolveAddress(c, 0, current) == Err(OutOfBounds)
  {
  }

  /** Right after loading, the cursor is on the last line, so a bare line runs past the end. */
  lemma BareLineAfterLoadRejected(lineCount: nat)
    ensures ResolveAddress(Command(None, PrintAndSet), lineCount, lineCount) == Err(OutOfBounds)
  {
  }

  /** A reversed range passes validation when both of its endpoints exist. */
  lemma ReversedRangeAccepted(a: nat, b: nat, k: CommandToken, lineCount: nat, current: nat)
    requires 1 <= b < a <= lineCount
    ensures ResolveAddress(Command(Some(Range(Number(a), Number(b))), k), lineCount, current) ==
      Ok(LineRange(a, b))
  {
  }
}
