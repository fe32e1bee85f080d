/**
 * The command-line grammar `[token[,token]][p]`, token := `$` | digit+, as pure
 * functions over the input and a position that only moves forward. Each
 * function returns what its parser yields and where the stream stands after it.
 */
module Grammar {
  import opened Syntax
  import opened Digits

  datatype Parsed<T> = Parsed(result: Result<T>, next: nat)

  /** The end of the maximal run of digits starting at `i`. */
  function DigitRunEnd(s: string, i: nat): (j: nat)
    requires i <= |s|
    ensures i <= j <= |s|
    ensures forall k :: i <= k < j ==> IsDigit(s[k])
    ensures j == |s| || !IsDigit(s[j])
    decreases |s| - i
  {
    if i < |s| && IsDigit(s[i]) then DigitRunEnd(s, i + 1) else i
  }

  /** An address token: `$`, a maximal digit run, or nothing (consuming nothing). */
  function TokenAt(s: string, i: nat): (p: Parsed<Option<AddressToken>>)
    requires i <= |s|
    ensures i <= p.next <= |s|
    ensures p.result == Ok(None) <==> p.next == i
  {
    if i < |s| && s[i] == '$' then
      Parsed(Ok(Some(Dollar)), i + 1)
    else if i < |s| && IsDigit(s[i]) then
      var j := DigitRunEnd(s, i);
      var v := Value(s[i..j]);
      if v <= USIZE_MAX then Parsed(Ok(Some(Number(v))), j)
      else Parsed(Err(FailedToParseNumericAddress), j)
    else
      Parsed(Ok(None), i)
  }

  /** `token (',' token?)?`; a comma with no token after it is consumed and ignored. */
  function AddressAt(s: string, i: nat): (p: Parsed<Option<Address>>)
    requires i <= |s|
    ensures i <= p.next <= |s|
    ensures p.result == Ok(None) <==> p.next == i
  {
    var first := TokenAt(s, i);
    match first.result
    case Err(e) => Parsed(Err(e), first.next)
    case Ok(None) => Parsed(Ok(None), first.next)
    case Ok(Some(start)) =>
      if first.next < |s| && s[first.next] == ',' then
        var second := TokenAt(s, first.next + 1);
        match second.result
        case Err(e) => Parsed(Err(e), second.next)
        case Ok(None) => Parsed(Ok(Some(Single(start))), second.next)
        case Ok(Some(end)) => Parsed(Ok(Some(Range(start, end))), second.next)
      else
        Parsed(Ok(Some(Single(start))), first.next)
  }

  /** The verb: end of input is the bare line, `p` is print, anything else is unknown. */
  function CommandTokenAt(s: string, i: nat): (p: Parsed<CommandToken>)
    requires i <= |s|
    ensures p.result.Ok? ==> (p.next == i <==> p.result.value == PrintAndSet)
  {
    if i == |s| then Parsed(Ok(PrintAndSet), i)
    else if s[i] == 'p' then Parsed(Ok(Print), i + 1)
    else Parsed(Err(UnknownCommand), i + 1)
  }

  /** A whole command line: address, verb, and nothing left over. */
  function ParseCommand(s: string): (r: Result<Command>)
    ensures r.Ok? ==> Representable(r.value)
    ensures r.Ok? ==> (r.value.kind == Print <==> |s| > 0 && s[|s| - 1] == 'p')
  {
    var a := AddressAt(s, 0);
    match a.result
    case Err(e) => Err(e)
    case Ok(address) =>
      var k := CommandTokenAt(s, a.next);
      match k.result
      case Err(e) => Err(e)
      case Ok(kind) =>
        if k.next == |s| then Ok(Command(address, kind)) else Err(ExtraCharactersInStream)
  }

  // ---------------------------------------------------------------------------
  // Rendering: the canonical text of a command, the partner of ParseCommand.

  function RenderToken(t: AddressToken): (ds: string)
    ensures ds != []
  {
    match t
    case Dollar => "$"
    case Number(n) => Decimal(n)
  }

  function RenderAddress(a: Option<Address>): string {
    match a
    case None => ""
    case Some(Single(t)) => RenderToken(t)
    case Some(Range(b, e)) => RenderToken(b) + "," + RenderToken(e)
  }

  function Render(c: Command): string {
    RenderAddress(c.address) + (if c.kind == Print then "p" else "")
  }

  // ---------------------------------------------------------------------------
  // Address tokens.

  /** Where a digit run ends, the maximal run of the grammar ends too. */
  lemma DigitRunEndIs(s: string, i: nat, j: nat)
    requires i <= j <= |s|
    requires forall k :: i <= k < j ==> IsDigit(s[k])
    requires j == |s| || !IsDigit(s[j])
    ensures DigitRunEnd(s, i) == j
  {
  }

  /**
   * A digit run embedded between `pre` and a non-digit (or the end) is read as
   * its value, with every digit consumed, or rejected when it exceeds a usize.
   */
  lemma {:induction false} DigitRunToken(pre: string, ds: string, post: string)
    requires ds != [] && AllDigits(ds)
    requires post == [] || !IsDigit(post[0])
    ensures TokenAt(pre + ds + post, |pre|) ==
      Parsed(if Value(ds) <= USIZE_MAX then Ok(Some(Number(Value(ds))))
             else Err(FailedToParseNumericAddress), |pre| + |ds|)
  {
    var s := pre + ds + post;
    var j := |pre| + |ds|;
    assert forall k :: |pre| <= k < j ==> s[k] == ds[k - |pre|];
    assert j < |s| ==> s[j] == post[0];
    DigitRunEndIs(s, |pre|, j);
    assert s[|pre|..j] == ds;
  }

  /** `$` is a token on its own: it consumes exactly one character, whatever follows. */
  lemma DollarToken(s: string, i: nat)
    requires i < |s| && s[i] == '$'
    ensures TokenAt(s, i) == Parsed(Ok(Some(Dollar)), i + 1)
  {
  }

  /** A rendered token is read back as itself; a number needs a non-digit (or the end) after it. */
  lemma {:induction false} RenderedToken(pre: string, t: AddressToken, post: string)
    requires RepresentableToken(t)
    requires t.Number? ==> post == [] || !IsDigit(post[0])
    ensures TokenAt(pre + RenderToken(t) + post, |pre|) ==
      Parsed(Ok(Some(t)), |pre| + |RenderToken(t)|)
  {
    match t
    case Dollar =>
      assert (pre + RenderToken(t) + post)[|pre|] == '$';
    case Number(n) =>
      DigitRunToken(pre, Decimal(n), post);
      ValueOfDecimal(n);
  }

  /** Leading zeros are accepted: `007` reads as 7, and `0` as 0. */
  lemma {:induction false} ZeroPaddedToken(pre: string, k: nat, n: nat, post: string)
    requires n <= USIZE_MAX
    requires post == [] || !IsDigit(post[0])
    ensures TokenAt(pre + (Zeros(k) + Decimal(n)) + post, |pre|) ==
      Parsed(Ok(Some(Number(n))), |pre| + k + |Decimal(n)|)
  {
    LeadingZeros(k, Decimal(n));
    ValueOfDecimal(n);
    DigitRunToken(pre, Zeros(k) + Decimal(n), post);
  }

  /** A token neither `$` nor a digit yields no token and leaves the position alone. */
  lemma NoToken(s: string, i: nat)
    requires i <= |s|
    requires i == |s| || (s[i] != '$' && !IsDigit(s[i]))
    ensures TokenAt(s, i) == Parsed(Ok(None), i)
    ensures AddressAt(s, i) == Parsed(Ok(None), i)
  {
  }

  // ---------------------------------------------------------------------------
  // Addresses.

  /**
   * The shapes of an address after a first token `t` ending at `j`: without a
   * comma it is `Single(t)` and stops at `j`; a comma and a second token make a
   * range ending where that token ends; a comma alone is consumed and ignored.
   */
  lemma AddressShapes(s: string, i: nat)
    requires i <= |s|
    requires TokenAt(s, i).result.Ok? && TokenAt(s, i).result.value.Some?
    ensures var t := TokenAt(s, i).result.value.value;
      var j := TokenAt(s, i).next;
      && (!(j < |s| && s[j] == ',') ==> AddressAt(s, i) == Parsed(Ok(Some(Single(t))), j))
      && (j < |s| && s[j] == ',' ==>
            var u := TokenAt(s, j + 1);
            && (u.result.Err? ==> AddressAt(s, i).result == Err(u.result.error))
            && (u.result == Ok(None) ==> AddressAt(s, i) == Parsed(Ok(Some(Single(t))), j + 1))
            && (u.result.Ok? && u.result.value.Some? ==>
                  AddressAt(s, i) == Parsed(Ok(Some(Range(t, u.result.value.value))), u.next)))
  {
  }

  /** A comma not followed by a token degrades the address to its first token. */
  lemma TrailingComma(s: string, i: nat)
    requires i <= |s|
    requires TokenAt(s, i).result.Ok? && TokenAt(s, i).result.value.Some?
    requires TokenAt(s, i).next < |s| && s[TokenAt(s, i).next] == ','
    requires TokenAt(s, i).next + 1 == |s| ||
             (s[TokenAt(s, i).next + 1] != '$' && !IsDigit(s[TokenAt(s, i).next + 1]))
    ensures AddressAt(s, i) ==
      Parsed(Ok(Some(Single(TokenAt(s, i).result.value.value))), TokenAt(s, i).next + 1)
  {
  }

  // ---------------------------------------------------------------------------
  // Whole command lines.

  /** A rendered single-token address followed by its verb is read back as itself. */
  lemma {:induction false} RenderedSingle(t: AddressToken, verb: string)
    requires RepresentableToken(t)
    requires verb == [] || verb == "p"
    ensures AddressAt(RenderToken(t) + verb, 0) == Parsed(Ok(Some(Single(t))), |RenderToken(t)|)
  {
    var s := RenderToken(t) + verb;
    assert s == [] + RenderToken(t) + verb;
    RenderedToken([], t, verb);
    var first := TokenAt(s, 0);
    assert first == Parsed(Ok(Some(t)), |RenderToken(t)|);
    assert !(first.next < |s| && s[first.next] == ',');
  }

  /** A rendered range followed by its verb is read back as itself. */
  lemma {:induction false} RenderedRange(b: AddressToken, e: AddressToken, verb: string)
    requires RepresentableToken(b) && RepresentableToken(e)
    requires verb == [] || verb == "p"
    ensures AddressAt(RenderToken(b) + "," + RenderToken(e) + verb, 0) ==
      Parsed(Ok(Some(Range(b, e))), |RenderToken(b)| + 1 + |RenderToken(e)|)
  {
    var rb := RenderToken(b);
    var re := RenderToken(e);
    var s := rb + "," + re + verb;
    assert s == [] + rb + ("," + re + verb);
    RenderedToken([], b, "," + re + verb);
    var first := TokenAt(s, 0);
    assert first == Parsed(Ok(Some(b)), |rb|);
    assert s[|rb|] == ',';
    assert s == (rb + ",") + re + verb;
    RenderedToken(rb + ",", e, verb);
    var second := TokenAt(s, |rb| + 1);
    assert second == Parsed(Ok(Some(e)), |rb| + 1 + |re|);
  }

  /** The address part of a rendered command, followed by its verb, is read back as itself. */
  lemma RenderedAddress(a: Option<Address>, verb: string)
    requires Representable(Command(a, Print))
    requires verb == [] || verb == "p"
    ensures AddressAt(RenderAddress(a) + verb, 0) == Parsed(Ok(a), |RenderAddress(a)|)
  {
    match a
    case None =>
      NoToken(verb, 0);
    case Some(Single(t)) =>
      RenderedSingle(t, verb);
    case Some(Range(b, e)) =>
      RenderedRange(b, e, verb);
  }

  /** Parsing the rendering of any command a parse can produce gives that command back. */
  lemma {:induction false} RenderRoundTrip(c: Command)
    requires Representable(c)
    ensures ParseCommand(Render(c)) == Ok(c)
  {
    var verb: string := if c.kind == Print then "p" else "";
    var s := Render(c);
    assert s == RenderAddress(c.address) + verb;
    RenderedAddress(c.address, verb);
    var k := CommandTokenAt(s, |RenderAddress(c.address)|);
    assert k == Parsed(Ok(c.kind), |s|);
  }

  /** Every command a parse produces is canonical: rendering it and parsing again is stable. */
  lemma ParseThenRender(s: string)
    requires ParseCommand(s).Ok?
    ensures ParseCommand(Render(ParseCommand(s).value)) == ParseCommand(s)
  {
    RenderRoundTrip(ParseCommand(s).value);
  }

  /** `<n>p` is a print of line n, for every n a usize holds. */
  lemma PrintNumberRoundTrip(n: nat)
    requires n <= USIZE_MAX
    ensures ParseCommand(Decimal(n) + "p") == Ok(Command(Some(Single(Number(n))), Print))
  {
    RenderRoundTrip(Command(Some(Single(Number(n))), Print));
  }

  /** `<a>,<b>` is a bare-line command over the range a..b. */
  lemma RangeRoundTrip(a: nat, b: nat)
    requires a <= USIZE_MAX && b <= USIZE_MAX
    ensures ParseCommand(Decimal(a) + "," + Decimal(b)) ==
      Ok(Command(Some(Range(Number(a), Number(b))), PrintAndSet))
  {
    var c := Command(Some(Range(Number(a), Number(b))), PrintAndSet);
    RenderRoundTrip(c);
    assert Render(c) == Decimal(a) + "," + Decimal(b);
  }

  /** A number beyond a usize is rejected, not truncated. */
  lemma {:induction false} OverflowRejected(n: nat)
    requires n > USIZE_MAX
    ensures ParseCommand(Decimal(n) + "p") == Err(FailedToParseNumericAddress)
  {
    assert Decimal(n) + "p" == [] + Decimal(n) + "p";
    DigitRunToken([], Decimal(n), "p");
    ValueOfDecimal(n);
  }

  /** Zero-padded numbers parse to the same command as the unpadded ones. */
  lemma {:induction false} ZeroPaddedCommand(k: nat, n: nat)
    requires n <= USIZE_MAX
    ensures ParseCommand(Zeros(k) + Decimal(n) + "p") == Ok(Command(Some(Single(Number(n))), Print))
  {
    ZeroPaddedToken([], k, n, "p");
    assert [] + (Zeros(k) + Decimal(n)) + "p" == Zeros(k) + Decimal(n) + "p";
  }

  /** A line that is all address (possibly none) is a bare-line command over that address. */
  lemma BareLineParses(s: string)
    requires AddressAt(s, 0).result.Ok? && AddressAt(s, 0).next == |s|
    ensures ParseCommand(s) == Ok(Command(AddressAt(s, 0).result.value, PrintAndSet))
  {
  }

  /** A line that is an address (possibly none) followed by a single `p` is a print of that address. */
  lemma PrintParses(s: string)
    requires AddressAt(s, 0).result.Ok? && AddressAt(s, 0).next + 1 == |s|
    requires s[|s| - 1] == 'p'
    ensures ParseCommand(s) == Ok(Command(AddressAt(s, 0).result.value, Print))
  {
  }

  /** A verb other than `p` after the address is an unknown command: `$5`, `,p`, `x`. */
  lemma UnknownVerb(s: string)
    requires AddressAt(s, 0).result.Ok?
    requires AddressAt(s, 0).next < |s| && s[AddressAt(s, 0).next] != 'p'
    ensures ParseCommand(s) == Err(UnknownCommand)
  {
  }

  /** Anything after the `p` is rejected. */
  lemma TrailingAfterPrint(s: string)
    requires AddressAt(s, 0).result.Ok?
    requires AddressAt(s, 0).next + 1 < |s| && s[AddressAt(s, 0).next] == 'p'
    ensures ParseCommand(s) == Err(ExtraCharactersInStream)
  {
  }

  /** After `$` a digit is not part of the address: it is read as the verb. */
  lemma DollarThenDigit()
    ensures ParseCommand("$5") == Err(UnknownCommand)
  {
  }

  /** A comma with no token before it is not an address, so it is read as the verb. */
  lemma LeadingComma()
    ensures ParseCommand(",p") == Err(UnknownCommand)
  {
  }

  lemma DoublePrint()
    ensures ParseCommand("1pp") == Err(ExtraCharactersInStream)
  {
  }

  lemma TrailingCommaLine()
    ensures ParseCommand("5,") == Ok(Command(Some(Single(Number(5))), PrintAndSet))
  {
  }
}
