/**
 * The command-line arguments: the first (the program name) is skipped, `-d` or
 * `--debug` anywhere turns on diagnostics, and at most one other argument, the
 * file path, is accepted.
 */
module Arguments {
  import opened Syntax

  datatype Args = Args(filePath: Option<string>, debug: bool)

  predicate IsDebugFlag(arg: string) {
    arg == "-d" || arg == "--debug"
  }

  /** The arguments that are not the debug flag, in order. */
  function Positionals(args: seq<string>): (ps: seq<string>)
    ensures |ps| <= |args|
    decreases |args|
  {
    if args == [] then []
    else
      var last := args[|args| - 1];
      Positionals(args[..|args| - 1]) + (if IsDebugFlag(last) then [] else [last])
  }

  /** The arguments after the program name. */
  function Operands(args: seq<string>): seq<string> {
    if args == [] then [] else args[1..]
  }

  /** The positionals of a prefix are a prefix of the positionals. */
  lemma {:induction false} PositionalsOfPrefix(args: seq<string>, k: nat)
    requires k <= |args|
    ensures Positionals(args[..k]) <= Positionals(args)
    decreases |args| - k
  {
    if k < |args| {
      PositionalsOfPrefix(args[..|args| - 1], k);
      assert args[..|args| - 1][..k] == args[..k];
    } else {
      assert args[..k] == args;
    }
  }

  method Parse(args: seq<string>) returns (r: Result<Args>)
    ensures r.Err? <==> |Positionals(Operands(args))| >= 2
    ensures r.Err? ==> r.error == MultipleFilePaths
    ensures r.Ok? ==> r.value.debug == exists j :: 1 <= j < |args| && IsDebugFlag(args[j])
    ensures r.Ok? ==> (r.value.filePath ==
      if Positionals(Operands(args)) == [] then None else Some(Positionals(Operands(args))[0]))
  {
    var out := Args(None, false);
    if args == [] {
      return Ok(out);
    }
    var operands := args[1..];
    for i := 0 to |operands|
      invariant out.debug == exists j :: 1 <= j < i + 1 && IsDebugFlag(args[j])
      invariant |Positionals(operands[..i])| <= 1
      invariant out.filePath ==
        if Positionals(operands[..i]) == [] then None else Some(Positionals(operands[..i])[0])
    {
      var arg := operands[i];
      assert operands[..i + 1][..i] == operands[..i];
      if IsDebugFlag(arg) {
        out := out.(debug := true);
      } else {
        if out.filePath.Some? {
          PositionalsOfPrefix(operands, i + 1);
          return Err(MultipleFilePaths);
        }
        out := out.(filePath := Some(arg));
      }
    }
    assert operands[..|operands|] == operands;
    return Ok(out);
  }
}
