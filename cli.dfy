/** The start-up logic of packages/proxy/src/index.ts: the arguments after the first
    "--" name the MCP server to wrap, and the proxy leaves with that server's exit code.
    Starting the servers and writing to stderr are left out. */
module Cli {
  import opened Wrappers

  const Separator: string := "--"

  /** `indexOf`: where `x` first occurs in `xs`, or -1. */
  function IndexOf(xs: seq<string>, x: string): (r: int)
    ensures -1 <= r < |xs|
    ensures r == -1 <==> x !in xs
    ensures r >= 0 ==> xs[r] == x && x !in xs[..r]
  {
    if xs == [] then -1
    else if xs[0] == x then 0
    else
      var r := IndexOf(xs[1..], x);
      assert xs == [xs[0]] + xs[1..];
      if r == -1 then -1
      else
        assert xs[1..][..r] == xs[1..r + 1];
        assert xs[..r + 1] == [xs[0]] + xs[1..r + 1];
        r + 1
  }

  /** `process.argv.slice(2)`: the arguments after the node binary and the script. */
  function RawArgs(argv: seq<string>): seq<string> {
    if |argv| <= 2 then [] else argv[2..]
  }

  /** `childArgs`: what follows the first "--", or every argument when there is none. */
  function ChildArgs(rawArgs: seq<string>): seq<string> {
    var separatorIndex := IndexOf(rawArgs, Separator);
    if separatorIndex >= 0 then rawArgs[separatorIndex + 1..] else rawArgs
  }

  /** How `main` goes on: print the usage and exit with 1, or spawn `command` with
      `args`. */
  datatype Startup = Usage(exitCode: int) | Launch(command: string, args: seq<string>)

  function StartupOf(argv: seq<string>): Startup {
    var childArgs := ChildArgs(RawArgs(argv));
    if |childArgs| == 0 then Usage(1) else Launch(childArgs[0], childArgs[1..])
  }

  /** `code ?? 1`: the child's exit code, and 1 when it was killed by a signal. The
      proxy reports success exactly when the child did. */
  function ExitCode(code: Option<int>): (r: int)
    ensures code.Some? ==> r == code.value
    ensures code.None? ==> r == 1
    ensures r == 0 <==> code == Some(0)
  {
    if code.Some? then code.value else 1
  }

  /** The arguments split at the first "--": the part before holds no "--", and the
      child gets everything after it unchanged, later "--" tokens included; with no
      "--" the child gets every argument. */
  lemma ChildArgsSplit(rawArgs: seq<string>)
    ensures Separator in rawArgs ==>
      exists before :: Separator !in before && rawArgs == before + [Separator] + ChildArgs(rawArgs)
    ensures Separator !in rawArgs ==> ChildArgs(rawArgs) == rawArgs
  {
    var i := IndexOf(rawArgs, Separator);
    if i >= 0 {
      var before := rawArgs[..i];
      assert rawArgs == before + [Separator] + rawArgs[i + 1..];
    }
  }

  /** Splitting is determined by the first "--" alone: whatever comes after it reaches
      the child verbatim. */
  lemma FirstSeparatorWins(before: seq<string>, after: seq<string>)
    requires Separator !in before
    ensures ChildArgs(before + [Separator] + after) == after
  {
    var xs := before + [Separator] + after;
    var i := IndexOf(xs, Separator);
    assert xs[|before|] == Separator;
    assert xs[..|before|] == before;
    assert xs[|before| + 1..] == after;
  }

  /** The usage is printed exactly when nothing follows the separator; otherwise the
      command is the first child argument and the rest are its arguments. */
  lemma StartupSplitsChildArgs(argv: seq<string>)
    ensures StartupOf(argv).Usage? <==> ChildArgs(RawArgs(argv)) == []
    ensures StartupOf(argv).Usage? ==> StartupOf(argv).exitCode == 1
    ensures StartupOf(argv).Launch? ==>
      [StartupOf(argv).command] + StartupOf(argv).args == ChildArgs(RawArgs(argv))
  {
    var childArgs := ChildArgs(RawArgs(argv));
    if |childArgs| > 0 {
      assert childArgs == [childArgs[0]] + childArgs[1..];
    }
  }
}
