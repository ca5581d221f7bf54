/**
 The argument vector `eval_attr` hands to the process runner. Which of the
 two forms is used depends on whether the installed Nix speaks the flakes
 dialect; that probe is made by the caller and enters here as a flag.
 */
module Invocation {

  /** The options that differ between the two dialects. */
  const DialectFlags: set<string> := {"--impure", "--experimental-features", "--expr"}

  /** The command line that evaluates `expr` and prints the result as JSON:
      with flakes, impure evaluation with the `nix-command` feature enabled
      and the expression passed after `--expr`; without, the expression
      passed directly. */
  function Command(expr: string, nixFlakes: bool): (argv: seq<string>)
    ensures |argv| == if nixFlakes then 8 else 4
    ensures argv[..3] == ["nix", "eval", "--json"]
    ensures argv[|argv| - 1] == expr
    ensures nixFlakes <==> "--impure" in argv[..|argv| - 1]
    ensures nixFlakes <==> "--experimental-features" in argv[..|argv| - 1]
    ensures nixFlakes <==> "--expr" in argv[..|argv| - 1]
    ensures nixFlakes ==> argv[3..7] == ["--impure", "--experimental-features", "nix-command", "--expr"]
  {
    if nixFlakes then
      var argv := ["nix", "eval", "--json", "--impure", "--experimental-features", "nix-command", "--expr", expr];
      assert argv[..7][3] == "--impure" && argv[..7][4] == "--experimental-features" && argv[..7][6] == "--expr";
      argv
    else
      ["nix", "eval", "--json", expr]
  }

  /** The dialect a command line was built for, read off its options. */
  function DialectOf(argv: seq<string>): bool {
    |argv| > 0 && "--impure" in argv[..|argv| - 1]
  }

  /** The dialect is recovered from the command line, and a command line
      for one dialect is never one for the other. */
  lemma DialectRecovered(expr: string, nixFlakes: bool)
    ensures DialectOf(Command(expr, nixFlakes)) == nixFlakes
    ensures Command(expr, nixFlakes) != Command(expr, !nixFlakes)
  {
  }

  /** When the expression is not itself one of the options, `--json` and the
      expression each occur exactly once, and the dialect options occur
      (each once) exactly when the flakes dialect is used. */
  lemma Occurrences(expr: string, nixFlakes: bool)
    requires |expr| > 0 && expr[0] != '-' && expr != "nix" && expr != "eval" && expr != "nix-command"
    ensures var argv := Command(expr, nixFlakes);
      && multiset(argv)["--json"] == 1
      && multiset(argv)[expr] == 1
      && forall f :: f in DialectFlags ==> multiset(argv)[f] == if nixFlakes then 1 else 0
  {
    var argv := Command(expr, nixFlakes);
    assert expr != "--json" && expr !in DialectFlags by {
      assert "--json"[0] == '-';
    }
  }
}
