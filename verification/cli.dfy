/** `main`: the command line chooses the repository the menu works on. */
module Cli {

  /** Run the menu on a repository path, or print the usage line and exit
      with the given status. */
  datatype Action = RunMenuAt(path: string) | Usage(status: int)

  /** The arguments after the program name, with the current directory as
      a parameter: no argument means the current directory, one argument is
      the path, and more than one is a usage error with exit status 1. */
  function Dispatch(argv: seq<string>, cwd: string): (a: Action)
    ensures a.RunMenuAt? <==> |argv| <= 1
    ensures |argv| == 0 ==> a.path == cwd
    ensures |argv| == 1 ==> a.path == argv[0]
    ensures a.Usage? ==> a.status == 1
  {
    if |argv| == 1 then RunMenuAt(argv[0])
    else if |argv| == 0 then RunMenuAt(cwd)
    else Usage(1)
  }

  /** The path never depends on the current directory once one is given,
      and extra arguments are refused whatever they are. */
  lemma DispatchIgnores(argv: seq<string>, cwd: string, cwd': string)
    ensures |argv| == 1 ==> Dispatch(argv, cwd) == Dispatch(argv, cwd')
    ensures |argv| >= 2 ==> Dispatch(argv, cwd) == Dispatch(["", ""], cwd')
  {
  }
}
