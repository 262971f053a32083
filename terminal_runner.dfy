/** Launching npm packages through bunx or npx: recognising project-local
    shims, choosing the runner and building its command line. Paths are
    their lossy string form. */
module TerminalRunner {
  import opened Common

  datatype FallbackRunner = Bunx | Npx

  const UNIX_SHIM_DIR: string := "node_modules/.bin"
  const WINDOWS_SHIM_DIR: string := "node_modules\\.bin"

  /** `is_node_modules_bin`: the path runs through a `node_modules/.bin`
      directory, with either separator. */
  predicate IsNodeModulesBin(path: string)
  {
    Contains(path, UNIX_SHIM_DIR) || Contains(path, WINDOWS_SHIM_DIR)
  }

  /** Any path with a shim directory in it is recognised, whatever comes
      before or after and whichever separator it uses. */
  lemma ShimRecognised(before: string, after: string)
    ensures IsNodeModulesBin(before + UNIX_SHIM_DIR + after)
    ensures IsNodeModulesBin(before + WINDOWS_SHIM_DIR + after)
  {
    var u := before + UNIX_SHIM_DIR + after;
    assert OccursAt(u, UNIX_SHIM_DIR, |before|) by {
      assert u[|before|..|before| + |UNIX_SHIM_DIR|] == UNIX_SHIM_DIR;
    }
    var w := before + WINDOWS_SHIM_DIR + after;
    assert OccursAt(w, WINDOWS_SHIM_DIR, |before|) by {
      assert w[|before|..|before| + |WINDOWS_SHIM_DIR|] == WINDOWS_SHIM_DIR;
    }
  }

  /** `choose_fallback_runner`: a bunx that is not a local shim, else npx when
      available, else nothing. */
  function ChooseFallbackRunner(bunxPath: Option<string>, npxAvailable: bool): (r: Option<FallbackRunner>)
    ensures r == Some(Bunx) <==> bunxPath.Some? && !IsNodeModulesBin(bunxPath.value)
    ensures r == Some(Npx) <==> !(bunxPath.Some? && !IsNodeModulesBin(bunxPath.value)) && npxAvailable
    ensures r.None? <==> !(bunxPath.Some? && !IsNodeModulesBin(bunxPath.value)) && !npxAvailable
  {
    if bunxPath.Some? && !IsNodeModulesBin(bunxPath.value) then Some(Bunx)
    else if npxAvailable then Some(Npx)
    else None
  }

  /** `build_fallback_launch`: the executable (the resolved path or the bare
      runner name) and the base arguments. */
  function BuildFallbackLaunch(runner: FallbackRunner, package: string, bunxPath: Option<string>, npxPath: Option<string>): (r: (string, seq<string>))
    ensures r.1 != [] && r.1[|r.1| - 1] == package && |r.1| <= 2
    ensures package != "--yes" ==> ("--yes" in r.1 <==> runner == Npx)
    ensures r.0 == if runner == Bunx then bunxPath.GetOr("bunx") else npxPath.GetOr("npx")
  {
    match runner
    case Bunx => (bunxPath.GetOr("bunx"), [package])
    case Npx => (npxPath.GetOr("npx"), ["--yes", package])
  }

  /** Whatever the runner, the package is the last argument, and "--yes" is
      passed exactly when the runner is npx. */
  lemma LaunchEndsWithPackage(runner: FallbackRunner, package: string, bunxPath: Option<string>, npxPath: Option<string>)
    requires package != "--yes"
    ensures var (_, args) := BuildFallbackLaunch(runner, package, bunxPath, npxPath);
            args != [] && args[|args| - 1] == package && ("--yes" in args <==> runner == Npx)
  {
  }
}
