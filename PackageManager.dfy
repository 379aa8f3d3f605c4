/** The supported package managers and the commands shown or run for them. */
module PackageManager {
  import opened Wrappers
  import opened Strings

  const PackageManagers: seq<string> := ["pnpm", "npm", "yarn", "bun"]

  /** `list.find((x) => x === v)` */
  function Find(list: seq<string>, v: string): (r: Option<string>)
    ensures r.Some? <==> v in list
    ensures r.Some? ==> r.value == v
  {
    if |list| == 0 then None
    else if list[0] == v then Some(list[0])
    else Find(list[1..], v)
  }

  /** `normalizePackageManager`: the trimmed, lower-cased input when it names
      a supported manager, the first of them otherwise. */
  function NormalizePackageManager(input: string): (r: string)
    ensures r in PackageManagers
    ensures Canonical(input) in PackageManagers ==> r == Canonical(input)
    ensures Canonical(input) !in PackageManagers ==> r == PackageManagers[0]
  {
    var value := Canonical(input);
    Find(PackageManagers, value).GetOr("pnpm")
  }

  lemma CanonicalOfManager(pm: string)
    requires pm in PackageManagers
    ensures Canonical(pm) == pm
  {
    CanonicalOfPlain(pm);
  }

  /** A normalised manager normalises to itself. */
  lemma NormalizePackageManagerIdempotent(input: string)
    ensures NormalizePackageManager(NormalizePackageManager(input)) == NormalizePackageManager(input)
  {
    CanonicalOfManager(NormalizePackageManager(input));
  }

  /** `getInstallInstruction`: yarn's special case gives the same text as
      every other manager. */
  function GetInstallInstruction(packageManager: string): (r: string)
    ensures r == packageManager + " install"
  {
    if packageManager == "yarn" then "yarn install" else packageManager + " install"
  }

  /** `getDevInstruction`: npm and bun need `run`, the others do not. */
  function GetDevInstruction(packageManager: string): (r: string)
    ensures packageManager in {"npm", "bun"} ==> r == packageManager + " run dev"
    ensures packageManager !in {"npm", "bun"} ==> r == packageManager + " dev"
  {
    if packageManager == "npm" then "npm run dev"
    else if packageManager == "bun" then "bun run dev"
    else packageManager + " dev"
  }

  /** The command line `installDependencies` runs: every manager, yarn
      included, gets the single argument `install`. */
  method InstallCommand(packageManager: string) returns (command: string, args: seq<string>)
    ensures command == packageManager
    ensures args == ["install"]
  {
    command := packageManager;
    args := if packageManager == "yarn" then [] else if packageManager == "bun" then ["install"] else ["install"];
    if packageManager == "yarn" {
      args := args + ["install"];
    }
  }
}
