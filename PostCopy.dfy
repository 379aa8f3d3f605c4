/** The edits applied to the destination after the copy: ignore file,
    Changesets directory, README, scaffold-only files and the pnpm lockfile. */
module PostCopy {
  import opened Wrappers
  import opened FileTree
  import CopyFilter
  import PackageJson
  import PackageName

  /** `DEFAULT_GITIGNORE` */
  const DefaultGitignore: string := @"# See https://help.github.com/articles/ignoring-files/ for more about ignoring files.

# dependencies
/node_modules
/.pnp
.pnp.*
.yarn/*
!.yarn/patches
!.yarn/plugins
!.yarn/releases
!.yarn/versions

# testing
/coverage

# next.js
/.next/
/out/

# production
/build

# misc
.DS_Store
*.pem

# debug
npm-debug.log*
yarn-debug.log*
yarn-error.log*
.pnpm-debug.log*

# env files
.env*
!.env.example

# vercel
.vercel

# typescript
*.tsbuildinfo
next-env.d.ts
"

  const Gitignore: Path := [".gitignore"]
  const ChangesetDir: Path := [".changeset"]
  const Readme: Path := ["README.md"]
  const License: Path := ["LICENSE"]
  const Changelog: Path := ["CHANGELOG.md"]
  const ScriptsDir: Path := ["scripts"]
  const PnpmLock: Path := ["pnpm-lock.yaml"]

  /** No two of the top-level names the edits touch lie one under the other. */
  lemma NamesApart()
    ensures !Under(ChangesetDir, Gitignore) && !Under(ChangesetDir, Readme)
    ensures !Under(ChangesetDir, ScriptsDir) && !Under(ChangesetDir, PnpmLock)
    ensures !Under(License, Gitignore) && !Under(Changelog, Gitignore) && !Under(ScriptsDir, Gitignore)
    ensures !Under(License, PnpmLock) && !Under(Changelog, PnpmLock) && !Under(ScriptsDir, PnpmLock)
    ensures !Under(CopyFilter.GeneratorScript, Gitignore) && !Under(CopyFilter.GeneratorScript, PnpmLock)
    ensures Readme != Gitignore && ScriptsDir != Gitignore && PnpmLock != Gitignore
    ensures ScriptsDir != Readme && PnpmLock != Readme
  {
    UnderSingleton(".changeset", Gitignore);
    UnderSingleton(".changeset", Readme);
    UnderSingleton(".changeset", ScriptsDir);
    UnderSingleton(".changeset", PnpmLock);
    UnderSingleton("LICENSE", Gitignore);
    UnderSingleton("LICENSE", PnpmLock);
    UnderSingleton("CHANGELOG.md", Gitignore);
    UnderSingleton("CHANGELOG.md", PnpmLock);
    UnderSingleton("scripts", Gitignore);
    UnderSingleton("scripts", PnpmLock);
    assert ".changeset"[1] != ".gitignore"[1];
    assert ".changeset"[0] != "README.md"[0] && ".changeset"[0] != "scripts"[0] && ".changeset"[0] != "pnpm-lock.yaml"[0];
    assert "LICENSE"[0] != ".gitignore"[0] && "LICENSE"[0] != "pnpm-lock.yaml"[0];
    assert "CHANGELOG.md"[0] != ".gitignore"[0] && "CHANGELOG.md"[0] != "pnpm-lock.yaml"[0];
    assert "scripts"[0] != ".gitignore"[0] && "scripts"[0] != "pnpm-lock.yaml"[0];
    assert "README.md"[0] != ".gitignore"[0] && "scripts"[0] != "README.md"[0] && "pnpm-lock.yaml"[0] != "README.md"[0];
    assert Readme[0] != Gitignore[0] && ScriptsDir[0] != Gitignore[0] && PnpmLock[0] != Gitignore[0];
    assert ScriptsDir[0] != Readme[0] && PnpmLock[0] != Readme[0];
  }

  predicate EndsWithNewline(s: string) {
    |s| > 0 && s[|s| - 1] == '\n'
  }

  /** What reading the template's `.gitignore` yields: its text, or nothing
      when it is missing or cannot be read as a file. */
  function TemplateIgnore(template: Tree): Option<string> {
    if Gitignore in template && template[Gitignore].File? then Some(template[Gitignore].content) else None
  }

  /** The text `ensureGitignore` writes: the template's own ignore file,
      else the built-in default, with a newline added when missing. */
  function GitignoreContent(templateIgnore: Option<string>): (c: string)
    ensures EndsWithNewline(c)
    ensures templateIgnore.Some? ==> (c == templateIgnore.value
      || (!EndsWithNewline(templateIgnore.value) && c == templateIgnore.value + "\n"))
    ensures templateIgnore.None? ==> c == DefaultGitignore
  {
    WithFinalNewline(templateIgnore.GetOr(DefaultGitignore))
  }

  /** `content.endsWith('\n') ? content : `${content}\n``. */
  function WithFinalNewline(content: string): (c: string)
    ensures EndsWithNewline(c)
    ensures EndsWithNewline(content) ==> c == content
    ensures !EndsWithNewline(content) ==> c == content + "\n"
  {
    if EndsWithNewline(content) then content else content + "\n"
  }

  /** `ensureGitignore`: an existing ignore file is left alone. */
  function EnsureGitignore(t: Tree, template: Tree): (r: Tree)
    requires HasParents(t)
    ensures HasParents(r)
    ensures Gitignore in r
    ensures Gitignore in t ==> r == t
    ensures Gitignore !in t ==> r == t[Gitignore := File(GitignoreContent(TemplateIgnore(template)))]
    ensures forall q :: q != Gitignore ==> (q in r <==> q in t) && (q in r ==> r[q] == t[q])
  {
    if Gitignore in t then t
    else
      var n := File(GitignoreContent(TemplateIgnore(template)));
      UpdateFrame(t, Gitignore, n);
      WriteTopHasParents(t, Gitignore, n);
      t[Gitignore := n]
  }

  lemma EnsureGitignoreIdempotent(t: Tree, template: Tree)
    requires HasParents(t)
    ensures EnsureGitignore(EnsureGitignore(t, template), template) == EnsureGitignore(t, template)
  {
  }

  /** `ensureChangesetAssets`: with Changesets the destination's directory is
      replaced by the template's (delete, then copy); without, it is deleted. */
  function EnsureChangesetAssets(t: Tree, template: Tree, includeChangesets: bool): (r: Tree)
    requires HasParents(t) && HasParents(template)
    ensures HasParents(r)
  {
    RemoveTreeHasParents(t, ChangesetDir);
    GraftHasParents(t, template, ChangesetDir);
    if includeChangesets then
      if ChangesetDir in template then RemoveTree(t, ChangesetDir) + Subtree(template, ChangesetDir)
      else t
    else RemoveTree(t, ChangesetDir)
  }

  /** The Changesets directory ends up equal to the template's when it is
      wanted, absent when it is not, and nothing outside it changes. */
  lemma ChangesetAssets(t: Tree, template: Tree, includeChangesets: bool)
    requires HasParents(t) && HasParents(template)
    ensures var r := EnsureChangesetAssets(t, template, includeChangesets);
      && (includeChangesets && ChangesetDir in template ==>
            Subtree(r, ChangesetDir) == Subtree(template, ChangesetDir))
      && (!includeChangesets ==> forall q :: q in r ==> !Under(ChangesetDir, q))
      && (forall q :: !Under(ChangesetDir, q) ==> (q in r <==> q in t) && (q in r ==> r[q] == t[q]))
  {
    var r := EnsureChangesetAssets(t, template, includeChangesets);
    if includeChangesets && ChangesetDir in template {
      assert Subtree(r, ChangesetDir).Keys == Subtree(template, ChangesetDir).Keys;
    }
  }

  /** The text `resetReadme` writes. */
  function ReadmeText(projectName: string): string {
    "# " + projectName + "\n\nProject scaffolded with next-temp. Update this README with your project details.\n"
  }

  /** `resetReadme`: an existing README is rewritten; writing over a
      directory fails. */
  function ResetReadme(t: Tree, projectName: string): (r: Result<Tree, FsError>)
    requires HasParents(t)
    ensures r.Err? <==> Readme in t && t[Readme].Dir?
    ensures r.Ok? ==> (Readme in r.value <==> Readme in t)
    ensures r.Ok? && Readme in t ==> r.value == t[Readme := File(ReadmeText(projectName))]
    ensures r.Ok? && Readme !in t ==> r.value == t
    ensures r.Ok? ==> r.value.Keys == t.Keys
    ensures r.Ok? ==> forall q :: q in t && q != Readme ==> q in r.value && r.value[q] == t[q]
    ensures r.Ok? ==> HasParents(r.value)
  {
    if Readme !in t then Ok(t)
    else if t[Readme].Dir? then Err(IsADirectory(Readme))
    else
      var n := File(ReadmeText(projectName));
      UpdateFrame(t, Readme, n);
      WriteTopHasParents(t, Readme, n);
      Ok(t[Readme := n])
  }

  /** `removeScaffoldArtifacts`: the license, the changelog and the generator
      script go, and so does a `scripts` directory left empty; listing a
      `scripts` that is a file fails. */
  function RemoveScaffoldArtifacts(t: Tree): (r: Result<Tree, FsError>)
    requires HasParents(t)
    ensures r.Ok? ==> HasParents(r.value)
  {
    var t1 := RemoveTree(t, License);
    var t2 := RemoveTree(t1, Changelog);
    var t3 := RemoveTree(t2, CopyFilter.GeneratorScript);
    RemoveTreeHasParents(t, License);
    RemoveTreeHasParents(t1, Changelog);
    RemoveTreeHasParents(t2, CopyFilter.GeneratorScript);
    RemoveTreeHasParents(t3, ScriptsDir);
    if ScriptsDir !in t3 then Ok(t3)
    else if t3[ScriptsDir].File? then Err(NotADirectory(ScriptsDir))
    else if IsEmptyDir(t3, ScriptsDir) then Ok(RemoveTree(t3, ScriptsDir))
    else Ok(t3)
  }

  /** What `removeScaffoldArtifacts` promises. */
  lemma ScaffoldArtifactsRemoved(t: Tree)
    requires HasParents(t)
    ensures RemoveScaffoldArtifacts(t).Err? <==> ScriptsDir in t && t[ScriptsDir].File?
    ensures var r := RemoveScaffoldArtifacts(t); r.Ok? ==>
      && (forall q :: q in r.value ==> !Under(License, q) && !Under(Changelog, q)
                                       && !Under(CopyFilter.GeneratorScript, q))
      && (ScriptsDir in r.value ==> !IsEmptyDir(r.value, ScriptsDir))
      && (forall q :: q in t && !Under(License, q) && !Under(Changelog, q)
                     && !Under(CopyFilter.GeneratorScript, q) && !Under(ScriptsDir, q)
                     ==> q in r.value && r.value[q] == t[q])
      && r.value.Keys <= t.Keys
  {
    var t3 := RemoveTree(RemoveTree(RemoveTree(t, License), Changelog), CopyFilter.GeneratorScript);
    assert ScriptsDir in t3 <==> ScriptsDir in t;
    var r := RemoveScaffoldArtifacts(t);
    if r.Ok? && ScriptsDir in r.value {
      assert r.value == t3 && !IsEmptyDir(t3, ScriptsDir);
    }
  }

  /** `cleanupLockfiles`: pnpm's lockfile goes unless pnpm was chosen;
      removing it without `recursive` fails on a directory. */
  function CleanupLockfiles(t: Tree, packageManager: string): (r: Result<Tree, FsError>)
    requires HasParents(t)
    ensures r.Err? <==> packageManager != "pnpm" && PnpmLock in t && t[PnpmLock].Dir?
    ensures r.Ok? && packageManager != "pnpm" ==> r.value == t - {PnpmLock}
    ensures r.Ok? && packageManager == "pnpm" ==> r.value == t
    ensures r.Ok? ==> HasParents(r.value)
  {
    if packageManager != "pnpm" && PnpmLock in t then
      if t[PnpmLock].Dir? then Err(IsADirectory(PnpmLock))
      else
        RemoveFileHasParents(t, PnpmLock);
        Ok(t - {PnpmLock})
    else Ok(t)
  }

  /** The new project after the edits, with the descriptor `package.json`
      is rewritten from. */
  datatype Edited = Edited(tree: Tree, descriptor: PackageJson.Descriptor)

  /** What stops the run during the edits: a file operation, the patch of
      the descriptor, or reading a `package.json` that is not there. */
  datatype RunError = FileError(fs: FsError) | PatchFailed(patch: PackageJson.PatchError)
                    | MissingPackageJson

  /** The tree edits after the patch, lines of `main` in order: README,
      scaffold-only files, lockfile. */
  function LateEdits(t2: Tree, projectName: string, packageManager: string): (r: Result<Tree, FsError>)
    requires HasParents(t2)
    ensures r.Ok? ==> HasParents(r.value)
  {
    match ResetReadme(t2, projectName)
    case Err(e) => Err(e)
    case Ok(t3) =>
      match RemoveScaffoldArtifacts(t3)
      case Err(e) => Err(e)
      case Ok(t4) => CleanupLockfiles(t4, packageManager)
  }

  /** The edits of `main` after the copy, in its order. `pkg` is the
      destination's parsed `package.json`, `None` when there is none. */
  function PostCopy(t: Tree, template: Tree, includeChangesets: bool, projectName: string,
                    description: string, packageManager: string, pkg: Option<PackageJson.Descriptor>)
    : (r: Result<Edited, RunError>)
    requires HasParents(t) && HasParents(template)
    ensures r.Ok? ==> HasParents(r.value.tree)
  {
    var t1 := EnsureGitignore(t, template);
    var t2 := EnsureChangesetAssets(t1, template, includeChangesets);
    if pkg.None? then Err(MissingPackageJson)
    else
      match PackageJson.Patched(pkg.value, PackageName.ToPackageName(projectName), description, includeChangesets)
      case Err(e) => Err(PatchFailed(e))
      case Ok(d) =>
        match LateEdits(t2, projectName, packageManager)
        case Err(e) => Err(FileError(e))
        case Ok(t5) => Ok(Edited(t5, d))
  }

  /** What the ignore-file and Changesets steps leave for the rest: an ignore
      file, no `.changeset` unless wanted, and README, `scripts` and the pnpm
      lockfile as the destination had them. */
  lemma EarlyEdits(t: Tree, template: Tree, includeChangesets: bool)
    requires HasParents(t) && HasParents(template)
    ensures var t2 := EnsureChangesetAssets(EnsureGitignore(t, template), template, includeChangesets);
      && Gitignore in t2
      && (!includeChangesets ==> forall q :: q in t2 ==> !Under(ChangesetDir, q))
      && (Readme in t2 <==> Readme in t) && (Readme in t ==> t2[Readme] == t[Readme])
      && (ScriptsDir in t2 <==> ScriptsDir in t) && (ScriptsDir in t ==> t2[ScriptsDir] == t[ScriptsDir])
      && (PnpmLock in t2 <==> PnpmLock in t) && (PnpmLock in t ==> t2[PnpmLock] == t[PnpmLock])
  {
    NamesApart();
    ChangesetAssets(EnsureGitignore(t, template), template, includeChangesets);
  }

  /** The ignore file and, when unwanted, the absence of the Changesets
      directory survive the README rewrite, the scaffold cleanup and the
      lockfile cleanup, which add nothing. */
  lemma LateEditsResult(t2: Tree, includeChangesets: bool, projectName: string, packageManager: string)
    requires HasParents(t2)
    requires Gitignore in t2
    requires !includeChangesets ==> forall q :: q in t2 ==> !Under(ChangesetDir, q)
    requires LateEdits(t2, projectName, packageManager).Ok?
    ensures var r := LateEdits(t2, projectName, packageManager).value;
      && Gitignore in r
      && (forall q :: q in r ==> !Under(License, q) && !Under(Changelog, q)
                                 && !Under(CopyFilter.GeneratorScript, q))
      && (!includeChangesets ==> forall q :: q in r ==> !Under(ChangesetDir, q))
      && (packageManager != "pnpm" ==> PnpmLock !in r)
  {
    var t3 := ResetReadme(t2, projectName).value;
    assert t3.Keys == t2.Keys;
    ThroughCleanup(t3, includeChangesets, packageManager);
  }

  /** The same facts survive the scaffold cleanup and the lockfile cleanup,
      which only ever remove entries. */
  lemma ThroughCleanup(t3: Tree, includeChangesets: bool, packageManager: string)
    requires HasParents(t3)
    requires Gitignore in t3
    requires !includeChangesets ==> forall q :: q in t3 ==> !Under(ChangesetDir, q)
    requires RemoveScaffoldArtifacts(t3).Ok?
    requires CleanupLockfiles(RemoveScaffoldArtifacts(t3).value, packageManager).Ok?
    ensures var r := CleanupLockfiles(RemoveScaffoldArtifacts(t3).value, packageManager).value;
      && Gitignore in r
      && (forall q :: q in r ==> !Under(License, q) && !Under(Changelog, q)
                                 && !Under(CopyFilter.GeneratorScript, q))
      && (!includeChangesets ==> forall q :: q in r ==> !Under(ChangesetDir, q))
      && (packageManager != "pnpm" ==> PnpmLock !in r)
  {
    ScaffoldArtifactsRemoved(t3);
    NamesApart();
    var t4 := RemoveScaffoldArtifacts(t3).value;
    assert Gitignore in t4;
    var r := CleanupLockfiles(t4, packageManager).value;
    assert r.Keys <= t4.Keys;
  }

  /** The late edits fail exactly on a README that is a directory, a
      `scripts` that is a file, or a pnpm lockfile that is a directory when
      pnpm was not chosen. */
  lemma LateEditsSucceed(t2: Tree, projectName: string, packageManager: string)
    requires HasParents(t2)
    ensures LateEdits(t2, projectName, packageManager).Ok? <==>
      && !(Readme in t2 && t2[Readme].Dir?)
      && !(ScriptsDir in t2 && t2[ScriptsDir].File?)
      && !(packageManager != "pnpm" && PnpmLock in t2 && t2[PnpmLock].Dir?)
  {
    NamesApart();
    if ResetReadme(t2, projectName).Ok? {
      var t3 := ResetReadme(t2, projectName).value;
      assert (ScriptsDir in t3 <==> ScriptsDir in t2) && (ScriptsDir in t2 ==> t3[ScriptsDir] == t2[ScriptsDir]);
      assert (PnpmLock in t3 <==> PnpmLock in t2) && (PnpmLock in t2 ==> t3[PnpmLock] == t2[PnpmLock]);
      ScaffoldArtifactsRemoved(t3);
      if RemoveScaffoldArtifacts(t3).Ok? {
        var t4 := RemoveScaffoldArtifacts(t3).value;
        assert (PnpmLock in t4 <==> PnpmLock in t3) && (PnpmLock in t3 ==> t4[PnpmLock] == t3[PnpmLock]);
      }
    }
  }

  /** After a successful run of the edits: the descriptor is the patch of
      `package.json`; an ignore file exists; license, changelog and generator
      script are gone; the Changesets directory is gone unless wanted; pnpm's
      lockfile is gone unless pnpm was chosen. */
  lemma PostCopyResult(t: Tree, template: Tree, includeChangesets: bool, projectName: string,
                       description: string, packageManager: string, pkg: Option<PackageJson.Descriptor>)
    requires HasParents(t) && HasParents(template)
    requires PostCopy(t, template, includeChangesets, projectName, description, packageManager, pkg).Ok?
    ensures var r := PostCopy(t, template, includeChangesets, projectName, description, packageManager, pkg).value;
      && pkg.Some?
      && PackageJson.Patched(pkg.value, PackageName.ToPackageName(projectName), description, includeChangesets)
           == Ok(r.descriptor)
      && Gitignore in r.tree
      && (forall q :: q in r.tree ==> !Under(License, q) && !Under(Changelog, q)
                                      && !Under(CopyFilter.GeneratorScript, q))
      && (!includeChangesets ==> forall q :: q in r.tree ==> !Under(ChangesetDir, q))
      && (packageManager != "pnpm" ==> PnpmLock !in r.tree)
  {
    EarlyEdits(t, template, includeChangesets);
    var t2 := EnsureChangesetAssets(EnsureGitignore(t, template), template, includeChangesets);
    LateEditsResult(t2, includeChangesets, projectName, packageManager);
  }

  /** The run fails exactly when `package.json` is missing, the patch throws
      (Changesets on and a primitive `scripts` or `devDependencies`), README
      is a directory, `scripts` is a file, or the pnpm lockfile is a
      directory while another manager was chosen. */
  lemma PostCopySucceeds(t: Tree, template: Tree, includeChangesets: bool, projectName: string,
                         description: string, packageManager: string, pkg: Option<PackageJson.Descriptor>)
    requires HasParents(t) && HasParents(template)
    ensures PostCopy(t, template, includeChangesets, projectName, description, packageManager, pkg).Ok? <==>
      && pkg.Some?
      && !(includeChangesets && (!PackageJson.Assignable(PackageJson.Container(pkg.value, PackageJson.ScriptsKey))
                                 || !PackageJson.Assignable(PackageJson.Container(pkg.value, PackageJson.DevDependenciesKey))))
      && !(Readme in t && t[Readme].Dir?)
      && !(ScriptsDir in t && t[ScriptsDir].File?)
      && !(packageManager != "pnpm" && PnpmLock in t && t[PnpmLock].Dir?)
  {
    var t2 := EnsureChangesetAssets(EnsureGitignore(t, template), template, includeChangesets);
    LateConditionsKept(t, template, includeChangesets, packageManager);
    LateEditsSucceed(t2, projectName, packageManager);
    PostCopyOutcome(t, template, includeChangesets, projectName, description, packageManager, pkg);
    if pkg.Some? {
      PackageJson.PatchedFails(pkg.value, PackageName.ToPackageName(projectName), description, includeChangesets);
    }
  }

  /** The early edits leave README, `scripts` and the pnpm lockfile as the
      late edits need them exactly when the destination had them so. */
  lemma LateConditionsKept(t: Tree, template: Tree, includeChangesets: bool, packageManager: string)
    requires HasParents(t) && HasParents(template)
    ensures var t2 := EnsureChangesetAssets(EnsureGitignore(t, template), template, includeChangesets);
      && ((Readme in t2 && t2[Readme].Dir?) <==> (Readme in t && t[Readme].Dir?))
      && ((ScriptsDir in t2 && t2[ScriptsDir].File?) <==> (ScriptsDir in t && t[ScriptsDir].File?))
      && ((packageManager != "pnpm" && PnpmLock in t2 && t2[PnpmLock].Dir?)
          <==> (packageManager != "pnpm" && PnpmLock in t && t[PnpmLock].Dir?))
  {
    EarlyEdits(t, template, includeChangesets);
  }

  /** A missing `package.json` and a failed patch are reported as such,
      before any of the tree edits after the patch can fail; `scripts` is
      written, and so blamed, first. */
  lemma PostCopyFailsEarly(t: Tree, template: Tree, includeChangesets: bool, projectName: string,
                           description: string, packageManager: string, pkg: Option<PackageJson.Descriptor>)
    requires HasParents(t) && HasParents(template)
    ensures var r := PostCopy(t, template, includeChangesets, projectName, description, packageManager, pkg);
      && (pkg.None? ==> r == Err(MissingPackageJson))
      && (pkg.Some? && includeChangesets
          && !PackageJson.Assignable(PackageJson.Container(pkg.value, PackageJson.ScriptsKey))
          ==> r == Err(PatchFailed(PackageJson.TypeError(PackageJson.ScriptsKey))))
      && (pkg.Some? && includeChangesets
          && PackageJson.Assignable(PackageJson.Container(pkg.value, PackageJson.ScriptsKey))
          && !PackageJson.Assignable(PackageJson.Container(pkg.value, PackageJson.DevDependenciesKey))
          ==> r == Err(PatchFailed(PackageJson.TypeError(PackageJson.DevDependenciesKey))))
  {
    PostCopyOutcome(t, template, includeChangesets, projectName, description, packageManager, pkg);
    if pkg.Some? {
      PackageJson.PatchedFails(pkg.value, PackageName.ToPackageName(projectName), description, includeChangesets);
    }
  }

  /** How the outcome of `PostCopy` follows from the reading of
      `package.json`, the patch and the late edits. */
  lemma PostCopyOutcome(t: Tree, template: Tree, includeChangesets: bool, projectName: string,
                        description: string, packageManager: string, pkg: Option<PackageJson.Descriptor>)
    requires HasParents(t) && HasParents(template)
    ensures var t2 := EnsureChangesetAssets(EnsureGitignore(t, template), template, includeChangesets);
      var r := PostCopy(t, template, includeChangesets, projectName, description, packageManager, pkg);
      && (pkg.None? ==> r == Err(MissingPackageJson))
      && (pkg.Some? ==>
            var patched := PackageJson.Patched(pkg.value, PackageName.ToPackageName(projectName), description, includeChangesets);
            && (patched.Err? ==> r == Err(PatchFailed(patched.error)))
            && (r.Ok? <==> patched.Ok? && LateEdits(t2, projectName, packageManager).Ok?))
  {
  }
}
