# next-temp project generator, modelled in Dafny

This project models `scripts/create-template.mjs`, the generator that scaffolds
a new Next.js project from the next-temp template. The model covers the rules
inside the generator's prompting and file glue:

- how yes/no answers are read (`normalizeYesNo`, `toBoolean`);
- the command-line parser `parseCliArgs`;
- where each answer comes from: a flag, then an environment variable, then
  defaults mode, then the user's reply, then the question's default (`ask`);
- the decisions `main` takes from the answers, and `ensureTargetDir`'s
  overwrite gate;
- the sanitisers and lookups (`toPackageName`, `normalizePackageManager`,
  `getInstallInstruction`, `getDevInstruction`, the install command);
- which template entries are copied (`shouldCopy`, `copyTemplate`);
- the patch of `package.json` (`updatePackageJson`);
- the edits made to the new project after the copy (ignore file, Changesets
  directory, README, scaffold-only files, pnpm lockfile).

Modules, in dependency order:

| file | module | contents |
|---|---|---|
| Wrappers.dfy | `Wrappers` | `Option` (`None` plays JavaScript's `undefined`) and `Result` |
| Strings.dfy | `Strings` | `String.prototype.trim` over JavaScript's whitespace set; `toLowerCase` on ASCII |
| YesNo.dfy | `YesNo` | `normalizeYesNo`, `toBoolean` |
| Cli.dfy | `Cli` | `parseCliArgs`: a loop over the tokens, proved against a step-by-step specification (`ParseOnto`), which is in turn a left fold of the actions of a tokeniser (`Steps`) |
| PackageName.dfy | `PackageName` | `toPackageName` |
| PackageManager.dfy | `PackageManager` | `normalizePackageManager`, the instruction strings, the install command |
| Answers.dfy | `Answers` | environment options, prefilled answers, `ask`, the decisions of `main` |
| FileTree.dfy | `FileTree` | a directory as a table from a relative path (a sequence of segments) to a file or a directory |
| CopyFilter.dfy | `CopyFilter` | `shouldCopy`, `copyTemplate` |
| TargetDir.dfy | `TargetDir` | `ensureTargetDir` |
| PackageJson.dfy | `PackageJson` | `updatePackageJson` on the parsed descriptor |
| PostCopy.dfy | `PostCopy` | `ensureGitignore`, `ensureChangesetAssets`, `resetReadme`, `removeScaffoldArtifacts`, `cleanupLockfiles` and their order in `main`, with `updatePackageJson` between the Changesets step and the README step |

Inputs the program reads from its environment become parameters:
- the command-line tokens;
- the `NEXT_TEMP_*` variables, `None` when unset;
- the user's reply to each question;
- the template tree and the destination tree;
- the parsed `package.json` object.

A thrown error becomes an
`Err` value: a file operation on the wrong kind of entry, or a property
assignment on a primitive in `package.json`. `process.exit(1)` becomes the
outcome `Aborted(1)`.

Modelling notes:
- `parseCliArgs` is a loop whose index skips past consumed values.
  `Cli.ParseCliArgs` keeps that loop. Its invariant states that parsing the
  rest of the tokens, starting from the options built so far, gives the
  options for the whole list.
- `updatePackageJson` mutates the parsed object statement by statement.
  `PackageJson.UpdatePackageJson` does the same to a local map. It is proved
  equal to the declarative `PackageJson.Patched`, which the lemmas are about.
- JSON values keep the cases the source handles implicitly:
  - `??=` replaces `undefined` and `null` only;
  - truthiness decides whether a container is cleaned;
  - `Object.keys` counts an array's or a string's indices and no keys of a
    number or a boolean;
  - writing a property of a primitive throws a `TypeError` in module code;
  - a named property written on an array is not serialised, so the array is
    written back unchanged.
- The destination guard in `copyTemplate` compares each top-level template
  entry with the destination. When the destination lies deeper inside the
  template (say `src/app/x`), its top-level ancestor `src` passes the guard
  (`CopyFilter.AncestorOfDestinationKept`). `cp` then refuses to copy a
  directory into a subdirectory of itself, and `main` catches the error and
  exits with code 1. `CopyFilter.CopyTemplate` returns that error
  (`CopyIntoSelf`) for exactly these inputs
  (`CopyFilter.CopiesIntoItselfExactly`).

## Model

| member | source | states |
|---|---|---|
| YesNo.NormalizeYesNo | scripts/create-template.mjs:60-73 | the result is `y` exactly when the trimmed, lower-cased string is one of y/yes/true/1, `n` exactly when it is one of n/no/false/0, and undefined for any other string and for a non-string |
| YesNo.ToBoolean | scripts/create-template.mjs:75-77 | true exactly when the value is a string whose trimmed, lower-cased form is a yes-spelling |
| YesNo.NormalizeIgnoresPadding | scripts/create-template.mjs:65 | whitespace added on either side of a string never changes its verdict |
| YesNo.NormalizeIgnoresCase | scripts/create-template.mjs:65-71 | two strings that differ only in ASCII letter case get the same verdict |
| YesNo.NormalizeIdempotent | scripts/create-template.mjs:60-73 | normalising a normalised answer gives it back |
| Strings.Trim | scripts/create-template.mjs:65 | the trimmed string has no leading or trailing whitespace, is no longer than the input, and is empty exactly when the input is all whitespace |
| Strings.TrimIsInnerSlice | scripts/create-template.mjs:65 | the trimmed string is a slice of the input with only whitespace before and after it |
| Strings.TrimIgnoresPadding | scripts/create-template.mjs:65 | trimming a string padded with whitespace on both sides equals trimming the string |
| Strings.TrimIdempotent | scripts/create-template.mjs:219 | trimming twice equals trimming once |
| Cli.ParseCliArgs | scripts/create-template.mjs:79-167 | the loop returns exactly the options of the step-by-step specification `Parse` |
| Cli.TakeStep | scripts/create-template.mjs:83-163 | one pass of the loop body applies the action of the step at `i` and reports how many tokens it consumed |
| Cli.StepOf | scripts/create-template.mjs:82-164 | each step consumes its flag and at most one following token, taken from the front of the list |
| Cli.ParseOntoApplyAll | scripts/create-template.mjs:79-167 | parsing step by step equals applying the actions of the tokeniser's steps from left to right |
| Cli.StepsCoverArgs | scripts/create-template.mjs:82-164 | the steps together consume every token exactly once, in order |
| Cli.ValueAnswer | scripts/create-template.mjs:101 | `normalizeYesNo(v) ?? 'y'` is always `y` or `n`, and `n` exactly for a no-spelling, so an unrecognised value counts as yes |
| Cli.ValueFlagConsumes | scripts/create-template.mjs:100-149 | a value flag followed by a token records that token (yes/no flags read it as an answer) and parsing resumes after it, even when the token looks like a flag |
| Cli.SwitchStep | scripts/create-template.mjs:85-163 | a token that takes no value is a step of its own and applies its switch action |
| Cli.SwitchFlags | scripts/create-template.mjs:85-163 | `--defaults`/`--yes`/`-y` switch on defaults mode; `--force`/`-f` set overwrite to `y`; `--skip-install` sets install to `n`; `--with-changesets` and `--git-init` answer yes; `--no-changesets` and `--no-git` answer no |
| Cli.ValueFlagTable | scripts/create-template.mjs:100-154 | which key each value flag writes, which ones read a yes/no answer, and what each does with no token after it |
| Cli.TrailingValueFlag | scripts/create-template.mjs:124-154 | a trailing bare `--changesets` or `--git` answers yes; a trailing bare `--install`, `--name` or other value flag changes nothing |
| Cli.ParseLastWriteWins | scripts/create-template.mjs:79-167 | each option ends up holding the value of the last step that assigned it, and stays undefined when no step did |
| Cli.LastWriteWins | scripts/create-template.mjs:79-167 | folding actions onto any options leaves each key at its last assigned value, or unchanged |
| Cli.ParseUseDefaults | scripts/create-template.mjs:85-88 | defaults mode is on exactly when some step is a defaults switch; no later token switches it off |
| Cli.UnknownTokenIgnored | scripts/create-template.mjs:82-164 | an unknown token at the front changes nothing |
| Cli.UnknownTokenDropped | scripts/create-template.mjs:82-164 | deleting an unknown token that is not the value of a flag leaves the parse unchanged |
| Cli.ParseAppend | scripts/create-template.mjs:79-167 | parsing a list that does not end in a bare value flag, then more tokens, equals parsing the more tokens starting from its options |
| Answers.ReadEnv | scripts/create-template.mjs:170-179 | defaults mode from the environment is `toBoolean` of its variable; text variables pass through; each yes/no variable is `normalizeYesNo` of its raw value, so it holds only `y`, `n` or undefined |
| Answers.Prefill | scripts/create-template.mjs:182-190 | each prefilled answer is the command-line value when defined, otherwise the environment's value for the same question |
| Answers.DefaultsModeOn | scripts/create-template.mjs:169-181 | defaults mode is on exactly when a defaults switch appears among the arguments or `NEXT_TEMP_DEFAULTS` holds a yes-spelling |
| Answers.PresetPrecedence | scripts/create-template.mjs:182-194 | each prefilled answer is the flag's value when defined, otherwise the environment's |
| Answers.Ask | scripts/create-template.mjs:206-221 | a defined preset wins; otherwise defaults mode gives the default; otherwise the answer is the non-empty trimmed reply or the default |
| Answers.AskIsFirstDefined | scripts/create-template.mjs:206-221 | `ask` returns the first defined of: preset, default in defaults mode, non-empty trimmed reply, default |
| Answers.AskTrimsReply | scripts/create-template.mjs:219-220 | an interactive answer is never empty and never padded when the default is neither |
| Answers.InstallEnabled | scripts/create-template.mjs:502-503 | install only when the answer normalises to `y` |
| Answers.ChangesetsEnabled | scripts/create-template.mjs:505 | Changesets only when the answer normalises to `y` |
| Answers.GitEnabled | scripts/create-template.mjs:507 | git is skipped only when the answer normalises to `n`; any other answer initialises git |
| Answers.OverwriteConfirmed | scripts/create-template.mjs:247 | overwriting is confirmed only when the answer normalises to `y` |
| Answers.Collect | scripts/create-template.mjs:497-507 | the project name and description are the answers `ask` gives with their defaults; the package manager is `normalizePackageManager` of its answer, so always one of the four; install, Changesets and git follow their answers as the decision functions say |
| Answers.DefaultsModeAnswers | scripts/create-template.mjs:497-507 | with no presets in defaults mode the answers are the defaults: `my-next-temp-app`, the default description, pnpm, no install, no Changesets, git |
| Answers.DefaultsModeIgnoresReplies | scripts/create-template.mjs:213-216 | in defaults mode the replies are never consulted |
| Answers.UnknownPackageManagerFallsBack | scripts/create-template.mjs:499-500 | an unrecognised non-empty package-manager reply becomes pnpm |
| TargetDir.EnsureTargetDir | scripts/create-template.mjs:230-256 | a missing directory is created and an empty one is left alone; a non-empty one is cleared exactly when the overwrite answer normalises to `y`, otherwise the run aborts with exit code 1 and nothing is deleted |
| TargetDir.ClearEntries | scripts/create-template.mjs:253-255 | removing every listed entry recursively leaves the directory empty |
| PackageName.ToPackageName | scripts/create-template.mjs:223-228 | the result is as long as the trimmed input; every character is in `[a-z0-9-_.]`; each is the lower-cased input character when allowed, else `-` |
| PackageName.PackageNameUnchanged | scripts/create-template.mjs:223-228 | a string that is already a package name comes back unchanged |
| PackageName.ToPackageNameIdempotent | scripts/create-template.mjs:223-228 | sanitising twice equals sanitising once |
| PackageManager.Find | scripts/create-template.mjs:262 | `find` yields the searched value exactly when the list holds it |
| PackageManager.NormalizePackageManager | scripts/create-template.mjs:258-263 | the result is always pnpm, npm, yarn or bun: the trimmed, lower-cased input when it is one of them, pnpm otherwise |
| PackageManager.NormalizePackageManagerIdempotent | scripts/create-template.mjs:258-263 | normalising a normalised manager gives it back |
| PackageManager.GetInstallInstruction | scripts/create-template.mjs:265-270 | the instruction is `<pm> install` for every manager, yarn included |
| PackageManager.GetDevInstruction | scripts/create-template.mjs:272-280 | `<pm> run dev` for npm and bun, `<pm> dev` otherwise |
| PackageManager.InstallCommand | scripts/create-template.mjs:472-482 | the command is the manager and the arguments are `["install"]` for every manager, yarn included |
| CopyFilter.ShouldCopy | scripts/create-template.mjs:282-309 | the root and paths outside it are copied; otherwise a path is copied exactly when its first segment is not `.git`, `.next`, `node_modules` or `.changeset` and it is not `scripts/create-template.mjs` |
| CopyFilter.CopyTemplate | scripts/create-template.mjs:311-333 | when a selected entry holds the destination the copy fails with `CopyIntoSelf` naming it; otherwise the loop adds to the destination exactly what the copies of the selected entries hold |
| CopyFilter.CopiesIntoItselfExactly | scripts/create-template.mjs:319-331 | the copy fails exactly when the destination lies strictly inside a listed top-level entry that `shouldCopy` keeps |
| CopyFilter.SelectEntriesMembers | scripts/create-template.mjs:314-325 | an entry is selected exactly when it is listed, is neither the destination nor inside it, and passes `shouldCopy` |
| CopyFilter.CopiedMembers | scripts/create-template.mjs:311-333 | a path is copied exactly when its top-level entry is selected and every prefix of it passes the copy filter |
| CopyFilter.CopiedNeverExcluded | scripts/create-template.mjs:323-331 | nothing copied lies under an excluded top-level entry or under the generator script |
| CopyFilter.SelectedNotDestination | scripts/create-template.mjs:319-321 | no selected entry is the destination or an entry inside it |
| CopyFilter.AncestorOfDestinationKept | scripts/create-template.mjs:319-321 | a top-level entry that contains a deeper destination still passes the guard |
| FileTree.RemoveTree | scripts/create-template.mjs:335-341 | removal deletes the path and everything below it, and nothing else |
| FileTree.Subtree | scripts/create-template.mjs:376 | the entries at and below a path, with their contents |
| PackageJson.Patched | scripts/create-template.mjs:408-440 | without Changesets the patch never throws; a thrown error names `scripts` or `devDependencies`; a written descriptor's `name` is the package name |
| PackageJson.UpdatePackageJson | scripts/create-template.mjs:408-443 | the statement-by-statement patch equals `Patched` for the sanitised project name, and a written name is a valid package name |
| PackageJson.SetUpChangesets | scripts/create-template.mjs:419-426 | the Changesets-on statements equal the declarative on-branch |
| PackageJson.TearDown | scripts/create-template.mjs:428-439 | a truthy container loses the managed keys and is deleted when no key is left |
| PackageJson.AddReleaseScripts | scripts/create-template.mjs:420-422 | an object gains `changeset` and `release` with the given commands and keeps its other entries; an array is unchanged; a primitive throws |
| PackageJson.AddChangesetDependency | scripts/create-template.mjs:423-425 | an object keeps an existing non-null `@changesets/cli` version, otherwise gets `^2.29.7`, and keeps its other entries; an array is unchanged; a primitive throws |
| PackageJson.OrEmptyObject | scripts/create-template.mjs:420 | `??= {}` replaces only `undefined` and `null` |
| PackageJson.Prune | scripts/create-template.mjs:428-439 | no other key changes; a falsy container is untouched; a remaining container has keys |
| PackageJson.PatchedFields | scripts/create-template.mjs:411-416 | afterwards `name` is the package name and `private` is true, `bin` is absent, `description` is replaced only by a non-empty description, and every other key is untouched |
| PackageJson.PatchedFails | scripts/create-template.mjs:419-426 | the patch throws exactly when Changesets are on and `scripts` or `devDependencies` is a primitive other than `null`, naming `scripts` first |
| PackageJson.ChangesetsOn | scripts/create-template.mjs:419-426 | with Changesets both containers exist; object `scripts` holds the two release scripts besides its old entries; object `devDependencies` pins the CLI, keeping an existing version |
| PackageJson.ChangesetsOff | scripts/create-template.mjs:427-440 | without Changesets nothing throws; no object container keeps a managed key or is left empty; falsy containers are untouched; objects keep their other entries |
| PackageJson.PatchedIdempotent | scripts/create-template.mjs:408-440 | patching an already patched descriptor with the same answers changes nothing |
| PackageJson.OnThenOff | scripts/create-template.mjs:408-440 | patching with Changesets and then without equals patching without alone, unless a container was `null` |
| PostCopy.GitignoreContent | scripts/create-template.mjs:390-403 | the text written ends in a newline: the template's file, with one added when missing, or the built-in default |
| PostCopy.EnsureGitignore | scripts/create-template.mjs:384-406 | an ignore file exists afterwards; an existing one is left alone; a missing one is written with the text of `GitignoreContent`; no other entry changes |
| PostCopy.EnsureGitignoreIdempotent | scripts/create-template.mjs:384-388 | ensuring twice equals ensuring once |
| PostCopy.EnsureChangesetAssets | scripts/create-template.mjs:370-382 | replacing or removing `.changeset` keeps every parent directory of every entry present |
| PostCopy.ChangesetAssets | scripts/create-template.mjs:370-382 | with Changesets and a template directory, `.changeset` equals the template's; without Changesets it is gone; nothing outside it changes |
| PostCopy.ResetReadme | scripts/create-template.mjs:343-352 | an existing README is rewritten for the project name, a missing one is not created, writing over a directory fails, nothing else changes |
| PostCopy.RemoveScaffoldArtifacts | scripts/create-template.mjs:354-368 | removing the scaffold-only files keeps every parent directory of every entry present |
| PostCopy.ScaffoldArtifactsRemoved | scripts/create-template.mjs:354-368 | license, changelog and generator script are gone, an empty `scripts` directory is removed, other entries stay; failure exactly when `scripts` is a file |
| PostCopy.CleanupLockfiles | scripts/create-template.mjs:445-450 | the pnpm lockfile goes unless pnpm was chosen; removing a directory there fails |
| PostCopy.LateEdits | scripts/create-template.mjs:518-520 | the README rewrite, the scaffold cleanup and the lockfile cleanup keep every parent directory of every entry present |
| PostCopy.LateEditsSucceed | scripts/create-template.mjs:518-520 | those three edits fail exactly when README is a directory, `scripts` is a file, or the pnpm lockfile is a directory while another manager was chosen |
| PostCopy.LateEditsResult | scripts/create-template.mjs:518-520 | the ignore file and the absence of an unwanted `.changeset` survive those edits; afterwards no scaffold artifact remains and the pnpm lockfile is gone unless pnpm was chosen |
| PostCopy.EarlyEdits | scripts/create-template.mjs:515-516 | after the ignore-file and Changesets steps an ignore file exists, `.changeset` is gone unless wanted, and README, `scripts` and the pnpm lockfile are as the destination had them |
| PostCopy.PostCopy | scripts/create-template.mjs:515-520 | a successful run of the edits leaves every parent directory of every entry present |
| PostCopy.PostCopyResult | scripts/create-template.mjs:515-520 | after a successful run the descriptor is the patch of `package.json`, an ignore file exists, no scaffold artifact remains, `.changeset` is gone unless wanted and the pnpm lockfile unless pnpm was chosen |
| PostCopy.PostCopySucceeds | scripts/create-template.mjs:515-520 | the run succeeds exactly when `package.json` exists, the patch does not throw (Changesets on with a primitive `scripts` or `devDependencies`), README is not a directory, `scripts` is not a file, and the pnpm lockfile is not a directory while another manager was chosen |
| PostCopy.PostCopyFailsEarly | scripts/create-template.mjs:515-517 | a missing `package.json` and a throwing patch are the reported errors, with `scripts` blamed before `devDependencies`, whatever the later edits would do |
| PostCopy.PostCopyOutcome | scripts/create-template.mjs:515-520 | a missing `package.json` or a failed patch is the outcome; otherwise the run succeeds exactly when the patch and the late edits do |

## Left out

- `src/env.js` is not part of this model: it only declares a schema checked by libraries outside the repository.
- Terminal I/O: the readline prompt, the automatic-answer log lines and the closing instructions (lines 544-557) are output only. The reply to a question is a parameter.
- Subprocesses: `runCommand`, the install run and `git init`, including the check for an existing `.git` and the catch-and-warn wrappers. Only the install command's name and arguments are modelled.
- Real file-system calls: trees are values, existence checks are map lookups, and a write replaces a map entry.
- Tree shape: the post-copy edits require and keep `FileTree.HasParents`, so every directory above an entry is itself an entry, as on a disk. The copy and the target-directory operations do not need it. A destination that exists as a file is not modelled.
- Writing the patched descriptor back: `PostCopy` returns the descriptor beside the tree instead of serialising it into the tree's `package.json`.
- Reading `package.json`: `PostCopy` takes the parsed object as a parameter, and `None` stands for a missing or unreadable file.
- Partial effects: when a step fails, the edits already applied to the destination are not part of the outcome, which is only the error.
- `cp` conflicts between a file and a directory are not modelled.
- The `readFile` error fallback in `ensureGitignore`: a template `.gitignore` that cannot be read as a file counts as missing.
- The order of `readdir`: `copyTemplate` follows the order of the entry list it is given, and `ensureTargetDir` removes entries one at a time in any order.
- CopyFilter.CopyTemplate: models only the copy-into-itself error of `cp`; on that error the entries copied before it are not part of the outcome.
- `JSON.parse` and `JSON.stringify`: the descriptor is the parsed top-level object. Key order, formatting, non-integer numbers and a top-level value that is not an object are not modelled.
- Reading `process.argv` and `process.env`: the tokens and the variables are parameters.
- Path separators: `/` is the only separator, so the Windows comparison in `shouldCopy` is not modelled.
- `resolve`/`relative` on real paths: paths are sequences of segments already relative to the template root.
- Strings.ToLower: lower-cases ASCII letters only. JavaScript also maps non-ASCII letters, and some of them to ASCII (the Kelvin sign becomes `k`). The properties about case therefore hold for ASCII case differences only.
- PackageName.ToPackageName: JavaScript works on UTF-16 code units, the model on characters. A character outside the Basic Multilingual Plane becomes two hyphens in JavaScript and one in the model. A letter whose lower case is longer, such as `İ` (lower case `i̇`), makes the JavaScript result longer than the trimmed input, so the length ensures holds for the model only.
