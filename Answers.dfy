/** Where each answer comes from (flags, environment, defaults mode, the
    user's reply) and what the generator decides from the answers. */
module Answers {
  import opened Wrappers
  import opened Strings
  import opened YesNo
  import Cli
  import PackageManager

  /** The questions, by the keys the source looks presets up under. */
  datatype Question = ProjectName | Description | PackageManagerChoice | Install
                    | Overwrite | UseChangesets | InitializeGit

  /** The `NEXT_TEMP_*` environment variables, `None` when unset. */
  datatype RawEnv = RawEnv(
    defaults: Option<string>,
    name: Option<string>,
    description: Option<string>,
    packageManager: Option<string>,
    install: Option<string>,
    overwrite: Option<string>,
    changesets: Option<string>,
    git: Option<string>)

  /** `envOptions`: the yes/no variables are normalised when they are read. */
  datatype EnvOptions = EnvOptions(
    useDefaults: bool,
    name: Option<string>,
    description: Option<string>,
    packageManager: Option<string>,
    install: Option<string>,
    overwrite: Option<string>,
    changesets: Option<string>,
    git: Option<string>)

  function ReadEnv(raw: RawEnv): (env: EnvOptions)
    ensures env.useDefaults <==> raw.defaults.Some? && Canonical(raw.defaults.value) in YesWords
    ensures env.name == raw.name && env.description == raw.description
    ensures env.packageManager == raw.packageManager
    ensures env.install.Some? ==> env.install.value in {"y", "n"}
    ensures env.install == NormalizeYesNo(raw.install)
    ensures env.overwrite.Some? ==> env.overwrite.value in {"y", "n"}
    ensures env.overwrite == NormalizeYesNo(raw.overwrite)
    ensures env.changesets.Some? ==> env.changesets.value in {"y", "n"}
    ensures env.changesets == NormalizeYesNo(raw.changesets)
    ensures env.git.Some? ==> env.git.value in {"y", "n"}
    ensures env.git == NormalizeYesNo(raw.git)
  {
    EnvOptions(
      ToBoolean(raw.defaults),
      raw.name,
      raw.description,
      raw.packageManager,
      NormalizeYesNo(raw.install),
      NormalizeYesNo(raw.overwrite),
      NormalizeYesNo(raw.changesets),
      NormalizeYesNo(raw.git))
  }

  /** `a ?? b` */
  function Coalesce(a: Option<string>, b: Option<string>): Option<string> {
    if a.Some? then a else b
  }

  /** The first of `sources` that holds a value. `prefilledAnswers` and `ask`
      follow this order: flag, environment, defaults mode, reply, default. */
  function FirstDefined(sources: seq<Option<string>>): (r: Option<string>)
    ensures r.Some? <==> exists i :: 0 <= i < |sources| && sources[i].Some?
    ensures r.Some? ==> exists i :: (0 <= i < |sources| && sources[i] == r
      && forall j :: 0 <= j < i ==> sources[j].None?)
  {
    if |sources| == 0 then None
    else if sources[0].Some? then sources[0]
    else
      var r := FirstDefined(sources[1..]);
      assert forall i :: 1 <= i < |sources| ==> sources[i] == sources[1..][i - 1];
      r
  }

  /** `prefilledAnswers`: one preset per question. */
  datatype Prefilled = Prefilled(
    projectName: Option<string>,
    description: Option<string>,
    packageManager: Option<string>,
    install: Option<string>,
    overwrite: Option<string>,
    useChangesets: Option<string>,
    initializeGit: Option<string>)

  function Prefill(cli: Cli.CliOptions, env: EnvOptions): (p: Prefilled)
    ensures forall q :: GetPreset(p, q) == Coalesce(Cli.Get(cli, QuestionFlag(q)), EnvAnswer(env, q))
  {
    Prefilled(
      Coalesce(cli.name, env.name),
      Coalesce(cli.description, env.description),
      Coalesce(cli.packageManager, env.packageManager),
      Coalesce(cli.install, env.install),
      Coalesce(cli.overwrite, env.overwrite),
      Coalesce(cli.changesets, env.changesets),
      Coalesce(cli.git, env.git))
  }

  /** `useDefaults`: either source can switch defaults mode on. */
  function UseDefaultsMode(cli: Cli.CliOptions, env: EnvOptions): bool {
    cli.useDefaults || env.useDefaults
  }

  /** Defaults mode is on exactly when a defaults switch appears among the
      arguments or `NEXT_TEMP_DEFAULTS` holds a yes word. */
  lemma DefaultsModeOn(args: seq<string>, raw: RawEnv)
    ensures UseDefaultsMode(Cli.Parse(args), ReadEnv(raw))
      <==> Cli.UseDefaults in Cli.Actions(args)
           || (raw.defaults.Some? && Canonical(raw.defaults.value) in YesWords)
  {
    Cli.ParseUseDefaults(args);
  }

  /** `getPreset(key)` */
  function GetPreset(p: Prefilled, q: Question): Option<string> {
    match q
    case ProjectName => p.projectName
    case Description => p.description
    case PackageManagerChoice => p.packageManager
    case Install => p.install
    case Overwrite => p.overwrite
    case UseChangesets => p.useChangesets
    case InitializeGit => p.initializeGit
  }

  /** The flag that answers a question. */
  function QuestionFlag(q: Question): Cli.CliKey {
    match q
    case ProjectName => Cli.Name
    case Description => Cli.Description
    case PackageManagerChoice => Cli.PackageManager
    case Install => Cli.Install
    case Overwrite => Cli.Overwrite
    case UseChangesets => Cli.Changesets
    case InitializeGit => Cli.Git
  }

  /** The environment variable that answers a question. */
  function EnvAnswer(env: EnvOptions, q: Question): Option<string> {
    match q
    case ProjectName => env.name
    case Description => env.description
    case PackageManagerChoice => env.packageManager
    case Install => env.install
    case Overwrite => env.overwrite
    case UseChangesets => env.changesets
    case InitializeGit => env.git
  }

  /** A flag beats the environment; the environment counts only when no
      flag gave a value. */
  lemma PresetPrecedence(cli: Cli.CliOptions, env: EnvOptions, q: Question)
    ensures GetPreset(Prefill(cli, env), q)
      == FirstDefined([Cli.Get(cli, QuestionFlag(q)), EnvAnswer(env, q)])
  {
    var s := [Cli.Get(cli, QuestionFlag(q)), EnvAnswer(env, q)];
    if s[0].None? {
      assert s[1..] == [s[1]];
      assert FirstDefined(s[1..][1..]) == None;
    }
  }

  /** `ask(key, question, defaultValue)` with the user's reply as an input:
      the reply is only read when there is no preset and defaults mode is off. */
  function Ask(preset: Option<string>, useDefaults: bool, defaultValue: string, reply: string): (r: string)
    ensures preset.Some? ==> r == preset.value
    ensures preset.None? && useDefaults ==> r == defaultValue
    ensures preset.None? && !useDefaults ==> r == defaultValue || (r == Trim(reply) && r != "")
  {
    if preset.Some? then preset.value
    else if useDefaults then defaultValue
    else
      var answer := Trim(reply);
      if answer != "" then answer else defaultValue
  }

  function NonEmpty(s: string): Option<string> {
    if s == "" then None else Some(s)
  }

  /** `ask` picks the first defined of: the preset, the default in defaults
      mode, the trimmed reply, the default. */
  lemma AskIsFirstDefined(preset: Option<string>, useDefaults: bool, defaultValue: string, reply: string)
    ensures Some(Ask(preset, useDefaults, defaultValue, reply)) == FirstDefined([
      preset,
      if useDefaults then Some(defaultValue) else None,
      NonEmpty(Trim(reply)),
      Some(defaultValue)])
  {
    var s := [preset, if useDefaults then Some(defaultValue) else None,
              NonEmpty(Trim(reply)), Some(defaultValue)];
    if preset.None? {
      var s1 := s[1..];
      assert FirstDefined(s) == FirstDefined(s1);
      if !useDefaults {
        var s2 := s1[1..];
        assert FirstDefined(s1) == FirstDefined(s2);
        if Trim(reply) == "" {
          assert FirstDefined(s2) == FirstDefined(s2[1..]);
          assert s2[1..] == [Some(defaultValue)];
        }
      }
    }
  }

  /** An interactive answer is never blank unless the default is, and never
      has whitespace at its ends unless the default does. */
  lemma AskTrimsReply(defaultValue: string, reply: string)
    requires defaultValue != "" && Unpadded(defaultValue)
    ensures var r := Ask(None, false, defaultValue, reply); r != "" && Unpadded(r)
  {
  }

  /** Install happens only for a yes-answer: `(normalizeYesNo(a) ?? 'n') === 'y'`. */
  function InstallEnabled(answer: string): (b: bool)
    ensures b <==> Canonical(answer) in YesWords
  {
    NormalizeYesNo(Some(answer)).GetOr("n") == "y"
  }

  /** Changesets are included only for a yes-answer. */
  function ChangesetsEnabled(answer: string): (b: bool)
    ensures b <==> Canonical(answer) in YesWords
  {
    NormalizeYesNo(Some(answer)) == Some("y")
  }

  /** Git is skipped only for a no-answer, so an unrecognised one still
      initialises a repository. */
  function GitEnabled(answer: string): (b: bool)
    ensures !b <==> Canonical(answer) in NoWords
  {
    NormalizeYesNo(Some(answer)) != Some("n")
  }

  /** A non-empty target is cleared only for a yes-answer. */
  function OverwriteConfirmed(answer: string): (b: bool)
    ensures b <==> Canonical(answer) in YesWords
  {
    NormalizeYesNo(Some(answer)) == Some("y")
  }

  /** The user's replies to the prompts, one per question. */
  datatype Replies = Replies(
    projectName: string,
    description: string,
    packageManager: string,
    install: string,
    changesets: string,
    git: string)

  /** What `main` settles before touching the filesystem. */
  datatype Answers = Answers(
    projectName: string,
    description: string,
    packageManager: string,
    shouldInstall: bool,
    includeChangesets: bool,
    shouldInitializeGit: bool)

  const DefaultProjectName := "my-next-temp-app"
  const DefaultDescription := "A fresh Next.js starter built with next-temp"

  /** The questions of `main`, in order, and the decisions taken on them. */
  function Collect(p: Prefilled, useDefaults: bool, replies: Replies): (a: Answers)
    ensures a.projectName == Ask(p.projectName, useDefaults, DefaultProjectName, replies.projectName)
    ensures a.description == Ask(p.description, useDefaults, DefaultDescription, replies.description)
    ensures a.packageManager in PackageManager.PackageManagers
    ensures a.packageManager
      == PackageManager.NormalizePackageManager(Ask(p.packageManager, useDefaults, "pnpm", replies.packageManager))
    ensures a.shouldInstall <==> Canonical(Ask(p.install, useDefaults, "n", replies.install)) in YesWords
    ensures a.includeChangesets
      <==> Canonical(Ask(p.useChangesets, useDefaults, "n", replies.changesets)) in YesWords
    ensures !a.shouldInitializeGit
      <==> Canonical(Ask(p.initializeGit, useDefaults, "y", replies.git)) in NoWords
  {
    var projectName := Ask(p.projectName, useDefaults, DefaultProjectName, replies.projectName);
    var description := Ask(p.description, useDefaults, DefaultDescription, replies.description);
    var packageManagerAnswer := Ask(p.packageManager, useDefaults, "pnpm", replies.packageManager);
    var packageManager := PackageManager.NormalizePackageManager(packageManagerAnswer);
    var installAnswer := Ask(p.install, useDefaults, "n", replies.install);
    var changesetsAnswer := Ask(p.useChangesets, useDefaults, "n", replies.changesets);
    var gitAnswer := Ask(p.initializeGit, useDefaults, "y", replies.git);
    Answers(projectName, description, packageManager,
      InstallEnabled(installAnswer), ChangesetsEnabled(changesetsAnswer), GitEnabled(gitAnswer))
  }

  const NoPresets := Prefilled(None, None, None, None, None, None, None)

  /** In defaults mode with no presets every answer is its documented
      default, whatever the replies: no install, no Changesets, git on. */
  lemma DefaultsModeAnswers(replies: Replies)
    ensures Collect(NoPresets, true, replies)
      == Answers(DefaultProjectName, DefaultDescription, "pnpm", false, false, true)
  {
    DefaultDecisions();
  }

  /** How the defaults of the last four questions are decided. */
  lemma DefaultDecisions()
    ensures PackageManager.NormalizePackageManager("pnpm") == "pnpm"
    ensures !InstallEnabled("n") && !ChangesetsEnabled("n") && GitEnabled("y")
  {
    PackageManager.CanonicalOfManager("pnpm");
    NoByDefault();
    GitByDefault();
  }

  lemma NoByDefault()
    ensures !InstallEnabled("n") && !ChangesetsEnabled("n")
  {
    CanonicalOfLetter("n");
    assert "n" !in YesWords;
  }

  lemma GitByDefault()
    ensures GitEnabled("y")
  {
    CanonicalOfLetter("y");
    assert "y" !in NoWords;
  }

  /** In defaults mode the replies are never consulted. */
  lemma DefaultsModeIgnoresReplies(p: Prefilled, r1: Replies, r2: Replies)
    ensures Collect(p, true, r1) == Collect(p, true, r2)
  {
    assert Ask(p.projectName, true, DefaultProjectName, r1.projectName)
        == Ask(p.projectName, true, DefaultProjectName, r2.projectName);
    assert Ask(p.description, true, DefaultDescription, r1.description)
        == Ask(p.description, true, DefaultDescription, r2.description);
    assert Ask(p.packageManager, true, "pnpm", r1.packageManager)
        == Ask(p.packageManager, true, "pnpm", r2.packageManager);
    assert Ask(p.install, true, "n", r1.install) == Ask(p.install, true, "n", r2.install);
    assert Ask(p.useChangesets, true, "n", r1.changesets) == Ask(p.useChangesets, true, "n", r2.changesets);
    assert Ask(p.initializeGit, true, "y", r1.git) == Ask(p.initializeGit, true, "y", r2.git);
  }

  /** With nothing preset, an unrecognised package manager falls back to the
      first supported one. */
  lemma UnknownPackageManagerFallsBack(p: Prefilled, replies: Replies)
    requires p.packageManager.None?
    requires Canonical(replies.packageManager) !in PackageManager.PackageManagers
    requires Trim(replies.packageManager) != ""
    ensures Collect(p, false, replies).packageManager == "pnpm"
  {
    var answer := Ask(p.packageManager, false, "pnpm", replies.packageManager);
    assert answer == Trim(replies.packageManager);
    TrimIdempotent(replies.packageManager);
    assert Canonical(answer) == Canonical(replies.packageManager);
    assert PackageManager.NormalizePackageManager(answer) == PackageManager.PackageManagers[0];
  }
}
