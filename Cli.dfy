/** Command-line flags (`parseCliArgs`). */
module Cli {
  import opened Wrappers
  import opened Strings
  import opened YesNo

  /** The string-valued keys of the parsed option object. */
  datatype CliKey = Overwrite | Install | Name | Description | PackageManager | Changesets | Git

  /** The object `parseCliArgs` returns. `useDefaults` is either set to true
      or absent, so it is a plain boolean; every other key is a string or
      absent. */
  datatype CliOptions = CliOptions(
    useDefaults: bool,
    overwrite: Option<string>,
    install: Option<string>,
    name: Option<string>,
    description: Option<string>,
    packageManager: Option<string>,
    changesets: Option<string>,
    git: Option<string>)

  const NoOptions := CliOptions(false, None, None, None, None, None, None, None)

  function Get(o: CliOptions, k: CliKey): Option<string> {
    match k
    case Overwrite => o.overwrite
    case Install => o.install
    case Name => o.name
    case Description => o.description
    case PackageManager => o.packageManager
    case Changesets => o.changesets
    case Git => o.git
  }

  function Put(o: CliOptions, k: CliKey, v: string): (r: CliOptions)
    ensures Get(r, k) == Some(v)
    ensures forall k' :: k' != k ==> Get(r, k') == Get(o, k')
    ensures r.useDefaults == o.useDefaults
  {
    match k
    case Overwrite => o.(overwrite := Some(v))
    case Install => o.(install := Some(v))
    case Name => o.(name := Some(v))
    case Description => o.(description := Some(v))
    case PackageManager => o.(packageManager := Some(v))
    case Changesets => o.(changesets := Some(v))
    case Git => o.(git := Some(v))
  }

  /** What one flag (with its value, if it takes one) does to the options. */
  datatype Action = UseDefaults | Assign(key: CliKey, value: string) | Ignore

  /** One flag together with the tokens it consumed. */
  datatype Step = Step(tokens: seq<string>, action: Action)

  /** Flags whose value is the next token, whenever there is one. */
  const ValueFlags: set<string> := {
    "--install", "--with-install", "--name", "--project-name", "--description", "--desc",
    "--package-manager", "--pm", "--changesets", "--git" }

  /** Value flags whose value is read as a yes/no answer, an unrecognised one
      counting as yes. */
  const YesNoValueFlags: set<string> := { "--install", "--with-install", "--changesets", "--git" }

  function ValueFlagKey(flag: string): CliKey
    requires flag in ValueFlags
  {
    if flag == "--install" || flag == "--with-install" then Install
    else if flag == "--name" || flag == "--project-name" then Name
    else if flag == "--description" || flag == "--desc" then Description
    else if flag == "--package-manager" || flag == "--pm" then PackageManager
    else if flag == "--changesets" then Changesets
    else Git
  }

  /** The answer a yes/no value flag records: `normalizeYesNo(v) ?? 'y'`. */
  function ValueAnswer(v: string): (r: string)
    ensures r == "y" || r == "n"
    ensures r == "n" <==> Canonical(v) in NoWords
  {
    NormalizeYesNo(Some(v)).GetOr("y")
  }

  /** What a token does when it consumes nothing: a switch, a value flag with
      no token after it, or an unknown token. */
  function SwitchAction(token: string): Action {
    if token in {"--defaults", "--yes", "-y"} then UseDefaults
    else if token in {"--force", "-f"} then Assign(Overwrite, "y")
    else if token == "--skip-install" then Assign(Install, "n")
    else if token in {"--changesets", "--with-changesets"} then Assign(Changesets, "y")
    else if token == "--no-changesets" then Assign(Changesets, "n")
    else if token in {"--git", "--git-init"} then Assign(Git, "y")
    else if token == "--no-git" then Assign(Git, "n")
    else Ignore
  }

  /** The value a value flag records for the token after it. */
  function FlagValue(flag: string, v: string): string {
    if flag in YesNoValueFlags then ValueAnswer(v) else v
  }

  /** The step taken at the front of `args`: a value flag with a token after
      it consumes that token, anything else is a step of its own. */
  function StepOf(args: seq<string>): (st: Step)
    requires |args| > 0
    ensures 1 <= |st.tokens| <= 2 && |st.tokens| <= |args| && st.tokens == args[..|st.tokens|]
  {
    if args[0] in ValueFlags && 1 < |args| then
      Step(args[..2], Assign(ValueFlagKey(args[0]), FlagValue(args[0], args[1])))
    else
      Step([args[0]], SwitchAction(args[0]))
  }

  /** The argument list cut into steps from the front. */
  function Steps(args: seq<string>): seq<Step>
    decreases |args|
  {
    if |args| == 0 then [] else
      var st := StepOf(args);
      [st] + Steps(args[|st.tokens|..])
  }

  function Flatten(steps: seq<Step>): seq<string> {
    if |steps| == 0 then [] else steps[0].tokens + Flatten(steps[1..])
  }

  function ActionsOf(steps: seq<Step>): (acts: seq<Action>)
    ensures |acts| == |steps|
  {
    if |steps| == 0 then [] else [steps[0].action] + ActionsOf(steps[1..])
  }

  function Actions(args: seq<string>): seq<Action> {
    ActionsOf(Steps(args))
  }

  function ApplyAction(o: CliOptions, a: Action): CliOptions {
    match a
    case UseDefaults => o.(useDefaults := true)
    case Assign(k, v) => Put(o, k, v)
    case Ignore => o
  }

  /** The actions applied in order, from left to right. */
  function ApplyAll(o: CliOptions, acts: seq<Action>): CliOptions
    decreases |acts|
  {
    if |acts| == 0 then o else ApplyAll(ApplyAction(o, acts[0]), acts[1..])
  }

  /** How the switches the source tests for are classified. */
  lemma SwitchFlags()
    ensures "--defaults" !in ValueFlags && SwitchAction("--defaults") == UseDefaults
    ensures "--yes" !in ValueFlags && SwitchAction("--yes") == UseDefaults
    ensures "-y" !in ValueFlags && SwitchAction("-y") == UseDefaults
    ensures "--force" !in ValueFlags && SwitchAction("--force") == Assign(Overwrite, "y")
    ensures "-f" !in ValueFlags && SwitchAction("-f") == Assign(Overwrite, "y")
    ensures "--skip-install" !in ValueFlags && SwitchAction("--skip-install") == Assign(Install, "n")
    ensures "--with-changesets" !in ValueFlags && SwitchAction("--with-changesets") == Assign(Changesets, "y")
    ensures "--no-changesets" !in ValueFlags && SwitchAction("--no-changesets") == Assign(Changesets, "n")
    ensures "--git-init" !in ValueFlags && SwitchAction("--git-init") == Assign(Git, "y")
    ensures "--no-git" !in ValueFlags && SwitchAction("--no-git") == Assign(Git, "n")
  {
  }

  /** How the value flags the source tests for are classified. */
  lemma ValueFlagTable()
    ensures "--install" in ValueFlags && ValueFlagKey("--install") == Install && "--install" in YesNoValueFlags && SwitchAction("--install") == Ignore
    ensures "--with-install" in ValueFlags && ValueFlagKey("--with-install") == Install && "--with-install" in YesNoValueFlags && SwitchAction("--with-install") == Ignore
    ensures "--name" in ValueFlags && ValueFlagKey("--name") == Name && "--name" !in YesNoValueFlags && SwitchAction("--name") == Ignore
    ensures "--project-name" in ValueFlags && ValueFlagKey("--project-name") == Name && "--project-name" !in YesNoValueFlags && SwitchAction("--project-name") == Ignore
    ensures "--description" in ValueFlags && ValueFlagKey("--description") == Description && "--description" !in YesNoValueFlags && SwitchAction("--description") == Ignore
    ensures "--desc" in ValueFlags && ValueFlagKey("--desc") == Description && "--desc" !in YesNoValueFlags && SwitchAction("--desc") == Ignore
    ensures "--package-manager" in ValueFlags && ValueFlagKey("--package-manager") == PackageManager && "--package-manager" !in YesNoValueFlags && SwitchAction("--package-manager") == Ignore
    ensures "--pm" in ValueFlags && ValueFlagKey("--pm") == PackageManager && "--pm" !in YesNoValueFlags && SwitchAction("--pm") == Ignore
    ensures "--changesets" in ValueFlags && ValueFlagKey("--changesets") == Changesets && "--changesets" in YesNoValueFlags && SwitchAction("--changesets") == Assign(Changesets, "y")
    ensures "--git" in ValueFlags && ValueFlagKey("--git") == Git && "--git" in YesNoValueFlags && SwitchAction("--git") == Assign(Git, "y")
  {
  }

  /** The arguments parsed on top of already parsed options, one step at a
      time from the front. */
  function ParseOnto(o: CliOptions, args: seq<string>): CliOptions
    decreases |args|
  {
    if |args| == 0 then o else
      var st := StepOf(args);
      ParseOnto(ApplyAction(o, st.action), args[|st.tokens|..])
  }

  /** The options `parseCliArgs(args)` returns. */
  function Parse(args: seq<string>): CliOptions {
    ParseOnto(NoOptions, args)
  }

  /** The value last assigned to `k` by `acts`, if any: an independent
      statement of "a later flag overwrites an earlier one". */
  function LastAssigned(acts: seq<Action>, k: CliKey): Option<string>
    decreases |acts|
  {
    if |acts| == 0 then None
    else match acts[|acts| - 1]
      case Assign(k', v) => if k' == k then Some(v) else LastAssigned(acts[..|acts| - 1], k)
      case _ => LastAssigned(acts[..|acts| - 1], k)
  }

  /** The step at index `i`, read off `args[i]` and `args[i + 1]`. */
  lemma StepAt(args: seq<string>, i: nat)
    requires i < |args|
    ensures args[i] in ValueFlags && i + 1 < |args| ==>
      StepOf(args[i..]) == Step([args[i], args[i + 1]], Assign(ValueFlagKey(args[i]), FlagValue(args[i], args[i + 1])))
    ensures !(args[i] in ValueFlags && i + 1 < |args|) ==>
      StepOf(args[i..]) == Step([args[i]], SwitchAction(args[i]))
  {
    assert args[i..][0] == args[i];
    if i + 1 < |args| {
      assert args[i..][..2] == [args[i], args[i + 1]];
    }
  }

  /** One pass of the loop body of `parseCliArgs` at index `i`: the
      switches tested first. */
  method TakeStep(args: seq<string>, i: nat, result: CliOptions) returns (next: CliOptions, width: nat)
    requires i < |args|
    ensures next == ApplyAction(result, StepOf(args[i..]).action)
    ensures width == |StepOf(args[i..]).tokens|
  {
    var arg := args[i];
    StepAt(args, i);
    if arg == "--defaults" || arg == "--yes" || arg == "-y" {
      SwitchFlags();
      next, width := result.(useDefaults := true), 1;
    } else if arg == "--force" || arg == "-f" {
      SwitchFlags();
      next, width := result.(overwrite := Some("y")), 1;
    } else if arg == "--skip-install" {
      SwitchFlags();
      next, width := result.(install := Some("n")), 1;
    } else {
      next, width := TakeValueStep(args, i, result);
    }
  }

  /** The loop body continued: `--install` with its value. */
  method TakeValueStep(args: seq<string>, i: nat, result: CliOptions) returns (next: CliOptions, width: nat)
    requires i < |args|
    requires args[i] !in {"--defaults", "--yes", "-y", "--force", "-f", "--skip-install"}
    ensures next == ApplyAction(result, StepOf(args[i..]).action)
    ensures width == |StepOf(args[i..]).tokens|
  {
    var arg := args[i];
    if (arg == "--install" || arg == "--with-install") && i + 1 < |args| {
      StepAt(args, i);
      assert arg in ValueFlags && arg in YesNoValueFlags;
      assert ValueFlagKey(arg) == Install;
      next, width := result.(install := Some(ValueAnswer(args[i + 1]))), 2;
    } else {
      next, width := TakeTextStep(args, i, result);
    }
  }

  /** The loop body continued: the text-valued flags that consume a value. */
  method TakeTextStep(args: seq<string>, i: nat, result: CliOptions) returns (next: CliOptions, width: nat)
    requires i < |args|
    requires args[i] !in {"--defaults", "--yes", "-y", "--force", "-f", "--skip-install"}
    requires args[i] in {"--install", "--with-install"} ==> i + 1 == |args|
    ensures next == ApplyAction(result, StepOf(args[i..]).action)
    ensures width == |StepOf(args[i..]).tokens|
  {
    var arg := args[i];
    StepAt(args, i);
    if (arg == "--name" || arg == "--project-name") && i + 1 < |args| {
      ValueFlagTable();
      next, width := result.(name := Some(args[i + 1])), 2;
    } else if (arg == "--description" || arg == "--desc") && i + 1 < |args| {
      ValueFlagTable();
      next, width := result.(description := Some(args[i + 1])), 2;
    } else if (arg == "--package-manager" || arg == "--pm") && i + 1 < |args| {
      ValueFlagTable();
      next, width := result.(packageManager := Some(args[i + 1])), 2;
    } else {
      next, width := TakeLastSteps(args, i, result);
    }
  }

  /** The loop body continued: the Changesets and git flags, then anything
      else, which changes nothing. */
  method TakeLastSteps(args: seq<string>, i: nat, result: CliOptions) returns (next: CliOptions, width: nat)
    requires i < |args|
    requires args[i] !in {"--defaults", "--yes", "-y", "--force", "-f", "--skip-install"}
    requires (args[i] in {"--install", "--with-install", "--name", "--project-name",
                          "--description", "--desc", "--package-manager", "--pm"}) ==> i + 1 == |args|
    ensures next == ApplyAction(result, StepOf(args[i..]).action)
    ensures width == |StepOf(args[i..]).tokens|
  {
    var arg := args[i];
    StepAt(args, i);
    next, width := result, 1;
    if arg == "--changesets" && i + 1 < |args| {
      ValueFlagTable();
      next, width := next.(changesets := Some(ValueAnswer(args[i + 1]))), 2;
    } else if arg == "--changesets" {
      ValueFlagTable();
      next := next.(changesets := Some("y"));
    } else if arg == "--with-changesets" {
      SwitchFlags();
      next := next.(changesets := Some("y"));
    } else if arg == "--no-changesets" {
      SwitchFlags();
      next := next.(changesets := Some("n"));
    } else if arg == "--git" && i + 1 < |args| {
      ValueFlagTable();
      next, width := next.(git := Some(ValueAnswer(args[i + 1]))), 2;
    } else if arg == "--git" {
      ValueFlagTable();
      next := next.(git := Some("y"));
    } else if arg == "--git-init" {
      SwitchFlags();
      next := next.(git := Some("y"));
    } else if arg == "--no-git" {
      SwitchFlags();
      next := next.(git := Some("n"));
    } else {
      ValueFlagTable();
      assert SwitchAction(arg) == Ignore;
    }
  }

  /** `parseCliArgs`: an index loop that takes one or two tokens per turn. */
  method ParseCliArgs(args: seq<string>) returns (result: CliOptions)
    ensures result == Parse(args)
  {
    result := NoOptions;
    var i := 0;
    while i < |args|
      invariant 0 <= i <= |args|
      invariant ParseOnto(result, args[i..]) == Parse(args)
      decreases |args| - i
    {
      ParseStepAt(result, args, i);
      var width;
      result, width := TakeStep(args, i, result);
      i := i + width;
    }
  }

  /** One turn of the loop of `parseCliArgs` in terms of `ParseOnto`. */
  lemma ParseStepAt(o: CliOptions, args: seq<string>, i: nat)
    requires i < |args|
    ensures 1 <= |StepOf(args[i..]).tokens| && i + |StepOf(args[i..]).tokens| <= |args|
    ensures ParseOnto(o, args[i..])
      == ParseOnto(ApplyAction(o, StepOf(args[i..]).action), args[i + |StepOf(args[i..]).tokens|..])
  {
    var st := StepOf(args[i..]);
    ParseOntoUnfold(o, args[i..]);
    SliceOfSlice(args, i, |st.tokens|);
  }

  lemma SliceOfSlice(s: seq<string>, i: nat, w: nat)
    requires i + w <= |s|
    ensures s[i..][w..] == s[i + w..]
  {
  }

  lemma ParseOntoUnfold(o: CliOptions, args: seq<string>)
    requires |args| > 0
    ensures ParseOnto(o, args)
      == ParseOnto(ApplyAction(o, StepOf(args).action), args[|StepOf(args).tokens|..])
  {
  }

  /** Parsing applies the actions of the steps, from left to right. */
  lemma {:induction false} ParseOntoApplyAll(o: CliOptions, args: seq<string>)
    ensures ParseOnto(o, args) == ApplyAll(o, Actions(args))
    decreases |args|
  {
    if |args| > 0 {
      var st := StepOf(args);
      var rest := args[|st.tokens|..];
      ParseOntoApplyAll(ApplyAction(o, st.action), rest);
      StepsCons(args, st, rest);
      assert ([st] + Steps(rest))[1..] == Steps(rest);
      var acts := ActionsOf(Steps(rest));
      assert ([st.action] + acts)[1..] == acts;
    }
  }

  /** Every token is consumed exactly once, in order: as a flag or as the
      value of the flag before it. */
  lemma {:induction false} StepsCoverArgs(args: seq<string>)
    ensures Flatten(Steps(args)) == args
    decreases |args|
  {
    if |args| > 0 {
      var st := StepOf(args);
      var rest := args[|st.tokens|..];
      StepsCoverArgs(rest);
      StepsCons(args, st, rest);
      FlattenCons(st, Steps(rest));
      SplitAt(args, |st.tokens|);
    }
  }

  lemma FlattenCons(st: Step, rest: seq<Step>)
    ensures Flatten([st] + rest) == st.tokens + Flatten(rest)
  {
    assert ([st] + rest)[1..] == rest;
  }

  lemma SplitAt(s: seq<string>, w: nat)
    requires w <= |s|
    ensures s == s[..w] + s[w..]
  {
  }

  lemma {:induction false} ApplyAllSnoc(o: CliOptions, acts: seq<Action>, a: Action)
    ensures ApplyAll(o, acts + [a]) == ApplyAction(ApplyAll(o, acts), a)
    decreases |acts|
  {
    if |acts| == 0 {
      assert acts + [a] == [a];
      assert [a][1..] == [];
    } else {
      assert (acts + [a])[1..] == acts[1..] + [a];
      ApplyAllSnoc(ApplyAction(o, acts[0]), acts[1..], a);
    }
  }

  /** Applying the actions left to right leaves each key with the value of
      the last action that assigned it, or with its earlier value when none
      did. */
  lemma {:induction false} LastWriteWins(o: CliOptions, acts: seq<Action>, k: CliKey)
    ensures LastAssigned(acts, k).Some? ==> Get(ApplyAll(o, acts), k) == LastAssigned(acts, k)
    ensures LastAssigned(acts, k).None? ==> Get(ApplyAll(o, acts), k) == Get(o, k)
    decreases |acts|
  {
    if |acts| > 0 {
      var init, last := acts[..|acts| - 1], acts[|acts| - 1];
      assert acts == init + [last];
      ApplyAllSnoc(o, init, last);
      LastWriteWins(o, init, k);
    }
  }

  /** The parsed value of a key is the value of the last step assigning it. */
  lemma ParseLastWriteWins(args: seq<string>, k: CliKey)
    ensures Get(Parse(args), k) == LastAssigned(Actions(args), k)
  {
    ParseOntoApplyAll(NoOptions, args);
    LastWriteWins(NoOptions, Actions(args), k);
  }

  lemma {:induction false} UseDefaultsSticks(o: CliOptions, acts: seq<Action>)
    ensures ApplyAll(o, acts).useDefaults <==> o.useDefaults || UseDefaults in acts
    decreases |acts|
  {
    if |acts| > 0 {
      UseDefaultsSticks(ApplyAction(o, acts[0]), acts[1..]);
      assert acts == [acts[0]] + acts[1..];
    }
  }

  /** Defaults mode is on exactly when some step was `--defaults`, `--yes`
      or `-y`. */
  lemma ParseUseDefaults(args: seq<string>)
    ensures Parse(args).useDefaults <==> UseDefaults in Actions(args)
  {
    ParseOntoApplyAll(NoOptions, args);
    UseDefaultsSticks(NoOptions, Actions(args));
  }

  /** An unknown token is one step on its own and changes nothing. */
  lemma UnknownTokenIgnored(o: CliOptions, u: string, rest: seq<string>)
    requires SwitchAction(u) == Ignore && u !in ValueFlags
    ensures ParseOnto(o, [u] + rest) == ParseOnto(o, rest)
  {
    ParseOntoUnfold(o, [u] + rest);
    assert ([u] + rest)[1..] == rest;
  }

  /** A value flag with a token after it records that token (read as a
      yes/no answer for the yes/no flags) and parsing resumes after it, even
      when the token looks like a flag itself. */
  lemma ValueFlagConsumes(o: CliOptions, flag: string, v: string, rest: seq<string>)
    requires flag in ValueFlags
    ensures ParseOnto(o, [flag, v] + rest) == ParseOnto(Put(o, ValueFlagKey(flag), FlagValue(flag, v)), rest)
    ensures flag in YesNoValueFlags ==> (FlagValue(flag, v) == "n" <==> Canonical(v) in NoWords)
    ensures flag in YesNoValueFlags ==> FlagValue(flag, v) in {"y", "n"}
    ensures flag !in YesNoValueFlags ==> FlagValue(flag, v) == v
  {
    ParseOntoUnfold(o, [flag, v] + rest);
    assert ([flag, v] + rest)[2..] == rest;
  }

  /** A token that takes no value is one step on its own. */
  lemma SwitchStep(o: CliOptions, token: string, rest: seq<string>)
    requires token !in ValueFlags
    ensures ParseOnto(o, [token] + rest) == ParseOnto(ApplyAction(o, SwitchAction(token)), rest)
  {
    ParseOntoUnfold(o, [token] + rest);
    assert ([token] + rest)[1..] == rest;
  }

  /** A value flag left without a value at the end: `--changesets` and
      `--git` still answer yes, `--install`, `--name` and the other value
      flags change nothing. */
  lemma TrailingValueFlag(o: CliOptions, flag: string)
    requires flag in ValueFlags
    ensures flag == "--changesets" ==> ParseOnto(o, [flag]) == Put(o, Changesets, "y")
    ensures flag == "--git" ==> ParseOnto(o, [flag]) == Put(o, Git, "y")
    ensures flag != "--changesets" && flag != "--git" ==> ParseOnto(o, [flag]) == o
  {
    ParseOntoUnfold(o, [flag]);
    ValueFlagTable();
    assert ParseOnto(ApplyAction(o, SwitchAction(flag)), []) == ApplyAction(o, SwitchAction(flag));
  }

  /** `args` does not end in a value flag waiting for its value, so what
      follows it cannot be swallowed. */
  predicate Closed(args: seq<string>) {
    forall st :: st in Steps(args) ==> !(|st.tokens| == 1 && st.tokens[0] in ValueFlags)
  }

  /** A first step that is not a bare value flag does not look past `a`. */
  lemma StepOfExtend(a: seq<string>, b: seq<string>)
    requires |a| > 0
    requires !(|StepOf(a).tokens| == 1 && a[0] in ValueFlags)
    ensures StepOf(a + b) == StepOf(a)
  {
    assert (a + b)[0] == a[0];
    if a[0] in ValueFlags {
      assert (a + b)[1] == a[1];
      assert (a + b)[..2] == a[..2];
    }
  }

  lemma ClosedTail(a: seq<string>)
    requires |a| > 0 && Closed(a)
    ensures Closed(a[|StepOf(a).tokens|..])
    ensures !(|StepOf(a).tokens| == 1 && a[0] in ValueFlags)
  {
    var st := StepOf(a);
    var tail := a[|st.tokens|..];
    assert Steps(a) == [st] + Steps(tail);
    assert st in Steps(a);
    forall s' | s' in Steps(tail) ensures !(|s'.tokens| == 1 && s'.tokens[0] in ValueFlags) {
      assert s' in Steps(a);
    }
  }

  lemma {:induction false} StepsAppend(a: seq<string>, b: seq<string>)
    requires Closed(a)
    ensures Steps(a + b) == Steps(a) + Steps(b)
    decreases |a|
  {
    if |a| == 0 {
      assert a + b == b;
    } else {
      var st := StepOf(a);
      var w := |st.tokens|;
      ClosedTail(a);
      StepsAppend(a[w..], b);
      StepOfExtend(a, b);
      SliceAppend(a, b, w);
      StepsCons(a + b, st, a[w..] + b);
      StepsCons(a, st, a[w..]);
      ConsShift(st, Steps(a + b), Steps(a), Steps(a[w..]), Steps(b), Steps(a[w..] + b));
    }
  }

  /** Dropping a prefix of `a` from `a + b`. */
  lemma SliceAppend(a: seq<string>, b: seq<string>, w: nat)
    requires w <= |a|
    ensures (a + b)[w..] == a[w..] + b
  {
  }

  /** One step of `Steps`, with the step and the rest named by the caller. */
  lemma StepsCons(args: seq<string>, st: Step, rest: seq<string>)
    requires |args| > 0 && st == StepOf(args) && rest == args[|st.tokens|..]
    ensures Steps(args) == [st] + Steps(rest)
  {
  }

  /** The sequence algebra closing the inductive step of `StepsAppend`. */
  lemma ConsShift(st: Step, sab: seq<Step>, sa: seq<Step>, x: seq<Step>, y: seq<Step>, xy: seq<Step>)
    requires sab == [st] + xy && sa == [st] + x && xy == x + y
    ensures sab == sa + y
  {
  }

  lemma {:induction false} ActionsOfAppend(x: seq<Step>, y: seq<Step>)
    ensures ActionsOf(x + y) == ActionsOf(x) + ActionsOf(y)
    decreases |x|
  {
    if |x| == 0 {
      assert x + y == y;
    } else {
      assert (x + y)[1..] == x[1..] + y;
      ActionsOfAppend(x[1..], y);
    }
  }

  lemma {:induction false} ApplyAllAppend(o: CliOptions, x: seq<Action>, y: seq<Action>)
    ensures ApplyAll(o, x + y) == ApplyAll(ApplyAll(o, x), y)
    decreases |x|
  {
    if |x| == 0 {
      assert x + y == y;
    } else {
      assert (x + y)[1..] == x[1..] + y;
      ApplyAllAppend(ApplyAction(o, x[0]), x[1..], y);
    }
  }

  /** After a closed prefix, parsing carries on from the options that prefix
      produced. */
  lemma ParseAppend(a: seq<string>, b: seq<string>)
    requires Closed(a)
    ensures Parse(a + b) == ParseOnto(Parse(a), b)
  {
    StepsAppend(a, b);
    ActionsOfAppend(Steps(a), Steps(b));
    ApplyAllAppend(NoOptions, Actions(a), Actions(b));
    ParseOntoApplyAll(NoOptions, a + b);
    ParseOntoApplyAll(NoOptions, a);
    ParseOntoApplyAll(Parse(a), b);
  }

  /** An unknown token that a flag does not consume can be dropped. */
  lemma UnknownTokenDropped(a: seq<string>, u: string, b: seq<string>)
    requires Closed(a)
    requires SwitchAction(u) == Ignore && u !in ValueFlags
    ensures Parse(a + [u] + b) == Parse(a + b)
  {
    var x := Parse(a);
    assert a + [u] + b == a + ([u] + b);
    ParseAppend(a, [u] + b);
    assert Parse(a + [u] + b) == ParseOnto(x, [u] + b);
    UnknownTokenIgnored(x, u, b);
    assert ParseOnto(x, [u] + b) == ParseOnto(x, b);
    ParseAppend(a, b);
  }
}
