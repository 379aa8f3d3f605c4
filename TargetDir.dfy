/** `ensureTargetDir`: make the destination exist and be empty, or abort. */
module TargetDir {
  import opened Wrappers
  import opened FileTree
  import opened Answers

  datatype TargetOutcome = Created | AlreadyEmpty | Cleared | Aborted(exitCode: int)

  /** `target` is `None` when the directory does not exist, else what it
      holds. The overwrite question goes through `ask` with default `n`;
      `reply` is what the user would type. */
  method EnsureTargetDir(target: Option<Tree>, overwritePreset: Option<string>, useDefaults: bool, reply: string)
    returns (outcome: TargetOutcome, contents: Tree)
    requires target.Some? ==> Valid(target.value)
    ensures target.None? ==> outcome == Created && contents == map[]
    ensures target == Some(map[]) ==> outcome == AlreadyEmpty && contents == map[]
    ensures target.Some? && target.value != map[] ==>
      (outcome == Cleared <==> OverwriteConfirmed(Ask(overwritePreset, useDefaults, "n", reply)))
      && (outcome.Cleared? || outcome.Aborted?)
    ensures outcome.Aborted? ==> outcome.exitCode == 1 && target.Some? && contents == target.value
    ensures outcome.Cleared? ==> contents == map[]
  {
    if target.None? {
      return Created, map[];
    }
    contents := target.value;
    var entries := TopLevel(contents);
    if entries == {} {
      assert forall p :: p in contents ==> p[0] in entries;
      assert contents.Keys == {};
      return AlreadyEmpty, contents;
    }
    assert contents != map[];
    var overwrite := Ask(overwritePreset, useDefaults, "n", reply);
    if !OverwriteConfirmed(overwrite) {
      return Aborted(1), contents;
    }
    contents := ClearEntries(contents);
    outcome := Cleared;
  }

  /** The loop of `ensureTargetDir` over the listed entries, removing each
      recursively. */
  method ClearEntries(t: Tree) returns (contents: Tree)
    requires Valid(t)
    ensures contents == map[]
  {
    contents := t;
    var entries := TopLevel(t);
    while entries != {}
      invariant forall p :: p in contents ==> |p| > 0 && p[0] in entries
      decreases entries
    {
      var entry :| entry in entries;
      contents := RemoveTree(contents, [entry]);
      entries := entries - {entry};
    }
    assert contents.Keys == {};
  }
}
