/** Which template entries are copied (`shouldCopy`, `copyTemplate`). */
module CopyFilter {
  import opened Wrappers
  import opened FileTree

  const ExcludedTopLevels: set<string> := {".git", ".next", "node_modules", ".changeset"}

  /** The generator script, relative to the template root. */
  const GeneratorScript: Path := ["scripts", "create-template.mjs"]

  /** `shouldCopy`, on the path of a source relative to the template root:
      the root itself and anything outside it are copied; an excluded
      top-level entry and the generator script are not. */
  function ShouldCopy(rel: Path): (b: bool)
    ensures rel == [] || rel[0] == ".." ==> b
    ensures rel != [] && rel[0] != ".." ==> (b <==> rel[0] !in ExcludedTopLevels && rel != GeneratorScript)
  {
    if rel == [] || rel[0] == ".." then true
    else
      var topLevel := rel[0];
      if topLevel in ExcludedTopLevels then false
      else if rel == GeneratorScript then false
      else true
  }

  /** The source is the destination or lies inside it, compared as the
      strings `resolvedSource` and `${resolvedDestination}/`. For the root
      destination that string is `//`, which no resolved path starts with. */
  predicate IsDestinationOrInside(source: Path, destination: Path) {
    source == destination
    || (|destination| > 0 && |destination| < |source| && source[..|destination|] == destination)
  }

  /** The test `copyTemplate` applies to each entry of the template root. */
  predicate KeepEntry(root: Path, destination: Path, entry: string) {
    !IsDestinationOrInside(root + [entry], destination) && ShouldCopy([entry])
  }

  /** The entries `copyTemplate` copies, in listing order. */
  function SelectEntries(root: Path, destination: Path, entries: seq<string>): (selected: seq<string>)
    ensures |selected| <= |entries|
  {
    if |entries| == 0 then []
    else
      var rest := SelectEntries(root, destination, entries[..|entries| - 1]);
      var e := entries[|entries| - 1];
      if KeepEntry(root, destination, e) then rest + [e] else rest
  }

  /** `cp`'s filter is asked about every source before it is copied, so a
      path is copied only when it and every directory above it pass. */
  predicate PassesFilter(p: Path) {
    forall k :: 1 <= k <= |p| ==> ShouldCopy(p[..k])
  }

  /** What `cp(templateRoot/entry, destination/entry, { recursive, filter })`
      copies. */
  function CopyEntry(template: Tree, entry: string): Tree {
    map p | p in template && |p| > 0 && p[0] == entry && PassesFilter(p) :: template[p]
  }

  /** Everything copied for the selected entries. */
  function Copied(template: Tree, selected: seq<string>): Tree {
    map p | p in template && |p| > 0 && p[0] in selected && PassesFilter(p) :: template[p]
  }

  lemma CopiedSnoc(template: Tree, selected: seq<string>, e: string)
    ensures Copied(template, selected + [e]) == Copied(template, selected) + CopyEntry(template, e)
  {
    var a, b := Copied(template, selected + [e]), Copied(template, selected) + CopyEntry(template, e);
    assert forall p :: p in a <==> p in b;
    assert a.Keys == b.Keys;
  }

  lemma SelectEntriesStep(root: Path, destination: Path, entries: seq<string>, i: nat)
    requires i < |entries|
    ensures SelectEntries(root, destination, entries[..i + 1])
      == if KeepEntry(root, destination, entries[i])
         then SelectEntries(root, destination, entries[..i]) + [entries[i]]
         else SelectEntries(root, destination, entries[..i])
  {
    assert entries[..i + 1][..i] == entries[..i];
  }

  lemma UnionAssoc(a: Tree, b: Tree, c: Tree)
    ensures (a + b) + c == a + (b + c)
  {
  }

  /** `cp` refuses to copy a directory into a subdirectory of itself
      (`ERR_FS_CP_EINVAL`); `main` catches the error and exits with code 1. */
  datatype CopyError = CopyIntoSelf(entry: string)

  /** The destination lies strictly inside the top-level entry `entry`. */
  predicate HoldsDestination(root: Path, destination: Path, entry: string) {
    |destination| > |root| + 1 && destination[..|root| + 1] == root + [entry]
  }

  /** The top-level entry holding the destination is selected, so its copy
      would go into itself. */
  predicate CopiesIntoItself(root: Path, destination: Path, entries: seq<string>) {
    && |destination| > |root| + 1 && destination[..|root|] == root
    && destination[|root|] in SelectEntries(root, destination, entries)
  }

  lemma HoldsDestinationAt(root: Path, destination: Path, entry: string)
    ensures HoldsDestination(root, destination, entry)
      <==> |destination| > |root| + 1 && destination[..|root|] == root && destination[|root|] == entry
  {
    if |destination| > |root| + 1 {
      assert destination[..|root| + 1] == destination[..|root|] + [destination[|root|]];
    }
  }

  /** `copyTemplate(destination)`: `entries` is the listing of the template
      root, `target` what the destination holds before; copied files
      replace what is there. The copy of an entry holding the destination
      throws. */
  method CopyTemplate(template: Tree, root: Path, destination: Path, entries: seq<string>, target: Tree)
    returns (result: Result<Tree, CopyError>)
    ensures CopiesIntoItself(root, destination, entries) ==> result == Err(CopyIntoSelf(destination[|root|]))
    ensures !CopiesIntoItself(root, destination, entries)
      ==> result == Ok(target + Copied(template, SelectEntries(root, destination, entries)))
  {
    var copied := target;
    for i := 0 to |entries|
      invariant copied == target + Copied(template, SelectEntries(root, destination, entries[..i]))
      invariant !CopiesIntoItself(root, destination, entries[..i])
    {
      var entry := entries[i];
      ghost var selected := SelectEntries(root, destination, entries[..i]);
      SelectEntriesStep(root, destination, entries, i);
      HoldsDestinationAt(root, destination, entry);
      if IsDestinationOrInside(root + [entry], destination) {
        continue;
      }
      if !ShouldCopy([entry]) {
        continue;
      }
      if HoldsDestination(root, destination, entry) {
        SelectedInPrefix(root, destination, entries, i + 1, entry);
        return Err(CopyIntoSelf(entry));
      }
      CopiedSnoc(template, selected, entry);
      UnionAssoc(target, Copied(template, selected), CopyEntry(template, entry));
      copied := copied + CopyEntry(template, entry);
    }
    assert entries[..|entries|] == entries;
    return Ok(copied);
  }

  /** An entry selected from a prefix of the listing is selected from the
      whole listing. */
  lemma SelectedInPrefix(root: Path, destination: Path, entries: seq<string>, i: nat, e: string)
    requires i <= |entries|
    requires e in SelectEntries(root, destination, entries[..i])
    ensures e in SelectEntries(root, destination, entries)
  {
    SelectEntriesMembers(root, destination, entries[..i], e);
    SelectEntriesMembers(root, destination, entries, e);
  }

  /** The copy fails exactly when the destination lies strictly inside a
      listed top-level entry that `shouldCopy` keeps: the guard only looks
      at the entry, so it lets such an entry through. */
  lemma CopiesIntoItselfExactly(root: Path, destination: Path, entries: seq<string>)
    ensures CopiesIntoItself(root, destination, entries)
      <==> && |destination| > |root| + 1 && destination[..|root|] == root
           && destination[|root|] in entries && ShouldCopy([destination[|root|]])
  {
    if |destination| > |root| + 1 && destination[..|root|] == root {
      var e := destination[|root|];
      HoldsDestinationAt(root, destination, e);
      SelectEntriesMembers(root, destination, entries, e);
    }
  }

  /** An entry is selected exactly when it is listed and passes the test. */
  lemma {:induction false} SelectEntriesMembers(root: Path, destination: Path, entries: seq<string>, e: string)
    ensures e in SelectEntries(root, destination, entries) <==> e in entries && KeepEntry(root, destination, e)
    decreases |entries|
  {
    if |entries| > 0 {
      var init := entries[..|entries| - 1];
      SelectEntriesMembers(root, destination, init, e);
      assert entries == init + [entries[|entries| - 1]];
    }
  }

  /** Nothing of the version-control, build, dependency or release-tooling
      directories and not the generator script is ever copied, wherever the
      destination lies. */
  lemma CopiedNeverExcluded(template: Tree, selected: seq<string>, p: Path)
    requires p in Copied(template, selected)
    ensures p[0] !in ExcludedTopLevels
    ensures !Under(GeneratorScript, p)
  {
    assert ShouldCopy(p[..1]);
    assert p[..1] == [p[0]];
    if |p| >= 2 {
      assert ShouldCopy(p[..2]);
    }
  }

  /** A template path is copied exactly when its entry is selected and it and
      its parents pass the filter. */
  lemma CopiedMembers(template: Tree, root: Path, destination: Path, entries: seq<string>, p: Path)
    ensures p in Copied(template, SelectEntries(root, destination, entries))
      <==> p in template && |p| > 0 && p[0] in entries && KeepEntry(root, destination, p[0]) && PassesFilter(p)
  {
    if |p| > 0 {
      SelectEntriesMembers(root, destination, entries, p[0]);
    }
  }

  /** No selected entry is the destination or holds it from above in
      the string sense the source tests. */
  lemma SelectedNotDestination(root: Path, destination: Path, entries: seq<string>, e: string)
    requires e in SelectEntries(root, destination, entries)
    ensures root + [e] != destination
    ensures |destination| > 0 ==> !(|destination| < |root| + 1 && (root + [e])[..|destination|] == destination)
  {
    SelectEntriesMembers(root, destination, entries, e);
  }

  /** The test only looks at the entry itself: an entry that is an ancestor
      of a destination deeper in the template is still copied. */
  lemma AncestorOfDestinationKept(root: Path, destination: Path, e: string)
    requires |destination| > |root| + 1 && destination[..|root| + 1] == root + [e]
    requires ShouldCopy([e])
    ensures KeepEntry(root, destination, e)
  {
  }
}
