/**
  Association of patch files with reported changes (crates/acp_thread/src/diff.rs,
  `DiffPatch::parse`). A path is its components and whether it is rooted; the
  patch text has already been parsed into files.
 */
module PatchAssociation {
  import opened Wrappers

  datatype Path = Path(hasRoot: bool, components: seq<string>)

  type Paths = (Option<Path>, Option<Path>)

  datatype Operation =
    | AddFile(path: Path) | DeleteFile(path: Path) | ModifyFile(path: Path)
    | MoveFile(oldPath: Path, path: Path) | CopyFile(oldPath: Path, path: Path) | OtherOperation

  datatype FileType = TextFile | BinaryFile

  datatype Change = Change(operation: Operation, fileType: Option<FileType>)

  datatype Hunk = Hunk(oldCount: nat, newCount: nat)

  datatype PatchFile = PatchFile(oldPath: Option<Path>, newPath: Option<Path>, hunks: seq<Hunk>)

  function ChangePaths(change: Change): Option<Paths> {
    match change.operation
    case AddFile(path) => Some((None, Some(path)))
    case DeleteFile(path) => Some((Some(path), None))
    case ModifyFile(path) => Some((Some(path), Some(path)))
    case MoveFile(old_, path) => Some((Some(old_), Some(path)))
    case CopyFile(old_, path) => Some((Some(old_), Some(path)))
    case OtherOperation => None
  }

  predicate EndsWith(path: Path, suffix: Path) {
    |suffix.components| <= |path.components| &&
    path.components[|path.components| - |suffix.components|..] == suffix.components
  }

  predicate SideMatches(patch: Option<Path>, reported: Option<Path>) {
    match (patch, reported)
    case (None, None) => true
    case (Some(p), Some(r)) => if p.hasRoot then p == r else EndsWith(r, p)
    case _ => false
  }

  predicate BothMatch(patch: Paths, reported: Paths) {
    SideMatches(patch.0, reported.0) && SideMatches(patch.1, reported.1)
  }

  predicate HasRelativeSide(paths: Paths) {
    (paths.0.Some? && !paths.0.value.hasRoot) || (paths.1.Some? && !paths.1.value.hasRoot)
  }

  type Indices = map<Paths, Option<nat>>

  /** The change index of each reported pair of paths; absent once two changes share it. */
  function IndicesOf(changes: seq<Change>, n: nat): Indices
    requires n <= |changes|
  {
    if n == 0 then map[]
    else
      var before := IndicesOf(changes, n - 1);
      var paths := ChangePaths(changes[n - 1]);
      if paths.None? then before
      else if paths.value in before then before[paths.value := None]
      else before[paths.value := Some(n - 1)]
  }

  // ---------------------------------------------------------------------------
  // One file
  // ---------------------------------------------------------------------------

  ghost function Suffixed(indices: Indices, paths: Paths): set<Paths> {
    set k | k in indices && BothMatch(paths, k)
  }

  /** The change a pair of paths stands for: the exact entry, or else the only suffix match. */
  ghost function Resolve(indices: Indices, paths: Paths): Result<nat, string> {
    if paths in indices then Found(indices[paths])
    else if !HasRelativeSide(paths) then Err(UNMATCHED)
    else if |Suffixed(indices, paths)| > 1 then Err(AMBIGUOUS)
    else if |Suffixed(indices, paths)| == 1 then
      var k :| k in Suffixed(indices, paths);
      Found(indices[k])
    else Err(UNMATCHED)
  }

  const AMBIGUOUS: string := "ambiguous relative patch paths"
  const UNMATCHED: string := "patch paths are " + ("ambiguous or do not match " + "the reported file changes")

  function Found(index: Option<nat>): Result<nat, string> {
    if index.None? then Err(UNMATCHED) else Ok(index.value)
  }

  /** The lookup as the source does it, walking the hash map in whatever order it happens to have. */
  method ResolveInOrder(indices: Indices, order: seq<Paths>, paths: Paths) returns (r: Result<nat, string>)
    requires forall k :: k in order <==> k in indices
    requires forall i, j | 0 <= i < j < |order| :: order[i] != order[j]
    ensures r == Resolve(indices, paths)
  {
    var index: Option<nat> := None;
    if paths in indices {
      index := indices[paths];
    } else if HasRelativeSide(paths) {
      var first := NextMatch(order, 0, paths);
      if first < |order| {
        index := indices[order[first]];
        var second := NextMatch(order, first + 1, paths);
        if second < |order| {
          TwoMatches(indices, order, paths, first, second);
          return Err(AMBIGUOUS);
        }
        OneMatch(indices, order, paths, first);
      }
    }
    return Found(index);
  }

  method NextMatch(order: seq<Paths>, from: nat, paths: Paths) returns (i: nat)
    requires from <= |order|
    ensures from <= i <= |order|
    ensures i < |order| ==> BothMatch(paths, order[i])
    ensures forall j | from <= j < i :: !BothMatch(paths, order[j])
  {
    i := from;
    while i < |order| && !BothMatch(paths, order[i])
      invariant from <= i <= |order|
      invariant forall j | from <= j < i :: !BothMatch(paths, order[j])
    {
      i := i + 1;
    }
  }

  lemma TwoMatches(indices: Indices, order: seq<Paths>, paths: Paths, i: nat, j: nat)
    requires forall k | k in order :: k in indices
    requires i < j < |order| && order[i] != order[j]
    requires BothMatch(paths, order[i]) && BothMatch(paths, order[j])
    ensures |Suffixed(indices, paths)| > 1
  {
    var s, two := Suffixed(indices, paths), {order[i], order[j]};
    assert order[i] in order && order[j] in order;
    assert s == two + (s - two) && |two| == 2;
  }

  lemma OneMatch(indices: Indices, order: seq<Paths>, paths: Paths, i: nat)
    requires forall k :: k in order <==> k in indices
    requires i < |order| && BothMatch(paths, order[i])
    requires forall j | 0 <= j < |order| && j != i :: !BothMatch(paths, order[j])
    ensures Suffixed(indices, paths) == {order[i]}
  {
  }

  // ---------------------------------------------------------------------------
  // What an association means, in terms of the changes alone
  // ---------------------------------------------------------------------------

  /** The two sides of a file under an operation: what was there and what is there now. */
  predicate Names(operation: Operation, old_: Option<Path>, new_: Option<Path>) {
    match operation
    case AddFile(path) => old_ == None && new_ == Some(path)
    case DeleteFile(path) => old_ == Some(path) && new_ == None
    case ModifyFile(path) => old_ == Some(path) && new_ == Some(path)
    case MoveFile(source, path) => old_ == Some(source) && new_ == Some(path)
    case CopyFile(source, path) => old_ == Some(source) && new_ == Some(path)
    case OtherOperation => false
  }

  lemma NamesItsPaths(change: Change, paths: Paths)
    ensures Names(change.operation, paths.0, paths.1) <==> ChangePaths(change) == Some(paths)
  {
  }

  predicate Reports(changes: seq<Change>, j: nat, paths: Paths) {
    j < |changes| && Names(changes[j].operation, paths.0, paths.1)
  }

  /** A relative path stands for every path that ends with its components, a rooted one for itself. */
  ghost predicate MayMean(written: Option<Path>, reported: Option<Path>) {
    || (written == None && reported == None)
    || exists w, r :: written == Some(w) && reported == Some(r) &&
                      (w == r || (!w.hasRoot && EndsIn(r.components, w.components)))
  }

  ghost predicate EndsIn(path: seq<string>, tail: seq<string>) {
    exists front: seq<string> :: path == front + tail
  }

  lemma MayMeanMatches(written: Option<Path>, reported: Option<Path>)
    ensures MayMean(written, reported) <==> SideMatches(written, reported)
  {
    if written.Some? && reported.Some? {
      var w, r := written.value, reported.value;
      if EndsWith(r, w) {
        assert r.components == r.components[..|r.components| - |w.components|] + w.components;
      }
    }
  }

  ghost predicate Fits(changes: seq<Change>, j: nat, paths: Paths) {
    exists old_, new_ :: Reports(changes, j, (old_, new_)) && MayMean(paths.0, old_) && MayMean(paths.1, new_)
  }

  /** The same in terms of the pair of paths that the lookup computes. */
  predicate ReportsPaths(changes: seq<Change>, j: nat, paths: Paths) {
    j < |changes| && ChangePaths(changes[j]) == Some(paths)
  }

  predicate FitsPaths(changes: seq<Change>, j: nat, paths: Paths) {
    j < |changes| && ChangePaths(changes[j]).Some? && BothMatch(paths, ChangePaths(changes[j]).value)
  }

  lemma FitsMatches(changes: seq<Change>, j: nat, paths: Paths)
    ensures Fits(changes, j, paths) <==> FitsPaths(changes, j, paths)
  {
    if j < |changes| && ChangePaths(changes[j]).Some? {
      var reported := ChangePaths(changes[j]).value;
      MayMeanMatches(paths.0, reported.0);
      MayMeanMatches(paths.1, reported.1);
      assert Reports(changes, j, (reported.0, reported.1));
    }
  }

  ghost predicate SomeSideIsRelative(paths: Paths) {
    exists p: Path :: (paths.0 == Some(p) || paths.1 == Some(p)) && !p.hasRoot
  }

  /** Change `i` is the only one reporting exactly these paths, or none does and it is the only suffix match. */
  ghost predicate StandsFor(changes: seq<Change>, paths: Paths, i: nat) {
    || (forall j: nat :: Reports(changes, j, paths) <==> j == i)
    || (&& (forall j: nat :: !Reports(changes, j, paths))
        && SomeSideIsRelative(paths)
        && (forall j: nat :: Fits(changes, j, paths) <==> j == i))
  }

  lemma {:induction false} IndicesMeaning(changes: seq<Change>, n: nat, paths: Paths)
    requires n <= |changes|
    ensures var m := IndicesOf(changes, n);
            && (paths in m <==> exists j: nat :: j < n && ReportsPaths(changes, j, paths))
            && (paths in m && m[paths].Some? ==>
                  forall j: nat :: j < n && ReportsPaths(changes, j, paths) <==> j == m[paths].value)
            && (paths in m && m[paths].None? ==>
                  exists i: nat, j: nat ::
                    i < j < n && ReportsPaths(changes, i, paths) && ReportsPaths(changes, j, paths))
  {
    if n > 0 {
      IndicesMeaning(changes, n - 1, paths);
      var before := IndicesOf(changes, n - 1);
      if ReportsPaths(changes, n - 1, paths) && paths in before {
        var i: nat :| i < n - 1 && ReportsPaths(changes, i, paths);
      }
    }
  }

  lemma ExactMeaning(changes: seq<Change>, paths: Paths, i: nat)
    ensures var m := IndicesOf(changes, |changes|);
            paths in m && m[paths] == Some(i) <==> forall j: nat :: ReportsPaths(changes, j, paths) <==> j == i
  {
    IndicesMeaning(changes, |changes|, paths);
    var m := IndicesOf(changes, |changes|);
    if forall j: nat :: ReportsPaths(changes, j, paths) <==> j == i {
      assert ReportsPaths(changes, i, paths);
    }
  }

  /** The pairs of paths that match, seen from the changes. */
  lemma SuffixMeaning(changes: seq<Change>, paths: Paths, i: nat)
    ensures var m := IndicesOf(changes, |changes|);
            (exists k :: Suffixed(m, paths) == {k} && m[k] == Some(i)) <==>
            (forall j: nat :: FitsPaths(changes, j, paths) <==> j == i)
  {
    var m := IndicesOf(changes, |changes|);
    forall k ensures k in m <==> exists j: nat :: ReportsPaths(changes, j, k) {
      IndicesMeaning(changes, |changes|, k);
    }
    if k :| Suffixed(m, paths) == {k} && m[k] == Some(i) {
      assert k in Suffixed(m, paths);
      ExactMeaning(changes, k, i);
      forall j: nat ensures FitsPaths(changes, j, paths) <==> j == i {
        if FitsPaths(changes, j, paths) {
          var reported := ChangePaths(changes[j]).value;
          assert ReportsPaths(changes, j, reported);
          assert reported in Suffixed(m, paths);
        }
        assert ReportsPaths(changes, i, k);
      }
    }
    if forall j: nat :: FitsPaths(changes, j, paths) <==> j == i {
      assert FitsPaths(changes, i, paths);
      var k := ChangePaths(changes[i]).value;
      assert ReportsPaths(changes, i, k);
      forall j: nat ensures ReportsPaths(changes, j, k) <==> j == i {
        assert ReportsPaths(changes, j, k) ==> FitsPaths(changes, j, paths);
      }
      ExactMeaning(changes, k, i);
      forall x | x in Suffixed(m, paths) ensures x == k {
        var j: nat :| ReportsPaths(changes, j, x);
        assert FitsPaths(changes, j, paths);
      }
      assert Suffixed(m, paths) == {k};
    }
  }

  lemma SingletonElement(s: set<Paths>)
    requires |s| == 1
    ensures exists k :: s == {k}
  {
    var k :| k in s;
    assert |s - {k}| == 0;
    assert s == {k};
  }

  ghost predicate StandsForPaths(changes: seq<Change>, paths: Paths, i: nat) {
    || (forall j: nat :: ReportsPaths(changes, j, paths) <==> j == i)
    || (&& (forall j: nat :: !ReportsPaths(changes, j, paths))
        && HasRelativeSide(paths)
        && (forall j: nat :: FitsPaths(changes, j, paths) <==> j == i))
  }

  lemma ResolvePaths(changes: seq<Change>, paths: Paths, i: nat)
    ensures Resolve(IndicesOf(changes, |changes|), paths) == Ok(i) <==> StandsForPaths(changes, paths, i)
  {
    var m := IndicesOf(changes, |changes|);
    IndicesMeaning(changes, |changes|, paths);
    ExactMeaning(changes, paths, i);
    SuffixMeaning(changes, paths, i);
    if paths in m {
      var j: nat :| ReportsPaths(changes, j, paths);
    } else if |Suffixed(m, paths)| == 1 {
      SingletonElement(Suffixed(m, paths));
    }
  }

  lemma StandsForItsPaths(changes: seq<Change>, paths: Paths, i: nat)
    ensures StandsFor(changes, paths, i) <==> StandsForPaths(changes, paths, i)
  {
    forall j: nat ensures Reports(changes, j, paths) <==> ReportsPaths(changes, j, paths) {
    }
    forall j: nat ensures Fits(changes, j, paths) <==> FitsPaths(changes, j, paths) {
      FitsMatches(changes, j, paths);
    }
  }

  /** A lookup succeeds with exactly the change that stands for the paths. */
  lemma ResolveExactly(changes: seq<Change>, paths: Paths, i: nat)
    ensures Resolve(IndicesOf(changes, |changes|), paths) == Ok(i) <==> StandsFor(changes, paths, i)
  {
    ResolvePaths(changes, paths, i);
    StandsForItsPaths(changes, paths, i);
  }

  /** Some change reports the pair `reported`, and `paths` may mean it. */
  ghost predicate MayMeanPair(changes: seq<Change>, paths: Paths, reported: Paths) {
    && (exists j: nat :: Reports(changes, j, reported))
    && MayMean(paths.0, reported.0) && MayMean(paths.1, reported.1)
  }

  lemma SuffixedExactly(changes: seq<Change>, paths: Paths, reported: Paths)
    ensures reported in Suffixed(IndicesOf(changes, |changes|), paths) <==> MayMeanPair(changes, paths, reported)
  {
    IndicesMeaning(changes, |changes|, reported);
    forall j: nat ensures Reports(changes, j, reported) <==> ReportsPaths(changes, j, reported) {
    }
    MayMeanMatches(paths.0, reported.0);
    MayMeanMatches(paths.1, reported.1);
  }

  lemma MoreThanOne(s: set<Paths>)
    ensures |s| > 1 <==> exists a, b :: a in s && b in s && a != b
  {
    if a, b :| a in s && b in s && a != b {
      assert s == {a, b} + (s - {a, b});
    }
    if |s| > 1 {
      var a :| a in s;
      assert s == {a} + (s - {a});
      assert |s - {a}| > 0;
      var b :| b in s - {a};
    }
  }

  lemma ReportedExactly(changes: seq<Change>, paths: Paths)
    ensures paths in IndicesOf(changes, |changes|) <==> exists j: nat :: Reports(changes, j, paths)
  {
    IndicesMeaning(changes, |changes|, paths);
    if j: nat :| ReportsPaths(changes, j, paths) {
      assert Reports(changes, j, paths);
    }
    if j: nat :| Reports(changes, j, paths) {
      assert ReportsPaths(changes, j, paths);
    }
  }

  lemma TwoPairs(changes: seq<Change>, paths: Paths)
    ensures |Suffixed(IndicesOf(changes, |changes|), paths)| > 1 <==>
            exists a, b :: MayMeanPair(changes, paths, a) && MayMeanPair(changes, paths, b) && a != b
  {
    var s := Suffixed(IndicesOf(changes, |changes|), paths);
    MoreThanOne(s);
    if a, b :| a in s && b in s && a != b {
      SuffixedExactly(changes, paths, a);
      SuffixedExactly(changes, paths, b);
    }
    if a, b :| MayMeanPair(changes, paths, a) && MayMeanPair(changes, paths, b) && a != b {
      SuffixedExactly(changes, paths, a);
      SuffixedExactly(changes, paths, b);
    }
  }

  lemma ResolveIsAmbiguous(indices: Indices, paths: Paths)
    ensures Resolve(indices, paths) == Err(AMBIGUOUS) <==>
            paths !in indices && HasRelativeSide(paths) && |Suffixed(indices, paths)| > 1
  {
    assert AMBIGUOUS[0] == 'a' && UNMATCHED[0] == 'p';
  }

  /** The lookup is ambiguous exactly when relative paths, reported by no change, may mean two different pairs. */
  lemma AmbiguousExactlyWhen(changes: seq<Change>, paths: Paths)
    ensures Resolve(IndicesOf(changes, |changes|), paths) == Err(AMBIGUOUS) <==>
            && (forall j: nat :: !Reports(changes, j, paths)) && SomeSideIsRelative(paths)
            && exists a, b :: MayMeanPair(changes, paths, a) && MayMeanPair(changes, paths, b) && a != b
  {
    ResolveIsAmbiguous(IndicesOf(changes, |changes|), paths);
    ReportedExactly(changes, paths);
    TwoPairs(changes, paths);
  }

  // ---------------------------------------------------------------------------
  // All files
  // ---------------------------------------------------------------------------

  /** The paths a file is looked up by; a file without names takes those of the only change. */
  function EffectivePaths(changes: seq<Change>, file: PatchFile): Option<Paths> {
    if file.oldPath.Some? || file.newPath.Some? then Some((file.oldPath, file.newPath))
    else if |changes| == 1 then ChangePaths(changes[0])
    else None
  }

  /** Why a file without names has no paths. */
  function NoPaths(changes: seq<Change>): string {
    if |changes| == 1 then "unsupported file operation" else "patch without filenames requires exactly one file change"
  }

  predicate HunksAgree(file: PatchFile) {
    forall i | 0 <= i < |file.hunks| ::
      && (file.oldPath.Some? || file.hunks[i].oldCount == 0)
      && (file.newPath.Some? || file.hunks[i].newCount == 0)
  }

  /** The file under the paths its change reports. */
  function Renamed(file: PatchFile, change: Change): PatchFile {
    var paths := ChangePaths(change);
    if paths.None? then file else file.(oldPath := paths.value.0, newPath := paths.value.1)
  }

  /** One file's association, given the changes already taken. */
  ghost function Associate(changes: seq<Change>, file: PatchFile, seen: set<nat>): Result<(nat, PatchFile), string> {
    var paths := EffectivePaths(changes, file);
    if paths.None? then Err(NoPaths(changes))
    else
      var index := Resolve(IndicesOf(changes, |changes|), paths.value);
      if index.Err? then Err(index.error)
      else if index.value in seen then Err("repeated patch file")
      else if index.value >= |changes| then Err("missing file change")
      else if changes[index.value].fileType == Some(BinaryFile) then Err("text patch supplied for a non-text file")
      else if !HunksAgree(Renamed(file, changes[index.value])) then
        Err("hunk contents conflict with the reported file operation")
      else Ok((index.value, Renamed(file, changes[index.value])))
  }

  function IndexSet(list: seq<(nat, PatchFile)>): set<nat> {
    set x | x in list :: x.0
  }

  ghost function AssociateAll(changes: seq<Change>, files: seq<PatchFile>): Result<seq<(nat, PatchFile)>, string> {
    if files == [] then Ok([])
    else
      var before := AssociateAll(changes, files[..|files| - 1]);
      if before.Err? then before
      else
        var last := Associate(changes, files[|files| - 1], IndexSet(before.value));
        if last.Err? then Err(last.error) else Ok(before.value + [last.value])
  }

  /** `DiffPatch::parse` after the patch text: no outcome depends on the hash map's order. */
  method Parse(changes: seq<Change>, files: seq<PatchFile>, order: seq<Paths>)
    returns (r: Result<seq<(nat, PatchFile)>, string>)
    requires forall k :: k in order <==> k in IndicesOf(changes, |changes|)
    requires forall i, j | 0 <= i < j < |order| :: order[i] != order[j]
    ensures r == if changes == [] then Err("patch has no reported file changes") else AssociateAll(changes, files)
  {
    if changes == [] {
      return Err("patch has no reported file changes");
    }
    var indices := IndicesOf(changes, |changes|);
    var seen: set<nat> := {};
    var list: seq<(nat, PatchFile)> := [];
    for i := 0 to |files|
      invariant AssociateAll(changes, files[..i]) == Ok(list)
      invariant seen == IndexSet(list)
    {
      var one := AssociateOne(changes, indices, order, files[i], seen);
      AssociateNext(changes, files, i, list);
      if one.Err? {
        ErrorLasts(changes, files, i + 1);
        return Err(one.error);
      }
      assert IndexSet(list + [one.value]) == IndexSet(list) + {one.value.0};
      list := list + [one.value];
      seen := seen + {one.value.0};
    }
    assert files[..|files|] == files;
    return Ok(list);
  }

  lemma AssociateNext(changes: seq<Change>, files: seq<PatchFile>, i: nat, list: seq<(nat, PatchFile)>)
    requires i < |files| && AssociateAll(changes, files[..i]) == Ok(list)
    ensures var one := Associate(changes, files[i], IndexSet(list));
            AssociateAll(changes, files[..i + 1]) == if one.Err? then Err(one.error) else Ok(list + [one.value])
  {
    assert files[..i + 1][..i] == files[..i];
  }

  method AssociateOne(changes: seq<Change>, indices: Indices, order: seq<Paths>, file: PatchFile, seen: set<nat>)
    returns (r: Result<(nat, PatchFile), string>)
    requires indices == IndicesOf(changes, |changes|)
    requires forall k :: k in order <==> k in indices
    requires forall i, j | 0 <= i < j < |order| :: order[i] != order[j]
    ensures r == Associate(changes, file, seen)
  {
    var paths := EffectivePaths(changes, file);
    if paths.None? {
      return Err(NoPaths(changes));
    }
    var index := ResolveInOrder(indices, order, paths.value);
    if index.Err? {
      return Err(index.error);
    }
    if index.value in seen {
      return Err("repeated patch file");
    }
    if index.value >= |changes| {
      return Err("missing file change");
    }
    var change := changes[index.value];
    if change.fileType == Some(BinaryFile) {
      return Err("text patch supplied for a non-text file");
    }
    var renamed := Renamed(file, change);
    if !HunksAgree(renamed) {
      return Err("hunk contents conflict with the reported file operation");
    }
    return Ok((index.value, renamed));
  }

  lemma {:induction false} ErrorLasts(changes: seq<Change>, files: seq<PatchFile>, i: nat)
    requires i <= |files| && AssociateAll(changes, files[..i]).Err?
    ensures AssociateAll(changes, files) == AssociateAll(changes, files[..i])
  {
    if i == |files| {
      assert files[..i] == files;
    } else {
      assert files[..|files| - 1][..i] == files[..i];
      ErrorLasts(changes, files[..|files| - 1], i);
    }
  }

  /** The paths that a file is looked up by: its own, or those of a sole change if it has none. */
  ghost predicate LookedUpBy(changes: seq<Change>, file: PatchFile, paths: Paths) {
    if file.oldPath != None || file.newPath != None then paths == (file.oldPath, file.newPath)
    else |changes| == 1 && Names(changes[0].operation, paths.0, paths.1)
  }

  /** A side that is not there has no lines. */
  predicate FitsHunks(renamed: PatchFile) {
    forall hunk | hunk in renamed.hunks ::
      (renamed.oldPath == None ==> hunk.oldCount == 0) && (renamed.newPath == None ==> hunk.newCount == 0)
  }

  /** The file is associated with the one change that its paths stand for, under whose paths it appears. */
  ghost predicate WellAssociated(changes: seq<Change>, file: PatchFile, index: nat, renamed: PatchFile) {
    && index < |changes| && changes[index].fileType != Some(BinaryFile)
    && (exists paths :: LookedUpBy(changes, file, paths) && StandsFor(changes, paths, index))
    && Names(changes[index].operation, renamed.oldPath, renamed.newPath)
    && renamed.hunks == file.hunks && FitsHunks(renamed)
  }

  lemma LookedUpExactly(changes: seq<Change>, file: PatchFile, index: nat)
    ensures (exists paths :: LookedUpBy(changes, file, paths) && StandsFor(changes, paths, index)) <==>
            EffectivePaths(changes, file).Some? && StandsFor(changes, EffectivePaths(changes, file).value, index)
  {
    forall paths ensures LookedUpBy(changes, file, paths) <==> EffectivePaths(changes, file) == Some(paths) {
    }
    if EffectivePaths(changes, file).Some? {
      assert LookedUpBy(changes, file, EffectivePaths(changes, file).value);
    }
  }

  lemma HunksFit(file: PatchFile)
    ensures HunksAgree(file) <==> FitsHunks(file)
  {
    if HunksAgree(file) {
      forall hunk | hunk in file.hunks
        ensures (file.oldPath == None ==> hunk.oldCount == 0) && (file.newPath == None ==> hunk.newCount == 0)
      {
        var i :| 0 <= i < |file.hunks| && file.hunks[i] == hunk;
      }
    }
  }

  lemma StandsForNamed(changes: seq<Change>, paths: Paths, index: nat)
    requires StandsFor(changes, paths, index)
    ensures index < |changes| && ChangePaths(changes[index]).Some?
  {
    assert Reports(changes, index, paths) || Fits(changes, index, paths);
  }

  /** One file is associated exactly when its change is found, not taken, text, and agrees with the hunks. */
  lemma AssociatesExactly(changes: seq<Change>, file: PatchFile, seen: set<nat>, index: nat, renamed: PatchFile)
    ensures Associate(changes, file, seen) == Ok((index, renamed)) <==>
            index !in seen && WellAssociated(changes, file, index, renamed)
  {
    LookedUpExactly(changes, file, index);
    if EffectivePaths(changes, file).Some? {
      var paths := EffectivePaths(changes, file).value;
      ResolveExactly(changes, paths, index);
      if StandsFor(changes, paths, index) {
        FoundAssociates(changes, file, seen, index, renamed, paths);
      }
    }
  }

  lemma RenamedExactly(change: Change, file: PatchFile, renamed: PatchFile)
    requires ChangePaths(change).Some?
    ensures renamed == Renamed(file, change) <==>
            renamed.hunks == file.hunks && Names(change.operation, renamed.oldPath, renamed.newPath)
  {
    NamesItsPaths(change, (renamed.oldPath, renamed.newPath));
  }

  lemma FoundAssociates(
      changes: seq<Change>, file: PatchFile, seen: set<nat>, index: nat, renamed: PatchFile, paths: Paths)
    requires EffectivePaths(changes, file) == Some(paths) && StandsFor(changes, paths, index)
    requires Resolve(IndicesOf(changes, |changes|), paths) == Ok(index)
    ensures Associate(changes, file, seen) == Ok((index, renamed)) <==>
            && index !in seen && index < |changes| && changes[index].fileType != Some(BinaryFile)
            && Names(changes[index].operation, renamed.oldPath, renamed.newPath)
            && renamed.hunks == file.hunks && FitsHunks(renamed)
  {
    StandsForNamed(changes, paths, index);
    var change := changes[index];
    HunksFit(Renamed(file, change));
    RenamedExactly(change, file, renamed);
  }

  ghost predicate AllAssociated(changes: seq<Change>, files: seq<PatchFile>, list: seq<(nat, PatchFile)>) {
    && |list| == |files|
    && (forall k | 0 <= k < |files| :: WellAssociated(changes, files[k], list[k].0, list[k].1))
    && (forall i, j | 0 <= i < j < |list| :: list[i].0 != list[j].0)
  }

  lemma AppendAssociated(changes: seq<Change>, files: seq<PatchFile>, list: seq<(nat, PatchFile)>,
                         file: PatchFile, x: (nat, PatchFile))
    ensures AllAssociated(changes, files + [file], list + [x]) <==>
            AllAssociated(changes, files, list) && WellAssociated(changes, file, x.0, x.1) && x.0 !in IndexSet(list)
  {
    var fs, xs := files + [file], list + [x];
    if AllAssociated(changes, fs, xs) {
      assert xs[|list|] == x && fs[|files|] == file;
      forall k | 0 <= k < |files| ensures WellAssociated(changes, files[k], list[k].0, list[k].1) {
        assert xs[k] == list[k] && fs[k] == files[k];
      }
      forall i, j | 0 <= i < j < |list| ensures list[i].0 != list[j].0 {
        assert xs[i] == list[i] && xs[j] == list[j];
      }
      forall i | 0 <= i < |list| ensures list[i].0 != x.0 {
        assert xs[i] == list[i];
      }
    }
  }

  /**
    Association succeeds with a list exactly when its entries map the files one to one to text changes that
    uniquely stand for them, under the paths those changes report, and no absent side has lines.
   */
  lemma {:induction false} AssociatesExactlyWhen(
      changes: seq<Change>, files: seq<PatchFile>, list: seq<(nat, PatchFile)>)
    ensures AssociateAll(changes, files) == Ok(list) <==> AllAssociated(changes, files, list)
  {
    if files != [] {
      var before, file := files[..|files| - 1], files[|files| - 1];
      assert files == before + [file];
      if list != [] {
        var shorter, x := list[..|list| - 1], list[|list| - 1];
        assert list == shorter + [x];
        AssociatesExactlyWhen(changes, before, shorter);
        AppendAssociated(changes, before, shorter, file, x);
        AssociatesExactly(changes, file, IndexSet(shorter), x.0, x.1);
      }
    }
  }

  /** Whatever association succeeds with is such a list. */
  lemma AssociationsAreUnique(changes: seq<Change>, files: seq<PatchFile>)
    requires AssociateAll(changes, files).Ok?
    ensures AllAssociated(changes, files, AssociateAll(changes, files).value)
  {
    AssociatesExactlyWhen(changes, files, AssociateAll(changes, files).value);
  }

  /** A patch of the only change, with that change's own sides, is associated with it. */
  lemma SoleChangeIsFound(change: Change, file: PatchFile)
    requires Names(change.operation, file.oldPath, file.newPath) && change.fileType != Some(BinaryFile)
    requires FitsHunks(file)
    ensures AssociateAll([change], [file]) == Ok([(0, file)])
  {
    var paths, list := (file.oldPath, file.newPath), [(0, file)];
    assert forall j: nat :: Reports([change], j, paths) <==> j == 0;
    assert LookedUpBy([change], file, paths) && StandsFor([change], paths, 0);
    assert WellAssociated([change], file, list[0].0, list[0].1);
    AssociatesExactlyWhen([change], [file], list);
  }
}
