/**
 Hardlink batches: plan every file from what was observed, then act, never touching what exists.
 The filesystem is a tree from paths to entries; other processes may add entries at any time.
 */
module Hardlinks {
  import opened Wrappers

  type Path = string

  datatype Identity = Identity(device: nat, inode: nat)

  datatype Node = Regular(id: Identity) | Symlink | NonRegular

  type Tree = map<Path, Node>

  /** What keeps failing for reasons outside the tree: unreadable metadata, targets that cannot be created. */
  datatype Faults = Faults(unreadable: set<Path>, unlinkable: set<Path>)

  datatype Outcome = Pending | Linked | Failed | Missing | Conflict

  datatype Effect = Effect(source: Path, target: Path, persisted: Outcome)

  datatype Operation = ProbeSource | ProbeTarget | CreateLink | VerifyCreatedLink

  datatype FailureKind = Io | IsSymlink | IsNonRegular | SourceChanged

  datatype Failure = Failure(operation: Operation, kind: FailureKind)

  datatype Status =
    | Created
    | SkippedVerified
    | AcceptedExisting
    | SourceMissing
    | TargetConflict(source: Identity, target: Identity)
    | Broken(failure: Failure)

  function OutcomeOf(status: Status): Outcome {
    match status
    case Created => Linked
    case SkippedVerified => Linked
    case AcceptedExisting => Linked
    case SourceMissing => Missing
    case TargetConflict(_, _) => Conflict
    case Broken(_) => Failed
  }

  // ------------------------------------------------------------------ planning

  datatype Action =
    | SkipVerified
    | AcceptExisting
    | Create
    | FailMissing
    | FailConflict(source: Identity, target: Identity)

  datatype Planned = Planned(source: Path, target: Path, action: Action)

  datatype PlanError =
    | ObservationCountMismatch(files: nat, probes: nat)
    | DuplicateTarget(target: Path)

  /** The identities found at the source and at the target. */
  datatype Observed = Observed(source: Option<Identity>, target: Option<Identity>)

  function PlanAction(o: Observed, persisted: Outcome): Action {
    match (o.source, o.target)
    case (None, _) => FailMissing
    case (Some(_), None) => Create
    case (Some(source), Some(target)) =>
      if source != target then FailConflict(source, target)
      else if persisted == Linked then SkipVerified
      else AcceptExisting
  }

  function ResultingOutcome(action: Action): Outcome {
    match action
    case SkipVerified => Linked
    case AcceptExisting => Linked
    case Create => Pending
    case FailMissing => Missing
    case FailConflict(_, _) => Conflict
  }

  predicate DistinctTargets(files: seq<Effect>) {
    forall i, j :: 0 <= i < j < |files| ==> files[i].target != files[j].target
  }

  /** File `j` is the first whose target an earlier file already has. */
  ghost predicate FirstDuplicate(files: seq<Effect>, j: nat) {
    j < |files| && DistinctTargets(files[..j]) && exists i :: 0 <= i < j && files[i].target == files[j].target
  }

  /** A plan exists exactly for distinct targets, and it says `Linked` only where both ends are one inode. */
  method PlanLinkRetry(files: seq<Effect>, probes: seq<Observed>) returns (r: Result<seq<Planned>, PlanError>)
    ensures r.Ok? <==> |files| == |probes| && DistinctTargets(files)
    ensures r.Ok? ==> |r.value| == |files| && forall i :: 0 <= i < |files| ==>
      r.value[i] == Planned(files[i].source, files[i].target, PlanAction(probes[i], files[i].persisted))
    ensures |files| != |probes| ==> r == Err(ObservationCountMismatch(|files|, |probes|))
    ensures r.Err? && |files| == |probes| ==> exists j: nat :: FirstDuplicate(files, j) && r.error == DuplicateTarget(files[j].target)
  {
    if |files| != |probes| {
      return Err(ObservationCountMismatch(|files|, |probes|));
    }
    var targets: set<Path> := {};
    var planned: seq<Planned> := [];
    for k := 0 to |files|
      invariant targets == set i | 0 <= i < k :: files[i].target
      invariant DistinctTargets(files[..k])
      invariant |planned| == k && forall i :: 0 <= i < k ==>
        planned[i] == Planned(files[i].source, files[i].target, PlanAction(probes[i], files[i].persisted))
    {
      if files[k].target in targets {
        assert FirstDuplicate(files, k);
        return Err(DuplicateTarget(files[k].target));
      }
      targets := targets + {files[k].target};
      planned := planned + [Planned(files[k].source, files[k].target, PlanAction(probes[k], files[k].persisted))];
    }
    assert files[..|files|] == files;
    r := Ok(planned);
  }

  lemma LinkedPlanIsVerified(o: Observed, persisted: Outcome)
    ensures ResultingOutcome(PlanAction(o, persisted)) == Linked <==> o.source.Some? && o.source == o.target
    ensures PlanAction(o, persisted) == Create <==> o.source.Some? && o.target == None
    ensures PlanAction(o, persisted) == SkipVerified <==> o.source.Some? && o.source == o.target && persisted == Linked
    ensures PlanAction(o, persisted) == FailMissing <==> o.source == None
    ensures forall a, b :: PlanAction(o, persisted) == FailConflict(a, b) <==> o == Observed(Some(a), Some(b)) && a != b
  {
  }

  // ------------------------------------------------------------------- probing

  datatype Probe = Probe(identity: Option<Identity>, failure: Option<Failure>)

  datatype Probes = Probes(source: Probe, target: Probe)

  function ProbePath(tree: Tree, faults: Faults, path: Path, operation: Operation): Probe {
    if path in faults.unreadable then Probe(None, Some(Failure(operation, Io)))
    else if path !in tree then Probe(None, None)
    else
      match tree[path]
      case Symlink => Probe(None, Some(Failure(operation, IsSymlink)))
      case NonRegular => Probe(None, Some(Failure(operation, IsNonRegular)))
      case Regular(id) => Probe(Some(id), None)
  }

  function ProbeEffect(tree: Tree, faults: Faults, file: Effect): Probes {
    Probes(ProbePath(tree, faults, file.source, ProbeSource), ProbePath(tree, faults, file.target, ProbeTarget))
  }

  function ProbeAll(tree: Tree, faults: Faults, files: seq<Effect>): seq<Probes> {
    seq(|files|, i requires 0 <= i < |files| => ProbeEffect(tree, faults, files[i]))
  }

  // -------------------------------------------------------------------- acting

  /** Pins the source inode, then links it at the target unless something is already there. */
  function CreateHardlink(tree: Tree, faults: Faults, source: Path, target: Path, expected: Identity): (Tree, Status) {
    if source in faults.unreadable then (tree, Broken(Failure(ProbeSource, Io)))
    else if source !in tree then (tree, SourceMissing)
    else if tree[source] == Symlink then (tree, Broken(Failure(ProbeSource, IsSymlink)))
    else if tree[source] == NonRegular then (tree, Broken(Failure(ProbeSource, IsNonRegular)))
    else if tree[source].id != expected then (tree, Broken(Failure(ProbeSource, SourceChanged)))
    else if target in faults.unlinkable then (tree, Broken(Failure(CreateLink, Io)))
    else if target in tree then
      match tree[target]
      case Regular(id) => (tree, if id == expected then AcceptedExisting else TargetConflict(expected, id))
      case Symlink => (tree, Broken(Failure(VerifyCreatedLink, IsSymlink)))
      case NonRegular => (tree, Broken(Failure(VerifyCreatedLink, IsNonRegular)))
    else (tree[target := Regular(expected)], Created)
  }

  function ExecuteAction(tree: Tree, faults: Faults, file: Effect, probes: Probes, action: Action): (Tree, Status)
    requires action == Create ==> probes.source.identity.Some?
  {
    if probes.source.failure.Some? then (tree, Broken(probes.source.failure.value))
    else if probes.target.failure.Some? then (tree, Broken(probes.target.failure.value))
    else
      match action
      case SkipVerified => (tree, SkippedVerified)
      case AcceptExisting => (tree, AcceptedExisting)
      case FailMissing => (tree, SourceMissing)
      case FailConflict(source, target) => (tree, TargetConflict(source, target))
      case Create => CreateHardlink(tree, faults, file.source, file.target, probes.source.identity.value)
  }

  function Execute(tree: Tree, faults: Faults, file: Effect, probes: Probes): (Tree, Status) {
    ExecuteAction(tree, faults, file, probes,
                  PlanAction(Observation(probes), file.persisted))
  }

  /** Others only ever add entries where there are none. */
  function Arrive(tree: Tree, arrivals: Tree): Tree {
    arrivals + tree
  }

  /** The tree once the first `k` files have been acted on, each after the arrivals before it. */
  function TreeAfter(tree: Tree, faults: Faults, files: seq<Effect>, probes: seq<Probes>, arrivals: seq<Tree>, k: nat): Tree
    requires |files| == |probes| == |arrivals| && k <= |files|
  {
    if k == 0 then tree
    else Execute(Arrive(TreeAfter(tree, faults, files, probes, arrivals, k - 1), arrivals[k - 1]), faults, files[k - 1], probes[k - 1]).0
  }

  function StatusOf(tree: Tree, faults: Faults, files: seq<Effect>, probes: seq<Probes>, arrivals: seq<Tree>, k: nat): Status
    requires |files| == |probes| == |arrivals| && k < |files|
  {
    Execute(Arrive(TreeAfter(tree, faults, files, probes, arrivals, k), arrivals[k]), faults, files[k], probes[k]).1
  }

  datatype FileResult = FileResult(source: Path, target: Path, outcome: Outcome, status: Status)

  function ResultOf(tree: Tree, faults: Faults, files: seq<Effect>, probes: seq<Probes>, arrivals: seq<Tree>, k: nat): FileResult
    requires |files| == |probes| == |arrivals| && k < |files|
  {
    var status := StatusOf(tree, faults, files, probes, arrivals, k);
    FileResult(files[k].source, files[k].target, OutcomeOf(status), status)
  }

  function Observation(probes: Probes): Observed {
    Observed(probes.source.identity, probes.target.identity)
  }

  function Plan(file: Effect, probes: Probes): Planned {
    Planned(file.source, file.target, PlanAction(Observation(probes), file.persisted))
  }

  class Filesystem {
    var tree: Tree
    const faults: Faults

    constructor (tree: Tree, faults: Faults)
      ensures this.tree == tree && this.faults == faults
    {
      this.tree := tree;
      this.faults := faults;
    }

    method ExecuteLinkAction(file: Effect, probes: Probes, action: Action, arrivals: Tree) returns (status: Status)
      requires action == PlanAction(Observation(probes), file.persisted)
      modifies this
      ensures (tree, status) == Execute(Arrive(old(tree), arrivals), faults, file, probes)
    {
      tree := Arrive(tree, arrivals);
      var (next, s) := ExecuteAction(tree, faults, file, probes, action);
      tree, status := next, s;
    }

    method ExecutePlan(files: seq<Effect>, probes: seq<Probes>, plan: seq<Planned>, arrivals: seq<Tree>) returns (r: seq<FileResult>)
      requires |files| == |probes| == |plan| == |arrivals|
      requires forall i :: 0 <= i < |plan| ==> plan[i] == Plan(files[i], probes[i])
      modifies this
      ensures tree == TreeAfter(old(tree), faults, files, probes, arrivals, |files|)
      ensures |r| == |files|
      ensures forall i :: 0 <= i < |files| ==> r[i] == ResultOf(old(tree), faults, files, probes, arrivals, i)
    {
      hide Execute, Arrive, PlanAction, OutcomeOf;
      r := [];
      for k := 0 to |files|
        invariant tree == TreeAfter(old(tree), faults, files, probes, arrivals, k)
        invariant |r| == k
        invariant forall i :: 0 <= i < k ==> r[i] == ResultOf(old(tree), faults, files, probes, arrivals, i)
      {
        var status := ExecuteLinkAction(files[k], probes[k], plan[k].action, arrivals[k]);
        r := r + [FileResult(plan[k].source, plan[k].target, OutcomeOf(status), status)];
      }
    }

    method ApplyHardlinks(files: seq<Effect>, arrivals: seq<Tree>) returns (r: Result<seq<FileResult>, PlanError>)
      requires |arrivals| == |files|
      modifies this
      ensures r.Ok? <==> DistinctTargets(files)
      ensures r.Err? ==> tree == old(tree)
      ensures r.Ok? ==>
        var probes := ProbeAll(old(tree), faults, files);
        && tree == TreeAfter(old(tree), faults, files, probes, arrivals, |files|)
        && |r.value| == |files|
        && forall i :: 0 <= i < |files| ==>
          r.value[i] == ResultOf(old(tree), faults, files, probes, arrivals, i)
    {
      hide TreeAfter, ResultOf, PlanAction, DistinctTargets;
      var probes := ProbeAll(tree, faults, files);
      var plan := PlanLinkRetry(files, seq(|files|, i requires 0 <= i < |files| => Observation(probes[i])));
      if plan.Err? {
        return Err(plan.error);
      }
      var results := ExecutePlan(files, probes, plan.value, arrivals);
      r := Ok(results);
    }
  }

  // --------------------------------------- nothing existing is ever disturbed

  /** Every entry of `before` is in `after`, unchanged. */
  ghost predicate Extends(after: Tree, before: Tree) {
    forall p :: p in before ==> p in after && after[p] == before[p]
  }

  lemma ActionExtends(tree: Tree, faults: Faults, file: Effect, probes: Probes, arrivals: Tree)
    ensures Extends(Execute(Arrive(tree, arrivals), faults, file, probes).0, tree)
  {
  }

  /** A batch, whatever fails and whatever arrives meanwhile, neither removes nor retargets an entry. */
  lemma {:induction false} NothingIsDisturbed(
    tree: Tree, faults: Faults, files: seq<Effect>, probes: seq<Probes>, arrivals: seq<Tree>, j: nat, k: nat)
    requires |files| == |probes| == |arrivals| && j <= k <= |files|
    ensures Extends(TreeAfter(tree, faults, files, probes, arrivals, k), TreeAfter(tree, faults, files, probes, arrivals, j))
  {
    if j < k {
      NothingIsDisturbed(tree, faults, files, probes, arrivals, j, k - 1);
      ActionExtends(TreeAfter(tree, faults, files, probes, arrivals, k - 1), faults, files[k - 1], probes[k - 1], arrivals[k - 1]);
    }
  }

  /** Both paths are regular files sharing one inode. */
  ghost predicate SameFile(tree: Tree, source: Path, target: Path) {
    source in tree && target in tree && tree[source].Regular? && tree[source] == tree[target]
  }

  /** Even when the tree has grown since it was probed. */
  lemma LinkedActionLinks(now: Tree, probed: Tree, faults: Faults, file: Effect)
    requires Extends(now, probed) && OutcomeOf(Execute(now, faults, file, ProbeEffect(probed, faults, file)).1) == Linked
    ensures SameFile(Execute(now, faults, file, ProbeEffect(probed, faults, file)).0, file.source, file.target)
  {
  }

  lemma LinkedStep(tree: Tree, faults: Faults, files: seq<Effect>, probes: seq<Probes>, arrivals: seq<Tree>, i: nat)
    requires |files| == |probes| == |arrivals| && i < |files| && probes[i] == ProbeEffect(tree, faults, files[i])
    requires OutcomeOf(StatusOf(tree, faults, files, probes, arrivals, i)) == Linked
    ensures SameFile(TreeAfter(tree, faults, files, probes, arrivals, i + 1), files[i].source, files[i].target)
  {
    var before := TreeAfter(tree, faults, files, probes, arrivals, i);
    NothingIsDisturbed(tree, faults, files, probes, arrivals, 0, i);
    assert Extends(Arrive(before, arrivals[i]), before);
    LinkedActionLinks(Arrive(before, arrivals[i]), tree, faults, files[i]);
  }

  /** A file reported `Linked` shares its source's inode in the tree the batch leaves. */
  lemma LinkedMeansSameInode(tree: Tree, faults: Faults, files: seq<Effect>, arrivals: seq<Tree>, i: nat)
    requires |arrivals| == |files| && i < |files|
    requires OutcomeOf(StatusOf(tree, faults, files, ProbeAll(tree, faults, files), arrivals, i)) == Linked
    ensures SameFile(TreeAfter(tree, faults, files, ProbeAll(tree, faults, files), arrivals, |files|), files[i].source, files[i].target)
  {
    hide Execute, OutcomeOf, StatusOf, TreeAfter, ProbeEffect;
    var probes := ProbeAll(tree, faults, files);
    LinkedStep(tree, faults, files, probes, arrivals, i);
    NothingIsDisturbed(tree, faults, files, probes, arrivals, i + 1, |files|);
  }

  // ------------------------------------------------- what is reported, read off the trees

  /** A probe of the path finds a regular file. */
  ghost predicate FoundRegular(tree: Tree, faults: Faults, path: Path) {
    path !in faults.unreadable && path in tree && tree[path].Regular?
  }

  /** A probe of the path finds nothing. */
  ghost predicate FoundNothing(tree: Tree, faults: Faults, path: Path) {
    path !in faults.unreadable && path !in tree
  }

  /** A probe of the path fails: it cannot be read, or is a link or no regular file. */
  ghost predicate ProbeFails(tree: Tree, faults: Faults, path: Path) {
    path in faults.unreadable || (path in tree && (tree[path] == Symlink || tree[path] == NonRegular))
  }

  /** The link is to be made: when probed, only the source was there. */
  ghost predicate ToBeMade(probed: Tree, faults: Faults, file: Effect) {
    FoundRegular(probed, faults, file.source) && FoundNothing(probed, faults, file.target)
  }

  /** The link can be made or be found made: the source is still the same file, and links can be created there. */
  ghost predicate CanBeMade(now: Tree, probed: Tree, faults: Faults, file: Effect) {
    && ToBeMade(probed, faults, file) && file.source in now && now[file.source] == probed[file.source]
    && file.target !in faults.unlinkable
  }

  function Reported(now: Tree, probed: Tree, faults: Faults, file: Effect): Outcome {
    OutcomeOf(Execute(now, faults, file, ProbeEffect(probed, faults, file)).1)
  }

  /** `Linked`: one file was found at both ends, or the link was made, or was there when it was to be made. */
  lemma LinkedIff(now: Tree, probed: Tree, faults: Faults, file: Effect)
    ensures Reported(now, probed, faults, file) == Linked <==>
      || (FoundRegular(probed, faults, file.source) && FoundRegular(probed, faults, file.target) && probed[file.source] == probed[file.target])
      || (CanBeMade(now, probed, faults, file) && (file.target !in now || now[file.target] == probed[file.source]))
  {
  }

  /** `Missing`: no probe failed and there was no source, or there was none any more when the link was to be made. */
  lemma MissingIff(now: Tree, probed: Tree, faults: Faults, file: Effect)
    ensures Reported(now, probed, faults, file) == Missing <==>
      || (FoundNothing(probed, faults, file.source) && !ProbeFails(probed, faults, file.target))
      || (ToBeMade(probed, faults, file) && file.source !in now)
  {
  }

  /** `Conflict`: two different regular files, when probed or when the link was to be made. */
  lemma ConflictIff(now: Tree, probed: Tree, faults: Faults, file: Effect)
    ensures Reported(now, probed, faults, file) == Conflict <==>
      || (FoundRegular(probed, faults, file.source) && FoundRegular(probed, faults, file.target) && probed[file.source] != probed[file.target])
      || (CanBeMade(now, probed, faults, file) && file.target in now && now[file.target].Regular? && now[file.target] != probed[file.source])
  {
  }

  /** `Failed`: a probe failed, the source has become another file, the link cannot be created, or no regular file has its path. */
  lemma FailedIff(now: Tree, probed: Tree, faults: Faults, file: Effect)
    ensures Reported(now, probed, faults, file) == Failed <==>
      || ProbeFails(probed, faults, file.source) || ProbeFails(probed, faults, file.target)
      || (ToBeMade(probed, faults, file) && file.source in now && now[file.source] != probed[file.source])
      || (ToBeMade(probed, faults, file) && file.source in now && file.target in faults.unlinkable)
      || (CanBeMade(now, probed, faults, file) && file.target in now && !now[file.target].Regular?)
  {
  }

  /** Which probe failed, the source's first, and of what; a conflict names both files, the source's first. */
  lemma StatusNamesCause(now: Tree, probed: Tree, faults: Faults, file: Effect)
    ensures var status := Execute(now, faults, file, ProbeEffect(probed, faults, file)).1;
      && (file.source in faults.unreadable ==> status == Broken(Failure(ProbeSource, Io)))
      && (file.source !in faults.unreadable && file.source in probed && !probed[file.source].Regular? ==>
            status == Broken(Failure(ProbeSource, if probed[file.source] == Symlink then IsSymlink else IsNonRegular)))
      && (!ProbeFails(probed, faults, file.source) && file.target in faults.unreadable ==> status == Broken(Failure(ProbeTarget, Io)))
      && (!ProbeFails(probed, faults, file.source) && file.target !in faults.unreadable && file.target in probed && !probed[file.target].Regular? ==>
            status == Broken(Failure(ProbeTarget, if probed[file.target] == Symlink then IsSymlink else IsNonRegular)))
      && (CanBeMade(now, probed, faults, file) && file.target in now && !now[file.target].Regular? ==>
            status == Broken(Failure(VerifyCreatedLink, if now[file.target] == Symlink then IsSymlink else IsNonRegular)))
      && (forall source, target :: status == TargetConflict(source, target) ==>
            probed[file.source] == Regular(source) && source != target
            && Regular(target) == if file.target in probed then probed[file.target] else now[file.target])
  {
  }

  /** What acting on one file leaves at its target. */
  lemma TargetAfter(now: Tree, probed: Tree, faults: Faults, file: Effect)
    ensures var after := Execute(now, faults, file, ProbeEffect(probed, faults, file)).0;
      && (CanBeMade(now, probed, faults, file) ==>
            file.target in after && after[file.target] == if file.target in now then now[file.target] else probed[file.source])
      && (!CanBeMade(now, probed, faults, file) ==> after == now)
  {
  }

  /** The tree a batch finds and the tree it leaves say what it reports of a file. */
  ghost predicate ReportFits(probed: Tree, final: Tree, faults: Faults, file: Effect, outcome: Outcome) {
    var source, target := file.source, file.target;
    if ProbeFails(probed, faults, source) || ProbeFails(probed, faults, target) then outcome == Failed
    else if source !in probed then outcome == Missing
    else if target !in probed && target in faults.unlinkable then outcome == Failed
    else
      && target in final
      && outcome == if final[target] == probed[source] then Linked else if final[target].Regular? then Conflict else Failed
  }

  lemma ActedFits(now: Tree, probed: Tree, final: Tree, faults: Faults, file: Effect)
    requires Extends(now, probed) && Extends(final, Execute(now, faults, file, ProbeEffect(probed, faults, file)).0) && Extends(final, now)
    ensures ReportFits(probed, final, faults, file, Reported(now, probed, faults, file))
  {
    hide Reported, Execute;
    LinkedIff(now, probed, faults, file);
    MissingIff(now, probed, faults, file);
    ConflictIff(now, probed, faults, file);
    FailedIff(now, probed, faults, file);
    TargetAfter(now, probed, faults, file);
  }

  /**
   Every result of a batch names its file and fits the tree found and the tree left: `Failed` if a probe failed,
   else `Missing` without a source, else `Failed` if the link is missing and cannot be created, and else what
   the tree left has at the target decides: the source's file, another regular file, or neither.
   */
  lemma ResultFitsTrees(tree: Tree, faults: Faults, files: seq<Effect>, arrivals: seq<Tree>, i: nat)
    requires |arrivals| == |files| && i < |files|
    ensures var probes := ProbeAll(tree, faults, files);
      var result := ResultOf(tree, faults, files, probes, arrivals, i);
      && result.source == files[i].source && result.target == files[i].target
      && ReportFits(tree, TreeAfter(tree, faults, files, probes, arrivals, |files|), faults, files[i], result.outcome)
  {
    var probes := ProbeAll(tree, faults, files);
    var before := TreeAfter(tree, faults, files, probes, arrivals, i);
    var now := Arrive(before, arrivals[i]);
    var next := TreeAfter(tree, faults, files, probes, arrivals, i + 1);
    assert next == Execute(now, faults, files[i], probes[i]).0;
    assert probes[i] == ProbeEffect(tree, faults, files[i]);
    NothingIsDisturbed(tree, faults, files, probes, arrivals, 0, i);
    NothingIsDisturbed(tree, faults, files, probes, arrivals, i + 1, |files|);
    ActionKeeps(now, faults, files[i], probes[i]);
    hide TreeAfter, Execute, ProbeEffect, ReportFits, OutcomeOf;
    ActedFits(now, tree, TreeAfter(tree, faults, files, probes, arrivals, |files|), faults, files[i]);
  }

  lemma ActionKeeps(now: Tree, faults: Faults, file: Effect, probes: Probes)
    ensures Extends(Execute(now, faults, file, probes).0, now)
  {
  }

  /** What others add is there from then on, unless its path was taken. */
  lemma ArrivalsStay(
    tree: Tree, faults: Faults, files: seq<Effect>, probes: seq<Probes>, arrivals: seq<Tree>, i: nat, k: nat, path: Path)
    requires |files| == |probes| == |arrivals| && i < k <= |files| && path in arrivals[i]
    ensures var before, after := TreeAfter(tree, faults, files, probes, arrivals, i), TreeAfter(tree, faults, files, probes, arrivals, k);
      path in after && after[path] == if path in before then before[path] else arrivals[i][path]
  {
    hide Execute;
    var now := Arrive(TreeAfter(tree, faults, files, probes, arrivals, i), arrivals[i]);
    ActionKeeps(now, faults, files[i], probes[i]);
    assert path in now;
    NothingIsDisturbed(tree, faults, files, probes, arrivals, i + 1, k);
  }

  // ------------------------------------------------------- crashes and retries

  function NoArrivals(n: nat): (r: seq<Tree>)
    ensures |r| == n && forall k :: 0 <= k < n ==> r[k] == map[]
  {
    seq(n, _ => map[])
  }

  /** What a process that crashes after acting on `k` files leaves, when nobody else interferes. */
  function CrashedAfter(tree: Tree, faults: Faults, files: seq<Effect>, k: nat): Tree
    requires k <= |files|
  {
    TreeAfter(tree, faults, files, ProbeAll(tree, faults, files), NoArrivals(|files|), k)
  }

  function Batch(tree: Tree, faults: Faults, files: seq<Effect>): Tree {
    CrashedAfter(tree, faults, files, |files|)
  }

  /** Whether a batch that starts on `tree` creates the link of `file`. */
  predicate Creates(tree: Tree, faults: Faults, file: Effect) {
    && file.source !in faults.unreadable && file.source in tree && tree[file.source].Regular?
    && file.target !in faults.unreadable && file.target !in faults.unlinkable && file.target !in tree
  }

  /** `after` is `before` with the links that the first `k` files create there, and nothing else. */
  ghost predicate AddsExactly(after: Tree, before: Tree, faults: Faults, files: seq<Effect>, k: nat)
    requires k <= |files|
  {
    && Extends(after, before)
    && (forall i :: 0 <= i < k && Creates(before, faults, files[i]) ==>
          files[i].target in after && after[files[i].target] == before[files[i].source])
    && (forall p :: p in after ==> p in before || CreatedBy(before, faults, files, k, p))
  }

  ghost predicate CreatedBy(before: Tree, faults: Faults, files: seq<Effect>, k: nat, p: Path)
    requires k <= |files|
  {
    exists i :: 0 <= i < k && Creates(before, faults, files[i]) && files[i].target == p
  }

  lemma ExecuteAdds(tree: Tree, before: Tree, faults: Faults, file: Effect)
    requires Extends(tree, before) && (file.target in tree ==> file.target in before)
    ensures Execute(tree, faults, file, ProbeEffect(before, faults, file)).0 ==
      if Creates(before, faults, file) then tree[file.target := before[file.source]] else tree
  {
  }

  lemma NoCrashStep(tree: Tree, faults: Faults, files: seq<Effect>, k: nat)
    requires k < |files|
    ensures CrashedAfter(tree, faults, files, k + 1) ==
      Execute(CrashedAfter(tree, faults, files, k), faults, files[k], ProbeEffect(tree, faults, files[k])).0
  {
    hide Execute, ProbeEffect;
    assert Arrive(CrashedAfter(tree, faults, files, k), NoArrivals(|files|)[k]) == CrashedAfter(tree, faults, files, k);
  }

  lemma TargetIsNew(now: Tree, before: Tree, faults: Faults, files: seq<Effect>, k: nat)
    requires DistinctTargets(files) && k < |files| && AddsExactly(now, before, faults, files, k)
    ensures files[k].target in now ==> files[k].target in before
  {
    hide Creates;
  }

  lemma StepAddsExactly(now: Tree, next: Tree, before: Tree, faults: Faults, files: seq<Effect>, k: nat)
    requires DistinctTargets(files) && k < |files| && AddsExactly(now, before, faults, files, k)
    requires next == if Creates(before, faults, files[k]) then now[files[k].target := before[files[k].source]] else now
    ensures AddsExactly(next, before, faults, files, k + 1)
  {
    forall p | p in next && p !in before ensures CreatedBy(before, faults, files, k + 1, p) {
      if p in now {
        assert CreatedBy(before, faults, files, k, p);
      } else {
        assert files[k].target == p;
      }
    }
  }

  lemma NextAdds(now: Tree, before: Tree, faults: Faults, files: seq<Effect>, k: nat)
    requires DistinctTargets(files) && k < |files| && AddsExactly(now, before, faults, files, k)
    ensures AddsExactly(Execute(now, faults, files[k], ProbeEffect(before, faults, files[k])).0, before, faults, files, k + 1)
  {
    hide Execute, ProbeEffect, Creates, CreatedBy, DistinctTargets, Extends;
    TargetIsNew(now, before, faults, files, k);
    ExecuteAdds(now, before, faults, files[k]);
    StepAddsExactly(now, Execute(now, faults, files[k], ProbeEffect(before, faults, files[k])).0, before, faults, files, k);
  }

  /** Which links appear is settled by the tree the batch starts on. */
  lemma {:induction false} CrashedAddsExactly(tree: Tree, faults: Faults, files: seq<Effect>, k: nat)
    requires DistinctTargets(files) && k <= |files|
    ensures AddsExactly(CrashedAfter(tree, faults, files, k), tree, faults, files, k)
  {
    if k > 0 {
      hide AddsExactly, Execute, ProbeEffect, DistinctTargets, CrashedAfter;
      CrashedAddsExactly(tree, faults, files, k - 1);
      NextAdds(CrashedAfter(tree, faults, files, k - 1), tree, faults, files, k - 1);
      NoCrashStep(tree, faults, files, k - 1);
    }
  }

  lemma AddsExactlyUnique(a: Tree, b: Tree, before: Tree, faults: Faults, files: seq<Effect>, k: nat)
    requires k <= |files| && AddsExactly(a, before, faults, files, k) && AddsExactly(b, before, faults, files, k)
    ensures a == b
  {
    assert forall p :: p in a ==> p in b && a[p] == b[p];
    assert forall p :: p in b ==> p in a && a[p] == b[p];
  }

  /** File `i` waits for a source that only file `j` of the same batch creates. */
  predicate Waits(tree: Tree, faults: Faults, files: seq<Effect>, i: nat, j: nat) {
    && i < |files| && j < |files|
    && Creates(tree, faults, files[j]) && files[i].source == files[j].target
    && files[i].target !in faults.unreadable && files[i].target !in faults.unlinkable && files[i].target !in tree
  }

  /** No file of the batch waits for one of its first `k` files. */
  ghost predicate NobodyWaitsFor(tree: Tree, faults: Faults, files: seq<Effect>, k: nat) {
    forall i: nat, j: nat :: j < k ==> !Waits(tree, faults, files, i, j)
  }

  ghost predicate NobodyWaits(tree: Tree, faults: Faults, files: seq<Effect>) {
    NobodyWaitsFor(tree, faults, files, |files|)
  }

  /** The same files, with whatever outcomes were persisted meanwhile. */
  predicate SamePaths(files: seq<Effect>, files': seq<Effect>) {
    |files| == |files'| && forall i :: 0 <= i < |files| ==> files[i].source == files'[i].source && files[i].target == files'[i].target
  }

  /** After a crash, the files still to be linked are exactly those not yet reached, if nobody waits for another. */
  lemma CreatesAfterCrash(tree: Tree, crashed: Tree, faults: Faults, files: seq<Effect>, k: nat, i: nat)
    requires DistinctTargets(files) && NobodyWaitsFor(tree, faults, files, k) && i < |files| && k <= |files|
    requires AddsExactly(crashed, tree, faults, files, k)
    ensures Creates(crashed, faults, files[i]) <==> Creates(tree, faults, files[i]) && i >= k
    ensures Creates(tree, faults, files[i]) ==> crashed[files[i].source] == tree[files[i].source]
  {
    if Creates(crashed, faults, files[i]) && files[i].source !in tree {
      var j :| 0 <= j < k && Creates(tree, faults, files[j]) && files[j].target == files[i].source;
      assert Waits(tree, faults, files, i, j);
    }
    assert files[i].target in crashed && files[i].target !in tree ==> CreatedBy(tree, faults, files, k, files[i].target);
  }

  lemma RetryCompletes(tree: Tree, faults: Faults, files: seq<Effect>, files': seq<Effect>, k: nat)
    requires DistinctTargets(files) && SamePaths(files, files') && k <= |files| && NobodyWaitsFor(tree, faults, files, k)
    ensures Batch(CrashedAfter(tree, faults, files, k), faults, files') == Batch(tree, faults, files)
  {
    var crashed := CrashedAfter(tree, faults, files, k);
    var final := Batch(crashed, faults, files');
    CrashedAddsExactly(tree, faults, files, k);
    CrashedAddsExactly(tree, faults, files, |files|);
    CrashedAddsExactly(crashed, faults, files', |files|);
    forall i | 0 <= i < |files|
      ensures Creates(crashed, faults, files'[i]) <==> Creates(tree, faults, files[i]) && i >= k
      ensures Creates(tree, faults, files[i]) ==> crashed[files[i].source] == tree[files[i].source]
    {
      CreatesAfterCrash(tree, crashed, faults, files, k, i);
    }
    forall p | p in final && p !in tree ensures CreatedBy(tree, faults, files, |files|, p) {
      if p in crashed {
        assert CreatedBy(tree, faults, files, k, p);
      } else {
        assert CreatedBy(crashed, faults, files', |files|, p);
      }
    }
    AddsExactlyUnique(final, Batch(tree, faults, files), tree, faults, files, |files|);
  }

  /** A file that waits for one already reached is left out so far, and its source is there. */
  lemma WaiterIsLeftOut(tree: Tree, faults: Faults, files: seq<Effect>, k: nat, i: nat, j: nat)
    requires DistinctTargets(files) && Waits(tree, faults, files, i, j) && j < k <= |files|
    ensures files[i].target !in CrashedAfter(tree, faults, files, k)
    ensures Creates(CrashedAfter(tree, faults, files, k), faults, files[i])
  {
    var crashed := CrashedAfter(tree, faults, files, k);
    CrashedAddsExactly(tree, faults, files, k);
    assert !CreatedBy(tree, faults, files, k, files[i].target);
    assert crashed[files[j].target] == tree[files[j].source];
  }

  /** The retry links it, which an uninterrupted run does not. */
  lemma WaiterIsLinkedByRetry(tree: Tree, faults: Faults, files: seq<Effect>, files': seq<Effect>, k: nat, i: nat, j: nat)
    requires DistinctTargets(files) && SamePaths(files, files') && Waits(tree, faults, files, i, j) && j < k <= |files|
    ensures files[i].target in Batch(CrashedAfter(tree, faults, files, k), faults, files')
    ensures files[i].target !in Batch(tree, faults, files)
  {
    var crashed := CrashedAfter(tree, faults, files, k);
    WaiterIsLeftOut(tree, faults, files, k, i, j);
    WaiterIsLeftOut(tree, faults, files, |files|, i, j);
    CrashedAddsExactly(crashed, faults, files', |files|);
    assert Creates(crashed, faults, files'[i]);
  }

  /**
   A crash after `k` files, then a retry with any persisted outcomes, ends where an uninterrupted run
   ends if and only if no file waits for one of the `k` files that had been reached.
   */
  lemma RetryAfterCrash(tree: Tree, faults: Faults, files: seq<Effect>, files': seq<Effect>, k: nat)
    requires DistinctTargets(files) && SamePaths(files, files') && k <= |files|
    ensures Batch(CrashedAfter(tree, faults, files, k), faults, files') == Batch(tree, faults, files)
       <==> NobodyWaitsFor(tree, faults, files, k)
  {
    if NobodyWaitsFor(tree, faults, files, k) {
      RetryCompletes(tree, faults, files, files', k);
    } else {
      var i: nat, j: nat :| j < k && Waits(tree, faults, files, i, j);
      WaiterIsLinkedByRetry(tree, faults, files, files', k, i, j);
    }
  }

  /** One more run creates nothing exactly when no file of the batch waits for another's target. */
  lemma RerunCreatesNothingIff(tree: Tree, faults: Faults, files: seq<Effect>, files': seq<Effect>)
    requires DistinctTargets(files) && SamePaths(files, files')
    ensures Batch(Batch(tree, faults, files), faults, files') == Batch(tree, faults, files) <==> NobodyWaits(tree, faults, files)
  {
    RetryAfterCrash(tree, faults, files, files', |files|);
  }

  /** In particular, nobody waits when no source path of the batch is also a target of it. */
  lemma DisjointPathsNeverWait(tree: Tree, faults: Faults, files: seq<Effect>)
    requires forall i, j :: 0 <= i < |files| && 0 <= j < |files| ==> files[i].source != files[j].target
    ensures NobodyWaits(tree, faults, files)
  {
  }

  /** A chain does wait: the second link is only made by a second run. */
  lemma ChainNeedsTwoRuns()
    ensures var files := [Effect("b", "c", Pending), Effect("a", "b", Pending)];
      var tree := map["a" := Regular(Identity(1, 1))];
      var once := Batch(tree, Faults({}, {}), files);
      DistinctTargets(files) && Batch(once, Faults({}, {}), files) != once
  {
    var files := [Effect("b", "c", Pending), Effect("a", "b", Pending)];
    var tree: Tree := map["a" := Regular(Identity(1, 1))];
    assert Waits(tree, Faults({}, {}), files, 0, 1);
    RerunCreatesNothingIff(tree, Faults({}, {}), files, files);
  }
}
