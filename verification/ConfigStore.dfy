/**
 The configuration store under concurrency. Any number of callers run `update`; each may be
 cancelled wherever it awaits, while the write it has started goes on and keeps its permit.
 One step of this system is what a caller or a blocking closure does between two awaits.
 */
module ConfigStore {
  import opened Wrappers

  const U64_MAX: nat := 0xFFFF_FFFF_FFFF_FFFF

  datatype Snapshot<C> = Snapshot(revision: nat, value: C)

  datatype UpdateError =
    | Stale(expected: nat, actual: nat)
    | Mutation(message: string)
    | Persist

  datatype Request<!C> = Request(
    expected: Option<nat>,
    mutate: C -> Result<C, string>,
    validate: C -> Option<string>
  )

  /** What an update decides once it has read the current snapshot. */
  datatype Plan<C> =
    | Reject(error: UpdateError)
    | NoChange
    | Write(next: C)

  function Prepare<C(==)>(request: Request<C>, current: Snapshot<C>): Plan<C> {
    if request.expected.Some? && request.expected.value != current.revision then
      Reject(Stale(request.expected.value, current.revision))
    else
      match request.mutate(current.value)
      case Err(message) => Reject(Mutation(message))
      case Ok(next) =>
        match request.validate(next)
        case Some(message) => Reject(Mutation(message))
        case None => if next == current.value then NoChange else Write(next)
  }

  function NextRevision(revision: nat): nat {
    if revision >= U64_MAX then U64_MAX else revision + 1
  }

  // ------------------------------------------------------------- the step system

  datatype Phase<C> =
    | Idle                                                   // waiting for the update gate
    | Gated                                                  // holds the gate
    | Waiting(base: Snapshot<C>, next: C)                    // holds the gate, waits for a permit
    | Persisting(base: Snapshot<C>, next: C, job: nat)       // holds the gate, awaits its closure
    | Answered(base: Snapshot<C>, next: C, ok: bool)         // holds the gate, closure has returned
    | Done(result: Result<Snapshot<C>, UpdateError>)
    | Cancelled

  datatype JobStatus = Running | Committed | Failed

  /** A blocking closure; it owns one permit from start to return. */
  datatype Job<C> = Job(owner: nat, value: C, status: JobStatus)

  /** One completed rename of the configuration file. */
  datatype Commit<C> = Commit(owner: nat, value: C)

  datatype Publication<C> = Publication(caller: nat, base: Snapshot<C>, published: Snapshot<C>)

  datatype State<C> = State(
    memory: Snapshot<C>,
    disk: C,
    gate: Option<nat>,
    free: nat,
    live: map<nat, Job<C>>,
    phase: map<nat, Phase<C>>,
    commits: seq<Commit<C>>,
    history: seq<Publication<C>>
  )

  datatype World<!C> = World(capacity: nat, requests: map<nat, Request<C>>)

  datatype Step =
    | AcquireGate(caller: nat)
    | ReadAndPrepare(caller: nat)
    | StartPersist(caller: nat, job: nat)
    | CommitWrite(job: nat)
    | FailWrite(job: nat)
    | Return(job: nat, panicked: bool)
    | Finish(caller: nat)
    | Cancel(caller: nat)

  predicate Holding<C>(phase: Phase<C>) {
    phase.Gated? || phase.Waiting? || phase.Persisting? || phase.Answered?
  }

  function Init<C>(w: World<C>, value: C): State<C> {
    State(Snapshot(1, value), value, None, w.capacity, map[], map id | id in w.requests :: Idle, [], [])
  }

  predicate Enabled<C>(w: World<C>, s: State<C>, step: Step) {
    match step
    case AcquireGate(id) => id in s.phase && s.phase[id].Idle? && s.gate == None
    case ReadAndPrepare(id) => id in s.phase && id in w.requests && s.phase[id].Gated?
    case StartPersist(id, job) => id in s.phase && s.phase[id].Waiting? && s.free > 0 && job !in s.live
    case CommitWrite(job) => job in s.live && s.live[job].status == Running
    case FailWrite(job) => job in s.live && s.live[job].status == Running
    case Return(job, panicked) => job in s.live && (s.live[job].status == Running ==> panicked)
    case Finish(id) => id in s.phase && s.phase[id].Answered?
    case Cancel(id) => id in s.phase && (s.phase[id].Idle? || Holding(s.phase[id]))
  }

  /** The caller leaves; the gate is released if it was holding it. */
  function Leave<C>(s: State<C>, id: nat, phase: Phase<C>): State<C>
    requires id in s.phase
  {
    s.(phase := s.phase[id := phase], gate := if Holding(s.phase[id]) then None else s.gate)
  }

  function Apply<C(==)>(w: World<C>, s: State<C>, step: Step): State<C>
    requires Enabled(w, s, step)
  {
    match step
    case AcquireGate(id) => s.(gate := Some(id), phase := s.phase[id := Gated])
    case ReadAndPrepare(id) =>
      (match Prepare(w.requests[id], s.memory)
       case Reject(error) => Leave(s, id, Done(Err(error)))
       case NoChange => Leave(s, id, Done(Ok(s.memory)))
       case Write(next) => s.(phase := s.phase[id := Waiting(s.memory, next)]))
    case StartPersist(id, job) =>
      var Waiting(base, next) := s.phase[id];
      s.(free := s.free - 1,
         live := s.live[job := Job(id, next, Running)],
         phase := s.phase[id := Persisting(base, next, job)])
    case CommitWrite(job) =>
      var j := s.live[job];
      s.(disk := j.value,
         live := s.live[job := j.(status := Committed)],
         commits := s.commits + [Commit(j.owner, j.value)])
    case FailWrite(job) => s.(live := s.live[job := s.live[job].(status := Failed)])
    case Return(job, panicked) =>
      var j := s.live[job];
      var returned := s.(free := s.free + 1, live := s.live - {job});
      if j.owner in s.phase && s.phase[j.owner].Persisting? && s.phase[j.owner].job == job then
        var Persisting(base, next, _) := s.phase[j.owner];
        returned.(phase := s.phase[j.owner := Answered(base, next, j.status == Committed && !panicked)])
      else returned
    case Finish(id) =>
      var Answered(base, next, ok) := s.phase[id];
      if !ok then Leave(s, id, Done(Err(Persist)))
      else if s.memory.revision != base.revision then
        Leave(s, id, Done(Err(Stale(base.revision, s.memory.revision))))
      else
        var published := Snapshot(NextRevision(base.revision), next);
        Leave(s, id, Done(Ok(published))).(
          memory := published,
          history := s.history + [Publication(id, s.memory, published)])
    case Cancel(id) => Leave(s, id, Cancelled)
  }

  /** The step replaces the snapshot in memory. */
  predicate Publishes<C>(s: State<C>, step: Step) {
    && step.Finish? && step.caller in s.phase && s.phase[step.caller].Answered?
    && s.phase[step.caller].ok && s.memory.revision == s.phase[step.caller].base.revision
  }

  // ----------------------------------------------------------------- invariants

  /** Permits are conserved, whatever the capacity, cancelled callers included. */
  ghost predicate PermitsConserved<C>(w: World<C>, s: State<C>) {
    s.free + |s.live| == w.capacity
  }

  lemma ReturnFreesOnePermit<C>(w: World<C>, s: State<C>, step: Step)
    requires step.Return? && Enabled(w, s, step)
    ensures Apply(w, s, step).live == s.live - {step.job} && Apply(w, s, step).free == s.free + 1
    ensures |Apply(w, s, step).live| == |s.live| - 1
  {
    assert (s.live - {step.job}).Keys == s.live.Keys - {step.job};
  }

  lemma OneJobMore<C>(live: map<nat, Job<C>>, job: nat, j: Job<C>)
    requires job !in live
    ensures |live[job := j]| == |live| + 1
  {
    assert live[job := j].Keys == live.Keys + {job};
  }

  lemma SameJobs<C>(live: map<nat, Job<C>>, job: nat, j: Job<C>)
    requires job in live
    ensures |live[job := j]| == |live|
  {
    assert live[job := j].Keys == live.Keys;
  }

  lemma LeaveKeepsJobs<C>(s: State<C>)
    ensures forall id, phase :: id in s.phase ==> Leave(s, id, phase).live == s.live && Leave(s, id, phase).free == s.free
  {
  }

  lemma PermitsStayConserved<C>(w: World<C>, s: State<C>, step: Step)
    requires PermitsConserved(w, s) && Enabled(w, s, step)
    ensures PermitsConserved(w, Apply(w, s, step))
  {
    hide Prepare, NextRevision, Leave;
    match step
    case StartPersist(_, job) => OneJobMore(s.live, job, Apply(w, s, step).live[job]);
    case CommitWrite(job) => SameJobs(s.live, job, Apply(w, s, step).live[job]);
    case FailWrite(job) => SameJobs(s.live, job, Apply(w, s, step).live[job]);
    case Return(_, _) => ReturnFreesOnePermit(w, s, step);
    case _ => LeaveKeepsJobs(s);
  }

  /** What the holder of the gate may rely on. */
  ghost predicate HolderOk<C(!new)>(w: World<C>, s: State<C>, id: nat)
    requires id in s.phase
  {
    match s.phase[id]
    case Gated => true
    case Waiting(base, next) => Planned(w, s, id, base, next)
    case Persisting(base, next, job) =>
      && Planned(w, s, id, base, next)
      && job in s.live && s.live[job].owner == id && s.live[job].value == next
    case Answered(base, next, ok) =>
      && Planned(w, s, id, base, next)
      && s.live == map[]
      && (ok ==> s.disk == next)
    case _ => false
  }

  ghost predicate Planned<C(!new)>(w: World<C>, s: State<C>, id: nat, base: Snapshot<C>, next: C) {
    base == s.memory && id in w.requests && Prepare(w.requests[id], base) == Write(next)
  }

  /** Mutual exclusion, one live closure, and: a committed live closure is the last writer of the disk. */
  ghost predicate Inv<C(!new)>(w: World<C>, s: State<C>) {
    && w.capacity == 1 && PermitsConserved(w, s)
    && (forall id :: id in s.phase && Holding(s.phase[id]) ==> s.gate == Some(id))
    && (s.gate.Some? ==> s.gate.value in s.phase && HolderOk(w, s, s.gate.value))
    && (forall job :: job in s.live && s.live[job].status == Committed ==> s.disk == s.live[job].value)
  }

  lemma InitInv<C(!new)>(w: World<C>, value: C)
    requires w.capacity == 1
    ensures Inv(w, Init(w, value))
  {
  }

  /** With one permit there is at most one live closure. */
  lemma OnlyJob<C>(live: map<nat, Job<C>>, job: nat)
    requires |live| <= 1 && job in live
    ensures live == map[job := live[job]]
    ensures live - {job} == map[]
  {
    assert |live.Keys - {job}| == |live.Keys| - 1;
    assert live.Keys - {job} == {};
    assert forall other :: other in live ==> other == job || other in live.Keys - {job};
  }

  lemma JobStepInv<C(!new)>(w: World<C>, s: State<C>, step: Step)
    requires Inv(w, s) && Enabled(w, s, step) && (step.CommitWrite? || step.FailWrite? || step.Return?)
    ensures Inv(w, Apply(w, s, step))
  {
    hide Prepare, NextRevision;
    PermitsStayConserved(w, s, step);
    OnlyJob(s.live, step.job);
  }

  lemma LeaveInv<C(!new)>(w: World<C>, s: State<C>, id: nat, phase: Phase<C>)
    requires Inv(w, s) && id in s.phase && !Holding(phase)
    ensures Inv(w, Leave(s, id, phase))
  {
    hide Prepare;
  }

  lemma AcquireInv<C(!new)>(w: World<C>, s: State<C>, step: Step)
    requires Inv(w, s) && Enabled(w, s, step) && step.AcquireGate?
    ensures Inv(w, Apply(w, s, step))
  {
    hide Prepare;
  }

  lemma StartInv<C(!new)>(w: World<C>, s: State<C>, step: Step)
    requires Inv(w, s) && Enabled(w, s, step) && step.StartPersist?
    ensures Inv(w, Apply(w, s, step))
  {
    hide Prepare;
    PermitsStayConserved(w, s, step);
    assert s.live == map[];
  }

  lemma ReadInv<C(!new)>(w: World<C>, s: State<C>, step: Step)
    requires Inv(w, s) && Enabled(w, s, step) && step.ReadAndPrepare?
    ensures Inv(w, Apply(w, s, step))
  {
    hide Prepare;
    var id := step.caller;
    match Prepare(w.requests[id], s.memory)
    case Reject(error) => LeaveInv(w, s, id, Done(Err(error)));
    case NoChange => LeaveInv(w, s, id, Done(Ok(s.memory)));
    case Write(_) =>
  }

  lemma FinishInv<C(!new)>(w: World<C>, s: State<C>, step: Step)
    requires Inv(w, s) && Enabled(w, s, step) && step.Finish?
    ensures Inv(w, Apply(w, s, step))
  {
    hide Prepare, NextRevision;
    var id, after := step.caller, Apply(w, s, step);
    LeaveInv(w, s, id, after.phase[id]);
    assert after == Leave(s, id, after.phase[id]).(memory := after.memory, history := after.history);
  }

  lemma CallerStepInv<C(!new)>(w: World<C>, s: State<C>, step: Step)
    requires Inv(w, s) && Enabled(w, s, step) && !(step.CommitWrite? || step.FailWrite? || step.Return?)
    ensures Inv(w, Apply(w, s, step))
  {
    hide Inv, Prepare;
    match step
    case AcquireGate(_) => AcquireInv(w, s, step);
    case ReadAndPrepare(_) => ReadInv(w, s, step);
    case StartPersist(_, _) => StartInv(w, s, step);
    case Finish(_) => FinishInv(w, s, step);
    case Cancel(id) => LeaveInv(w, s, id, Cancelled);
  }

  lemma StepInv<C(!new)>(w: World<C>, s: State<C>, step: Step)
    requires Inv(w, s) && Enabled(w, s, step)
    ensures Inv(w, Apply(w, s, step))
  {
    if step.CommitWrite? || step.FailWrite? || step.Return? {
      JobStepInv(w, s, step);
    } else {
      CallerStepInv(w, s, step);
    }
  }

  // ---------------------------------------------------------------------- runs

  /** `states` are the states an arbitrary interleaving of `steps` passes through. */
  ghost predicate Run<C(!new)>(w: World<C>, value: C, steps: seq<Step>, states: seq<State<C>>) {
    && |states| == |steps| + 1
    && states[0] == Init(w, value)
    && forall k :: 0 <= k < |steps| ==> Enabled(w, states[k], steps[k]) && states[k + 1] == Apply(w, states[k], steps[k])
  }

  lemma {:induction false} RunInv<C(!new)>(w: World<C>, value: C, steps: seq<Step>, states: seq<State<C>>, k: nat)
    requires w.capacity == 1 && Run(w, value, steps, states) && k <= |steps|
    ensures Inv(w, states[k])
  {
    if k == 0 {
      InitInv(w, value);
    } else {
      RunInv(w, value, steps, states, k - 1);
      StepInv(w, states[k - 1], steps[k - 1]);
    }
  }

  /** The executor's bound, for every capacity: live closures never outnumber the permits. */
  lemma {:induction false} LiveClosuresBounded<C(!new)>(w: World<C>, value: C, steps: seq<Step>, states: seq<State<C>>, k: nat)
    requires Run(w, value, steps, states) && k <= |steps|
    ensures PermitsConserved(w, states[k]) && |states[k].live| <= w.capacity
  {
    if k > 0 {
      LiveClosuresBounded(w, value, steps, states, k - 1);
      PermitsStayConserved(w, states[k - 1], steps[k - 1]);
    }
  }

  /** At every publication the file already holds exactly the published value. */
  lemma PublishedValueIsOnDisk<C(!new)>(w: World<C>, value: C, steps: seq<Step>, states: seq<State<C>>, k: nat)
    requires w.capacity == 1 && Run(w, value, steps, states) && k < |steps| && Publishes(states[k], steps[k])
    ensures states[k + 1].disk == states[k + 1].memory.value
  {
    RunInv(w, value, steps, states, k);
  }

  /** The second revision check is never the one that fails: a persisted update is always published. */
  lemma RecheckNeverFails<C(!new)>(w: World<C>, value: C, steps: seq<Step>, states: seq<State<C>>, k: nat)
    requires w.capacity == 1 && Run(w, value, steps, states) && k < |steps|
    requires steps[k].Finish? && states[k].phase[steps[k].caller].ok
    ensures Publishes(states[k], steps[k])
  {
    RunInv(w, value, steps, states, k);
  }

  // --------------------------------------- refinement of an atomic register

  /** The whole store as its callers see it: the current snapshot and the results handed out. */
  datatype Atomic<C> = Atomic(memory: Snapshot<C>, results: map<nat, Result<Snapshot<C>, UpdateError>>)

  function View<C>(s: State<C>): Atomic<C> {
    Atomic(s.memory, map id | id in s.phase && s.phase[id].Done? :: s.phase[id].result)
  }

  /** One indivisible update: its whole effect and its result, from the snapshot it found. */
  ghost predicate AtomicUpdate<C(!new)>(
    request: Request<C>, before: Snapshot<C>, result: Result<Snapshot<C>, UpdateError>, after: Snapshot<C>)
  {
    match Prepare(request, before)
    case Reject(error) => result == Err(error) && after == before
    case NoChange => result == Ok(before) && after == before
    case Write(next) =>
      || (result == Err(Persist) && after == before)
      || (result == Ok(after) && after == Snapshot(NextRevision(before.revision), next))
  }

  ghost predicate AtomicStep<C(!new)>(w: World<C>, a: Atomic<C>, id: nat, a': Atomic<C>) {
    && id in w.requests && id !in a.results && id in a'.results
    && a'.results == a.results[id := a'.results[id]]
    && AtomicUpdate(w.requests[id], a.memory, a'.results[id], a'.memory)
  }

  /** A caller that leaves without publishing has run its whole update on the snapshot it leaves. */
  lemma LeaveRefines<C(!new)>(w: World<C>, s: State<C>, id: nat, result: Result<Snapshot<C>, UpdateError>)
    requires id in s.phase && !s.phase[id].Done? && id in w.requests
    requires AtomicUpdate(w.requests[id], s.memory, result, s.memory)
    ensures AtomicStep(w, View(s), id, View(Leave(s, id, Done(result))))
  {
    assert View(Leave(s, id, Done(result))).results == View(s).results[id := result];
  }

  lemma PrepareRefines<C(!new)>(w: World<C>, s: State<C>, step: Step)
    requires Inv(w, s) && Enabled(w, s, step) && step.ReadAndPrepare?
    ensures View(Apply(w, s, step)) == View(s) || AtomicStep(w, View(s), step.caller, View(Apply(w, s, step)))
  {
    var id := step.caller;
    match Prepare(w.requests[id], s.memory)
    case Reject(error) => LeaveRefines(w, s, id, Err(error));
    case NoChange => LeaveRefines(w, s, id, Ok(s.memory));
    case Write(_) => assert View(Apply(w, s, step)).results == View(s).results;
  }

  lemma FinishRefines<C(!new)>(w: World<C>, s: State<C>, step: Step)
    requires Inv(w, s) && Enabled(w, s, step) && step.Finish?
    ensures AtomicStep(w, View(s), step.caller, View(Apply(w, s, step)))
  {
    var id := step.caller;
    if s.phase[id].ok {
      var s' := Apply(w, s, step);
      assert View(s').results == View(s).results[id := Ok(s'.memory)];
    } else {
      LeaveRefines(w, s, id, Err(Persist));
    }
  }

  /** Every step of every interleaving is invisible or is exactly one caller's whole update. */
  lemma StepRefines<C(!new)>(w: World<C>, s: State<C>, step: Step)
    requires Inv(w, s) && Enabled(w, s, step)
    ensures var s' := Apply(w, s, step);
      View(s') == View(s) || ((step.ReadAndPrepare? || step.Finish?) && AtomicStep(w, View(s), step.caller, View(s')))
  {
    hide Inv, AtomicStep, Prepare;
    if step.ReadAndPrepare? {
      PrepareRefines(w, s, step);
    } else if step.Finish? {
      FinishRefines(w, s, step);
    } else {
      assert View(Apply(w, s, step)).results == View(s).results;
    }
  }

  lemma RunRefines<C(!new)>(w: World<C>, value: C, steps: seq<Step>, states: seq<State<C>>, k: nat)
    requires w.capacity == 1 && Run(w, value, steps, states) && k < |steps|
    ensures View(states[k + 1]) == View(states[k]) ||
      ((steps[k].ReadAndPrepare? || steps[k].Finish?) &&
        AtomicStep(w, View(states[k]), steps[k].caller, View(states[k + 1])))
  {
    RunInv(w, value, steps, states, k);
    StepRefines(w, states[k], steps[k]);
  }

  // ------------------------------------------------------------ no lost updates

  /** The snapshot in force after the first `i` publications. */
  function Version<C>(value: C, history: seq<Publication<C>>, i: nat): Snapshot<C>
    requires i <= |history|
  {
    if i == 0 then Snapshot(1, value) else history[i - 1].published
  }

  /** Each published snapshot is its caller's mutation of the one published just before it. */
  ghost predicate Chained<C(!new)>(w: World<C>, value: C, s: State<C>) {
    && s.memory == Version(value, s.history, |s.history|)
    && forall i :: 0 <= i < |s.history| ==> LinkAt(w, value, s.history, i)
  }

  ghost predicate LinkAt<C(!new)>(w: World<C>, value: C, history: seq<Publication<C>>, i: nat)
    requires i < |history|
  {
    LinkOk(w, history[i], Version(value, history, i))
  }

  ghost predicate LinkOk<C(!new)>(w: World<C>, p: Publication<C>, previous: Snapshot<C>) {
    && p.caller in w.requests
    && p.base == previous
    && Prepare(w.requests[p.caller], p.base) == Write(p.published.value)
    && p.published.revision == NextRevision(p.base.revision)
  }

  /** Only a publication touches the snapshot, and it extends the history by one link. */
  lemma HistoryGrows<C(!new)>(w: World<C>, s: State<C>, step: Step)
    requires Inv(w, s) && Enabled(w, s, step)
    ensures var s' := Apply(w, s, step);
      if Publishes(s, step) then
        var p := Publication(step.caller, s.memory, s'.memory);
        s'.history == s.history + [p] && LinkOk(w, p, s.memory)
      else s'.history == s.history && s'.memory == s.memory
  {
  }

  lemma ChainExtends<C(!new)>(w: World<C>, value: C, history: seq<Publication<C>>, p: Publication<C>, i: nat)
    requires i <= |history|
    ensures Version(value, history + [p], i) == Version(value, history, i)
  {
  }

  lemma ChainStep<C(!new)>(w: World<C>, value: C, s: State<C>, step: Step)
    requires Inv(w, s) && Enabled(w, s, step) && Chained(w, value, s)
    ensures Chained(w, value, Apply(w, s, step))
  {
    var history, history', memory' := s.history, Apply(w, s, step).history, Apply(w, s, step).memory;
    HistoryGrows(w, s, step);
    if Publishes(s, step) {
      var p := Publication(step.caller, s.memory, memory');
      forall i | 0 <= i < |history'| ensures LinkAt(w, value, history', i) {
        ChainExtends(w, value, history, p, i);
        assert i < |history| ==> LinkAt(w, value, history, i);
      }
    }
  }

  lemma {:induction false} PublishedSnapshotsChain<C(!new)>(w: World<C>, value: C, steps: seq<Step>, states: seq<State<C>>, k: nat)
    requires w.capacity == 1 && Run(w, value, steps, states) && k <= |steps|
    ensures Chained(w, value, states[k])
  {
    if k > 0 {
      PublishedSnapshotsChain(w, value, steps, states, k - 1);
      RunInv(w, value, steps, states, k - 1);
      ChainStep(w, value, states[k - 1], steps[k - 1]);
    }
  }

  /** Below saturation the revision counts the publications, so no two snapshots share one. */
  lemma {:induction false} RevisionCountsPublications<C(!new)>(w: World<C>, value: C, s: State<C>, i: nat)
    requires Chained(w, value, s) && i <= |s.history| && i < U64_MAX
    ensures Version(value, s.history, i).revision == 1 + i
  {
    if i > 0 {
      RevisionCountsPublications(w, value, s, i - 1);
      assert LinkAt(w, value, s.history, i - 1);
    }
  }

  lemma AtomicSuccess<C(!new)>(w: World<C>, a: Atomic<C>, id: nat, a': Atomic<C>, expected: nat)
    requires AtomicStep(w, a, id, a') && w.requests[id].expected == Some(expected) && a'.results[id].Ok?
    ensures a.memory.revision == expected && a'.results[id] == Ok(a'.memory)
    ensures w.requests[id].mutate(a.memory.value) == Ok(a'.memory.value)
  {
  }

  /**
   No lost update: in any run, the step at which an update with an expected revision succeeds finds
   that very revision in memory, and leaves the update's mutation of the value found there.
   */
  lemma SuccessUsedExpectedRevision<C(!new)>(
    w: World<C>, value: C, steps: seq<Step>, states: seq<State<C>>, k: nat, id: nat, expected: nat, result: Snapshot<C>)
    requires w.capacity == 1 && Run(w, value, steps, states) && k < |steps|
    requires id in w.requests && w.requests[id].expected == Some(expected)
    requires id in states[k].phase && !states[k].phase[id].Done?
    requires id in states[k + 1].phase && states[k + 1].phase[id] == Done(Ok(result))
    ensures states[k].memory.revision == expected
    ensures w.requests[id].mutate(states[k].memory.value) == Ok(states[k + 1].memory.value)
    ensures result == states[k + 1].memory
  {
    hide Prepare, AtomicUpdate, Apply, Enabled, Init;
    RunRefines(w, value, steps, states, k);
    var a, a' := View(states[k]), View(states[k + 1]);
    assert id !in a.results && id in a'.results;
    assert steps[k].caller == id;
    AtomicSuccess(w, a, id, a', expected);
  }

  // --------------------------------------------------------- memory against disk

  /** A caller whose write the file may hold although no snapshot was published for it. */
  predicate Unpublished<C>(phase: Phase<C>) {
    phase.Persisting? || phase.Answered? || phase.Cancelled? || phase == Done(Err(Persist))
  }

  /** The last rename belongs to this caller. */
  predicate LastWriter<C>(s: State<C>, id: nat) {
    s.commits != [] && s.commits[|s.commits| - 1].owner == id
  }

  /** A live closure would change the file, and if it has done so it was the last to. */
  ghost predicate JobsExplained<C(!new)>(s: State<C>) {
    forall job :: job in s.live ==> JobExplained(s, job)
  }

  ghost predicate JobExplained<C(!new)>(s: State<C>, job: nat)
    requires job in s.live
  {
    var j := s.live[job];
    && j.owner in s.phase && Unpublished(s.phase[j.owner]) && j.value != s.memory.value
    && (j.status == Committed ==> s.commits != [] && s.commits[|s.commits| - 1] == Commit(j.owner, j.value))
  }

  /** A caller that has been told its write succeeded is the last writer. */
  ghost predicate HolderWroteLast<C(!new)>(s: State<C>) {
    forall id :: id in s.phase && s.phase[id].Answered? && s.phase[id].ok ==> LastWriter(s, id)
  }

  /** The file holds the last write, and that is the value in memory exactly when it was published. */
  ghost predicate WriterExplained<C(!new)>(value: C, s: State<C>) {
    if s.commits == [] then s.disk == value && s.memory.value == value
    else
      var last := s.commits[|s.commits| - 1];
      && s.disk == last.value && last.owner in s.phase
      && (if Unpublished(s.phase[last.owner]) then last.value != s.memory.value
          else s.phase[last.owner].Done? && last.value == s.memory.value)
  }

  ghost predicate DiskExplained<C(!new)>(value: C, s: State<C>) {
    JobsExplained(s) && HolderWroteLast(s) && WriterExplained(value, s)
  }

  lemma CommitStep<C(!new)>(w: World<C>, value: C, s: State<C>, step: Step)
    requires Inv(w, s) && Enabled(w, s, step) && DiskExplained(value, s) && step.CommitWrite?
    ensures DiskExplained(value, Apply(w, s, step))
  {
    OnlyJob(s.live, step.job);
    assert JobExplained(s, step.job);
    var s' := Apply(w, s, step);
    assert forall job :: job in s'.live ==> job == step.job;
  }

  lemma FailStep<C(!new)>(w: World<C>, value: C, s: State<C>, step: Step)
    requires Inv(w, s) && Enabled(w, s, step) && DiskExplained(value, s) && step.FailWrite?
    ensures DiskExplained(value, Apply(w, s, step))
  {
    OnlyJob(s.live, step.job);
    assert JobExplained(s, step.job);
    var s' := Apply(w, s, step);
    assert forall job :: job in s'.live ==> job == step.job;
  }

  lemma ReturnStep<C(!new)>(w: World<C>, value: C, s: State<C>, step: Step)
    requires Inv(w, s) && Enabled(w, s, step) && DiskExplained(value, s) && step.Return?
    ensures DiskExplained(value, Apply(w, s, step))
  {
    OnlyJob(s.live, step.job);
    assert JobExplained(s, step.job);
  }

  lemma StartStep<C(!new)>(w: World<C>, value: C, s: State<C>, step: Step)
    requires Inv(w, s) && Enabled(w, s, step) && DiskExplained(value, s) && step.StartPersist?
    ensures DiskExplained(value, Apply(w, s, step))
  {
    assert s.live == map[];
    assert s.phase[step.caller].next != s.memory.value;
  }

  lemma FinishStep<C(!new)>(w: World<C>, value: C, s: State<C>, step: Step)
    requires Inv(w, s) && Enabled(w, s, step) && DiskExplained(value, s) && step.Finish?
    ensures DiskExplained(value, Apply(w, s, step))
  {
    hide Prepare;
    assert s.live == map[];
  }

  lemma OtherStep<C(!new)>(w: World<C>, value: C, s: State<C>, step: Step)
    requires Inv(w, s) && Enabled(w, s, step) && DiskExplained(value, s)
    requires step.AcquireGate? || step.ReadAndPrepare? || step.Cancel?
    ensures DiskExplained(value, Apply(w, s, step))
  {
    hide Prepare, Planned, HolderOk, PermitsConserved;
    if step.ReadAndPrepare? {
      ReadStepLeaves(w, s, step);
    }
    var s' := Apply(w, s, step);
    forall job | job in s'.live ensures JobExplained(s', job) {
      assert JobExplained(s, job);
    }
  }

  lemma DiskStep<C(!new)>(w: World<C>, value: C, s: State<C>, step: Step)
    requires Inv(w, s) && Enabled(w, s, step) && DiskExplained(value, s)
    ensures DiskExplained(value, Apply(w, s, step))
  {
    hide Inv, DiskExplained, Apply, Enabled;
    match step
    case CommitWrite(_) => CommitStep(w, value, s, step);
    case FailWrite(_) => FailStep(w, value, s, step);
    case Return(_, _) => ReturnStep(w, value, s, step);
    case StartPersist(_, _) => StartStep(w, value, s, step);
    case Finish(_) => FinishStep(w, value, s, step);
    case _ => OtherStep(w, value, s, step);
  }

  lemma {:induction false} RunDisk<C(!new)>(w: World<C>, value: C, steps: seq<Step>, states: seq<State<C>>, k: nat)
    requires w.capacity == 1 && Run(w, value, steps, states) && k <= |steps|
    ensures DiskExplained(value, states[k])
  {
    if k > 0 {
      RunDisk(w, value, steps, states, k - 1);
      RunInv(w, value, steps, states, k - 1);
      DiskStep(w, value, states[k - 1], steps[k - 1]);
    }
  }

  /** The last writer of the file left without publishing: cancelled, or told that its write failed. */
  ghost predicate OrphanedWriter<C(!new)>(s: State<C>) {
    s.commits != [] &&
    var last := s.commits[|s.commits| - 1].owner;
    last in s.phase && (s.phase[last].Cancelled? || s.phase[last] == Done(Err(Persist)))
  }

  /** With no update under way, the file differs from memory if and only if its last writer never published. */
  lemma DiskDiffersIffOrphaned<C(!new)>(w: World<C>, value: C, steps: seq<Step>, states: seq<State<C>>, k: nat)
    requires w.capacity == 1 && Run(w, value, steps, states) && k <= |steps| && states[k].gate == None
    ensures states[k].disk != states[k].memory.value <==> OrphanedWriter(states[k])
  {
    RunDisk(w, value, steps, states, k);
    RunInv(w, value, steps, states, k);
  }

  // ------------------------------------------------------ what a failed write did

  /** The callers whose closure panicked after it had renamed the file. */
  ghost function PanickedWriters<C(!new)>(steps: seq<Step>, states: seq<State<C>>, k: nat): set<nat>
    requires k <= |steps| < |states|
  {
    if k == 0 then {} else PanickedWriters(steps, states, k - 1) + Panicking(states[k - 1], steps[k - 1])
  }

  function Panicking<C>(s: State<C>, step: Step): set<nat> {
    if step.Return? && step.panicked && step.job in s.live && s.live[step.job].status == Committed
    then {s.live[step.job].owner} else {}
  }

  ghost predicate Wrote<C(!new)>(s: State<C>, id: nat) {
    exists i :: 0 <= i < |s.commits| && s.commits[i].owner == id
  }

  /** A caller whose write was committed is on the way to success, has it, was cancelled, or panicked. */
  ghost predicate CommitsHonoured<C(!new)>(s: State<C>, panicked: set<nat>) {
    && (forall i :: 0 <= i < |s.commits| ==> CommitHonoured(s, s.commits[i].owner, panicked))
    && (forall job :: job in s.live ==> JobOwned(s, job))
    && (forall id :: id in panicked ==> Wrote(s, id))
  }

  ghost predicate JobOwned<C(!new)>(s: State<C>, job: nat)
    requires job in s.live
  {
    var owner := s.live[job].owner;
    && owner in s.phase && (s.phase[owner].Cancelled? || (s.phase[owner].Persisting? && s.phase[owner].job == job))
    && (s.live[job].status == Committed ==> Wrote(s, owner))
  }

  ghost predicate CommitHonoured<C(!new)>(s: State<C>, owner: nat, panicked: set<nat>) {
    && owner in s.phase
    && match s.phase[owner]
       case Persisting(_, _, job) => job in s.live && s.live[job].status == Committed
       case Answered(_, _, ok) => ok || owner in panicked
       case Done(result) => result.Ok? || owner in panicked
       case Cancelled => true
       case _ => false
  }

  lemma HonouredStep<C(!new)>(w: World<C>, s: State<C>, step: Step, panicked: set<nat>)
    requires Inv(w, s) && Enabled(w, s, step) && CommitsHonoured(s, panicked)
    ensures CommitsHonoured(Apply(w, s, step), panicked + Panicking(s, step))
  {
    hide Inv, CommitsHonoured, Apply, Enabled;
    match step
    case CommitWrite(_) => HonouredCommit(w, s, step, panicked);
    case FailWrite(_) => HonouredFail(w, s, step, panicked);
    case Return(_, _) => HonouredReturn(w, s, step, panicked);
    case StartPersist(_, _) => HonouredStart(w, s, step, panicked);
    case _ => HonouredCallerStep(w, s, step, panicked);
  }

  lemma SameCommits<C(!new)>(s: State<C>, s': State<C>)
    requires s'.commits == s.commits
    ensures forall id :: Wrote(s, id) ==> Wrote(s', id)
  {
  }

  lemma HonouredStart<C(!new)>(w: World<C>, s: State<C>, step: Step, panicked: set<nat>)
    requires Inv(w, s) && Enabled(w, s, step) && CommitsHonoured(s, panicked) && step.StartPersist?
    ensures CommitsHonoured(Apply(w, s, step), panicked + Panicking(s, step))
  {
    hide Prepare;
    var s' := Apply(w, s, step);
    SameCommits(s, s');
    assert s.live == map[];
    assert forall i :: 0 <= i < |s.commits| ==> CommitHonoured(s, s.commits[i].owner, panicked);
  }

  /** Reading either ends the update without a write, or sends it to wait for a permit. */
  lemma ReadStepLeaves<C(!new)>(w: World<C>, s: State<C>, step: Step)
    requires Enabled(w, s, step) && step.ReadAndPrepare?
    ensures var s' := Apply(w, s, step);
      && s' == s.(phase := s'.phase, gate := s'.gate) && step.caller in s'.phase
      && s'.phase == s.phase[step.caller := s'.phase[step.caller]]
      && (s'.phase[step.caller].Waiting? || (s'.phase[step.caller].Done? && s'.phase[step.caller] != Done(Err(Persist))))
  {
  }

  /** Only the phase of `id` changes, to one that still honours what `id` wrote. */
  lemma HonouredFrame<C(!new)>(s: State<C>, s': State<C>, id: nat, panicked: set<nat>)
    requires CommitsHonoured(s, panicked) && s'.commits == s.commits && s'.live == s.live
    requires id in s'.phase && s'.phase == s.phase[id := s'.phase[id]]
    requires Wrote(s, id) ==> CommitHonoured(s', id, panicked)
    requires forall job :: job in s.live && s.live[job].owner == id ==> s'.phase[id].Cancelled?
    ensures CommitsHonoured(s', panicked)
  {
    SameCommits(s, s');
    forall i | 0 <= i < |s.commits| ensures CommitHonoured(s', s.commits[i].owner, panicked) {
      assert CommitHonoured(s, s.commits[i].owner, panicked) && Wrote(s, s.commits[i].owner);
    }
    forall job | job in s.live ensures JobOwned(s', job) {
      assert JobOwned(s, job);
    }
  }

  lemma WriterIsHonoured<C(!new)>(s: State<C>, id: nat, panicked: set<nat>)
    requires CommitsHonoured(s, panicked) && Wrote(s, id)
    ensures CommitHonoured(s, id, panicked)
  {
    var i :| 0 <= i < |s.commits| && s.commits[i].owner == id;
    assert CommitHonoured(s, s.commits[i].owner, panicked);
  }

  lemma HonouredCallerStep<C(!new)>(w: World<C>, s: State<C>, step: Step, panicked: set<nat>)
    requires Inv(w, s) && Enabled(w, s, step) && CommitsHonoured(s, panicked)
    requires step.AcquireGate? || step.ReadAndPrepare? || step.Finish? || step.Cancel?
    ensures CommitsHonoured(Apply(w, s, step), panicked + Panicking(s, step))
  {
    hide Prepare, NextRevision, Wrote, CommitsHonoured;
    var s', id := Apply(w, s, step), step.caller;
    if step.ReadAndPrepare? {
      ReadStepLeaves(w, s, step);
    }
    if Wrote(s, id) {
      WriterIsHonoured(s, id, panicked);
    }
    forall job | job in s.live && s.live[job].owner == id ensures s'.phase[id].Cancelled? {
      LiveJobIsOwned(s, job, panicked);
    }
    HonouredFrame(s, s', id, panicked);
    assert panicked + Panicking(s, step) == panicked;
  }

  lemma LiveJobIsOwned<C(!new)>(s: State<C>, job: nat, panicked: set<nat>)
    requires CommitsHonoured(s, panicked) && job in s.live
    ensures JobOwned(s, job)
  {
  }

  lemma CommitEffect<C(!new)>(w: World<C>, s: State<C>, step: Step)
    requires Inv(w, s) && Enabled(w, s, step) && step.CommitWrite?
    ensures var s', j := Apply(w, s, step), s.live[step.job];
      && s.live == map[step.job := j] && j.status == Running
      && s'.live == map[step.job := j.(status := Committed)] && s'.phase == s.phase
      && s'.commits == s.commits + [Commit(j.owner, j.value)]
  {
    OnlyJob(s.live, step.job);
  }

  lemma HonouredCommit<C(!new)>(w: World<C>, s: State<C>, step: Step, panicked: set<nat>)
    requires Inv(w, s) && Enabled(w, s, step) && CommitsHonoured(s, panicked) && step.CommitWrite?
    ensures CommitsHonoured(Apply(w, s, step), panicked + Panicking(s, step))
  {
    hide Prepare, NextRevision, Inv, Apply, Enabled;
    CommitEffect(w, s, step);
    var s', owner := Apply(w, s, step), s.live[step.job].owner;
    assert JobOwned(s, step.job);
    assert s'.commits[|s.commits|].owner == owner && Wrote(s', owner);
    forall id | Wrote(s, id) ensures Wrote(s', id) {
      var i :| 0 <= i < |s.commits| && s.commits[i].owner == id;
      assert s'.commits[i].owner == id;
    }
    forall i | 0 <= i < |s'.commits| ensures CommitHonoured(s', s'.commits[i].owner, panicked) {
      assert i < |s.commits| ==> CommitHonoured(s, s.commits[i].owner, panicked);
    }
    assert Panicking(s, step) == {};
  }

  lemma FailEffect<C(!new)>(w: World<C>, s: State<C>, step: Step)
    requires Inv(w, s) && Enabled(w, s, step) && step.FailWrite?
    ensures var s', j := Apply(w, s, step), s.live[step.job];
      && s.live == map[step.job := j] && j.status == Running
      && s'.live == map[step.job := j.(status := Failed)] && s'.phase == s.phase && s'.commits == s.commits
  {
    OnlyJob(s.live, step.job);
  }

  lemma HonouredFail<C(!new)>(w: World<C>, s: State<C>, step: Step, panicked: set<nat>)
    requires Inv(w, s) && Enabled(w, s, step) && CommitsHonoured(s, panicked) && step.FailWrite?
    ensures CommitsHonoured(Apply(w, s, step), panicked + Panicking(s, step))
  {
    hide Prepare, NextRevision, Inv, Apply, Enabled;
    FailEffect(w, s, step);
    var s' := Apply(w, s, step);
    assert JobOwned(s, step.job);
    SameCommits(s, s');
    forall i | 0 <= i < |s'.commits| ensures CommitHonoured(s', s'.commits[i].owner, panicked) {
      assert CommitHonoured(s, s.commits[i].owner, panicked);
    }
    assert Panicking(s, step) == {};
  }

  lemma ReturnEffect<C(!new)>(w: World<C>, s: State<C>, step: Step)
    requires Inv(w, s) && Enabled(w, s, step) && step.Return? && s.live[step.job].owner in s.phase
    ensures var s', j := Apply(w, s, step), s.live[step.job];
      && s.live == map[step.job := j] && s'.live == map[] && s'.commits == s.commits
      && j.owner in s'.phase && s'.phase == s.phase[j.owner := s'.phase[j.owner]]
      && (if s.phase[j.owner].Persisting? && s.phase[j.owner].job == step.job
          then s'.phase[j.owner].Answered? && s'.phase[j.owner].ok == (j.status == Committed && !step.panicked)
          else s'.phase[j.owner] == s.phase[j.owner])
  {
    OnlyJob(s.live, step.job);
  }

  lemma HonouredReturn<C(!new)>(w: World<C>, s: State<C>, step: Step, panicked: set<nat>)
    requires Inv(w, s) && Enabled(w, s, step) && CommitsHonoured(s, panicked) && step.Return?
    ensures CommitsHonoured(Apply(w, s, step), panicked + Panicking(s, step))
  {
    hide Prepare, NextRevision, Inv, Apply;
    assert JobOwned(s, step.job);
    ReturnEffect(w, s, step);
    var s' := Apply(w, s, step);
    SameCommits(s, s');
    forall i | 0 <= i < |s'.commits| ensures CommitHonoured(s', s'.commits[i].owner, panicked + Panicking(s, step)) {
      assert CommitHonoured(s, s.commits[i].owner, panicked);
      if s.phase[s.commits[i].owner].Persisting? {
        PersistingOwnsJob(w, s, s.commits[i].owner);
      }
    }
  }

  lemma PersistingOwnsJob<C(!new)>(w: World<C>, s: State<C>, id: nat)
    requires Inv(w, s) && id in s.phase && s.phase[id].Persisting?
    ensures s.phase[id].job in s.live && s.live[s.phase[id].job].owner == id
  {
  }

  lemma {:induction false} RunHonoured<C(!new)>(w: World<C>, value: C, steps: seq<Step>, states: seq<State<C>>, k: nat)
    requires w.capacity == 1 && Run(w, value, steps, states) && k <= |steps|
    ensures CommitsHonoured(states[k], PanickedWriters(steps, states, k))
  {
    if k > 0 {
      RunHonoured(w, value, steps, states, k - 1);
      RunInv(w, value, steps, states, k - 1);
      HonouredStep(w, states[k - 1], steps[k - 1], PanickedWriters(steps, states, k - 1));
    }
  }

  /** An update reported as not persisted touched the file if and only if its closure panicked after the rename. */
  lemma FailedPersistWroteIffPanicked<C(!new)>(
    w: World<C>, value: C, steps: seq<Step>, states: seq<State<C>>, k: nat, id: nat)
    requires w.capacity == 1 && Run(w, value, steps, states) && k <= |steps|
    requires id in states[k].phase && states[k].phase[id] == Done(Err(Persist))
    ensures Wrote(states[k], id) <==> id in PanickedWriters(steps, states, k)
  {
    RunHonoured(w, value, steps, states, k);
    if Wrote(states[k], id) {
      var i :| 0 <= i < |states[k].commits| && states[k].commits[i].owner == id;
      assert CommitHonoured(states[k], states[k].commits[i].owner, PanickedWriters(steps, states, k));
    }
  }

  // ---------------------------------------------------- what is not guaranteed

  /** Runs `steps` from the start; defined while every step is enabled. */
  ghost function Execute<C(!new)>(w: World<C>, value: C, steps: seq<Step>): Option<State<C>> {
    if steps == [] then Some(Init(w, value)) else
    match Execute(w, value, steps[..|steps| - 1])
    case None => None
    case Some(s) =>
      var step := steps[|steps| - 1];
      if Enabled(w, s, step) then Some(Apply(w, s, step)) else None
  }

  /** Executing steps passes through the states of a run. */
  lemma {:induction false} ExecutedRun<C(!new)>(w: World<C>, value: C, steps: seq<Step>) returns (states: seq<State<C>>)
    requires Execute(w, value, steps).Some?
    ensures Run(w, value, steps, states) && Execute(w, value, steps) == Some(states[|steps|])
  {
    if steps == [] {
      states := [Init(w, value)];
    } else {
      var init := steps[..|steps| - 1];
      var earlier := ExecutedRun(w, value, init);
      states := earlier + [Execute(w, value, steps).value];
      RunSnoc(w, value, init, earlier, steps[|steps| - 1]);
      assert init + [steps[|steps| - 1]] == steps;
    }
  }

  lemma RunSnoc<C(!new)>(w: World<C>, value: C, steps: seq<Step>, states: seq<State<C>>, step: Step)
    requires Run(w, value, steps, states) && Enabled(w, states[|steps|], step)
    ensures Run(w, value, steps + [step], states + [Apply(w, states[|steps|], step)])
  {
    hide Enabled, Apply, Init;
    var steps', states' := steps + [step], states + [Apply(w, states[|steps|], step)];
    forall k | 0 <= k < |steps'|
      ensures Enabled(w, states'[k], steps'[k]) && states'[k + 1] == Apply(w, states'[k], steps'[k])
    {
      assert k < |steps| ==> steps'[k] == steps[k] && states'[k] == states[k] && states'[k + 1] == states[k + 1];
    }
  }

  /** And every run is what executing its steps gives. */
  lemma {:induction false} RunIsExecuted<C(!new)>(w: World<C>, value: C, steps: seq<Step>, states: seq<State<C>>, k: nat)
    requires Run(w, value, steps, states) && k <= |steps|
    ensures Execute(w, value, steps[..k]) == Some(states[k])
  {
    if k > 0 {
      hide Execute, Enabled, Apply, Init;
      RunIsExecuted(w, value, steps, states, k - 1);
      assert steps[..k] == steps[..k - 1] + [steps[k - 1]];
      ExecuteSnoc(w, value, steps[..k - 1], steps[k - 1], states[k - 1]);
    }
  }

  lemma ExecuteSnoc<C(!new)>(w: World<C>, value: C, steps: seq<Step>, step: Step, s: State<C>)
    requires Execute(w, value, steps) == Some(s) && Enabled(w, s, step)
    ensures Execute(w, value, steps + [step]) == Some(Apply(w, s, step))
  {
    assert (steps + [step])[..|steps|] == steps;
  }

  lemma Extend(w: World<int>, steps: seq<Step>, s: State<int>, step: Step) returns (steps': seq<Step>, s': State<int>)
    requires Execute(w, 5, steps) == Some(s) && Enabled(w, s, step)
    ensures steps' == steps + [step] && s' == Apply(w, s, step) && Execute(w, 5, steps') == Some(s')
  {
    ExecuteSnoc(w, 5, steps, step, s);
    steps', s' := steps + [step], Apply(w, s, step);
  }

  /** A world of integer configurations in which each caller sets one value. */
  function Setters(capacity: nat, values: map<nat, int>): World<int> {
    World(capacity, map id | id in values :: Request(None, (c: int) => Ok(values[id]), (c: int) => None))
  }

  /** Caller 0, cancelled while its closure is still going to write 7. */
  function Orphaned(w: World<int>): State<int>
    requires w.capacity > 0
  {
    Init(w, 5).(free := w.capacity - 1, live := map[0 := Job(0, 7, Running)], phase := Init(w, 5).phase[0 := Cancelled])
  }

  lemma OrphanedStart(w: World<int>) returns (steps: seq<Step>)
    requires w.capacity > 0 && 0 in w.requests && Prepare(w.requests[0], Snapshot(1, 5)) == Write(7)
    ensures Execute(w, 5, steps) == Some(Orphaned(w))
  {
    var s0 := Init(w, 5);
    var s1 := s0.(gate := Some(0), phase := s0.phase[0 := Gated]);
    var s2 := s1.(phase := s0.phase[0 := Waiting(Snapshot(1, 5), 7)]);
    var s3 := s2.(free := w.capacity - 1, live := map[0 := Job(0, 7, Running)],
                  phase := s0.phase[0 := Persisting(Snapshot(1, 5), 7, 0)]);
    assert s1.phase[0 := Waiting(Snapshot(1, 5), 7)] == s2.phase;
    assert s2.phase[0 := Persisting(Snapshot(1, 5), 7, 0)] == s3.phase;
    assert s3.phase[0 := Cancelled] == Orphaned(w).phase;
    var s := s0;
    steps, s := Extend(w, [], s, AcquireGate(0));
    steps, s := Extend(w, steps, s, ReadAndPrepare(0));
    steps, s := Extend(w, steps, s, StartPersist(0, 0));
    steps, s := Extend(w, steps, s, Cancel(0));
  }

  /** The file can stay ahead of memory: the orphan commits, and an update that changes nothing does not repair it. */
  lemma OrphanedWriteOutlivesNoOp() returns (steps: seq<Step>, states: seq<State<int>>)
    ensures Run(Setters(1, map[0 := 7, 1 := 5]), 5, steps, states)
    ensures var s := states[|steps|];
      s.gate == None && s.live == map[] && 1 in s.phase && s.phase[1] == Done(Ok(s.memory)) && s.memory.value == 5 && s.disk == 7
  {
    var w := Setters(1, map[0 := 7, 1 := 5]);
    steps := OrphanedStart(w);
    var s := Orphaned(w);
    steps, s := Extend(w, steps, s, CommitWrite(0));
    steps, s := Extend(w, steps, s, Return(0, false));
    steps, s := Extend(w, steps, s, AcquireGate(1));
    steps, s := Extend(w, steps, s, ReadAndPrepare(1));
    states := ExecutedRun(w, 5, steps);
  }

  /** Caller 0, whose closure has renamed the file and is about to panic. */
  function Renamed(w: World<int>): State<int>
    requires w.capacity > 0
  {
    Init(w, 5).(
      gate := Some(0), free := w.capacity - 1, disk := 7, commits := [Commit(0, 7)],
      live := map[0 := Job(0, 7, Committed)], phase := Init(w, 5).phase[0 := Persisting(Snapshot(1, 5), 7, 0)])
  }

  lemma RenamedStart(w: World<int>) returns (steps: seq<Step>)
    requires w.capacity > 0 && 0 in w.requests && Prepare(w.requests[0], Snapshot(1, 5)) == Write(7)
    ensures Execute(w, 5, steps) == Some(Renamed(w))
  {
    var s0 := Init(w, 5);
    var s1 := s0.(gate := Some(0), phase := s0.phase[0 := Gated]);
    var s2 := s1.(phase := s0.phase[0 := Waiting(Snapshot(1, 5), 7)]);
    var s3 := s2.(free := w.capacity - 1, live := map[0 := Job(0, 7, Running)],
                  phase := s0.phase[0 := Persisting(Snapshot(1, 5), 7, 0)]);
    assert s1.phase[0 := Waiting(Snapshot(1, 5), 7)] == s2.phase;
    assert s2.phase[0 := Persisting(Snapshot(1, 5), 7, 0)] == s3.phase;
    var s := s0;
    steps, s := Extend(w, [], s, AcquireGate(0));
    steps, s := Extend(w, steps, s, ReadAndPrepare(0));
    steps, s := Extend(w, steps, s, StartPersist(0, 0));
    assert s == s3;
    assert s3.live[0 := Job(0, 7, Committed)] == Renamed(w).live;
    assert s3.commits + [Commit(0, 7)] == Renamed(w).commits;
    steps, s := Extend(w, steps, s, CommitWrite(0));
  }

  /** A panic after the rename: the update is reported as not persisted, and the file has its value. */
  lemma PanicAfterRename() returns (steps: seq<Step>, states: seq<State<int>>)
    ensures Run(Setters(1, map[0 := 7]), 5, steps, states)
    ensures var s := states[|steps|];
      0 in s.phase && s.phase[0] == Done(Err(Persist)) && s.memory.value == 5 && s.disk == 7 && Wrote(s, 0)
  {
    var w := Setters(1, map[0 := 7]);
    steps := RenamedStart(w);
    var s := Renamed(w);
    steps, s := Extend(w, steps, s, Return(0, true));
    assert s.phase[0] == Answered(Snapshot(1, 5), 7, false);
    steps, s := Extend(w, steps, s, Finish(0));
    assert s.phase[0] == Done(Err(Persist)) && s.commits == [Commit(0, 7)];
    assert s.commits[0].owner == 0;
    states := ExecutedRun(w, 5, steps);
    assert states[|steps|] == s;
  }

  /** With a second permit another caller can start its own write while the orphan is still running. */
  lemma BothClosuresLive(w: World<int>) returns (steps: seq<Step>, s: State<int>)
    requires w == Setters(2, map[0 := 7, 1 := 9])
    ensures Execute(w, 5, steps) == Some(s) && s.memory == Snapshot(1, 5)
    ensures s.live == map[0 := Job(0, 7, Running), 1 := Job(1, 9, Running)]
    ensures 0 in s.phase && s.phase[0] == Cancelled
    ensures 1 in s.phase && s.phase[1] == Persisting(Snapshot(1, 5), 9, 1)
  {
    steps := OrphanedStart(w);
    s := Orphaned(w);
    steps, s := Extend(w, steps, s, AcquireGate(1));
    steps, s := Extend(w, steps, s, ReadAndPrepare(1));
    steps, s := Extend(w, steps, s, StartPersist(1, 1));
  }

  lemma OrphanWritesLast(w: World<int>, steps: seq<Step>, s: State<int>) returns (steps': seq<Step>, s': State<int>)
    requires Execute(w, 5, steps) == Some(s) && s.memory == Snapshot(1, 5)
    requires s.live == map[0 := Job(0, 7, Running), 1 := Job(1, 9, Running)]
    requires 0 in s.phase && s.phase[0] == Cancelled
    requires 1 in s.phase && s.phase[1] == Persisting(Snapshot(1, 5), 9, 1)
    ensures Execute(w, 5, steps') == Some(s') && s'.memory == Snapshot(1, 5) && s'.disk == 7
    ensures 1 in s'.phase && s'.phase[1] == Answered(Snapshot(1, 5), 9, true)
  {
    steps', s' := Extend(w, steps, s, CommitWrite(1));
    steps', s' := Extend(w, steps', s', Return(1, false));
    steps', s' := Extend(w, steps', s', CommitWrite(0));
  }

  /** One permit is what the guarantee at publication rests on: with two, the orphan can write in between. */
  lemma TwoPermitsWouldBreakPublication() returns (steps: seq<Step>, states: seq<State<int>>)
    ensures var w := Setters(2, map[0 := 7, 1 := 9]);
      && Run(w, 5, steps, states)
      && var s := states[|steps|];
         Publishes(s, Finish(1)) && Apply(w, s, Finish(1)).disk != Apply(w, s, Finish(1)).memory.value
  {
    var w, s := Setters(2, map[0 := 7, 1 := 9]), Orphaned(Setters(2, map[0 := 7, 1 := 9]));
    steps, s := BothClosuresLive(w);
    steps, s := OrphanWritesLast(w, steps, s);
    states := ExecutedRun(w, 5, steps);
  }

  // --------------------------------------------------- what an update is answered

  /** The update asks for no revision, or for the one in force. */
  predicate UpToDate<C>(request: Request<C>, revision: nat) {
    request.expected == None || request.expected == Some(revision)
  }

  /** The mutation gives this value, and the value is valid. */
  predicate Accepts<C(==)>(request: Request<C>, current: C, next: C) {
    request.mutate(current) == Ok(next) && request.validate(next) == None
  }

  /** The message with which the mutation fails, or with which its value is refused. */
  predicate RefusesWith<C(==)>(request: Request<C>, current: C, message: string) {
    || request.mutate(current) == Err(message)
    || (request.mutate(current).Ok? && request.validate(request.mutate(current).value) == Some(message))
  }

  /** An update that does not ask for another revision goes as its mutation and the validation say. */
  lemma OneWayOn<C>(request: Request<C>, current: C)
    ensures (exists next :: Accepts(request, current, next)) <==> !exists message :: RefusesWith(request, current, message)
  {
    match request.mutate(current)
    case Err(message) => assert RefusesWith(request, current, message);
    case Ok(next) =>
      if request.validate(next) == None {
        assert Accepts(request, current, next);
      } else {
        assert RefusesWith(request, current, request.validate(next).value);
      }
  }

  /**
   The answer to an update in any run: a revision other than the one in memory is refused with both,
   a failing mutation or validation with its own message; without a change the snapshot comes back;
   and every other update goes on to write its mutation of the value in memory.
   */
  lemma ReadDecides<C(!new)>(w: World<C>, value: C, steps: seq<Step>, states: seq<State<C>>, k: nat, id: nat)
    requires Run(w, value, steps, states) && k < |steps| && steps[k] == ReadAndPrepare(id)
    ensures var s, request, phase := states[k], w.requests[id], states[k + 1].phase;
      && states[k + 1].memory == s.memory && states[k + 1].disk == s.disk && id in phase
      && (!UpToDate(request, s.memory.revision) ==> phase[id] == Done(Err(Stale(request.expected.value, s.memory.revision))))
      && (UpToDate(request, s.memory.revision) ==>
            && (forall message :: RefusesWith(request, s.memory.value, message) ==> phase[id] == Done(Err(Mutation(message))))
            && (forall next :: Accepts(request, s.memory.value, next) ==>
                  phase[id] == if next == s.memory.value then Done(Ok(s.memory)) else Waiting(s.memory, next)))
  {
    assert Enabled(w, states[k], steps[k]) && states[k + 1] == Apply(w, states[k], steps[k]);
  }

  /** And one that was written is answered by the snapshot with its value and the next revision. */
  lemma FinishDecides<C(!new)>(
    w: World<C>, value: C, steps: seq<Step>, states: seq<State<C>>, k: nat, id: nat, base: Snapshot<C>, next: C, ok: bool)
    requires w.capacity == 1 && Run(w, value, steps, states) && k < |steps| && steps[k] == Finish(id)
    requires id in states[k].phase && states[k].phase[id] == Answered(base, next, ok)
    ensures id in states[k + 1].phase
    ensures var published := Snapshot(Successor(states[k].memory.revision), next);
      && states[k + 1].phase[id] == Done(if ok then Ok(published) else Err(Persist))
      && states[k + 1].memory == if ok then published else states[k].memory
  {
    hide Prepare;
    RunInv(w, value, steps, states, k);
    assert Enabled(w, states[k], steps[k]) && states[k + 1] == Apply(w, states[k], steps[k]);
  }

  /** One more, up to the largest 64-bit number. */
  function Successor(revision: nat): nat {
    if revision < 0xFFFF_FFFF_FFFF_FFFF then revision + 1 else 0xFFFF_FFFF_FFFF_FFFF
  }

  lemma RunGoesOn<C(!new)>(w: World<C>, value: C, steps: seq<Step>, states: seq<State<C>>, step: Step)
    returns (steps': seq<Step>, states': seq<State<C>>)
    requires Run(w, value, steps, states) && Enabled(w, states[|steps|], step)
    ensures Run(w, value, steps', states') && steps' == steps + [step]
    ensures states'[|steps'|] == Apply(w, states[|steps|], step)
  {
    hide Enabled, Apply, Init;
    RunSnoc(w, value, steps, states, step);
    steps', states' := steps + [step], states + [Apply(w, states[|steps|], step)];
  }

  /** The gate is free, no closure is live and the caller has not begun. */
  predicate AtRest<C>(s: State<C>, id: nat) {
    s.gate == None && s.live == map[] && id in s.phase && s.phase[id] == Idle
  }

  /** Up to the permit. */
  lemma UpdateStarts<C(!new)>(w: World<C>, value: C, steps: seq<Step>, states: seq<State<C>>, id: nat, next: C)
    returns (steps': seq<Step>, states': seq<State<C>>)
    requires w.capacity > 0 && Run(w, value, steps, states) && AtRest(states[|steps|], id) && id in w.requests
    requires UpToDate(w.requests[id], states[|steps|].memory.revision)
    requires Accepts(w.requests[id], states[|steps|].memory.value, next) && next != states[|steps|].memory.value
    ensures Run(w, value, steps', states') && steps' == steps + [AcquireGate(id), ReadAndPrepare(id)]
    ensures var s, s' := states[|steps|], states'[|steps'|];
      && s'.memory == s.memory && s'.live == map[] && s'.free > 0 && s'.history == s.history
      && id in s'.phase && s'.phase[id] == Waiting(s.memory, next)
  {
    LiveClosuresBounded(w, value, steps, states, |steps|);
    hide Run;
    steps', states' := RunGoesOn(w, value, steps, states, AcquireGate(id));
    steps', states' := RunGoesOn(w, value, steps', states', ReadAndPrepare(id));
    assert steps + [AcquireGate(id)] + [ReadAndPrepare(id)] == steps + [AcquireGate(id), ReadAndPrepare(id)];
  }

  /** From the permit to the closure's return. */
  lemma UpdateWrites<C(!new)>(w: World<C>, value: C, steps: seq<Step>, states: seq<State<C>>, id: nat, base: Snapshot<C>, next: C)
    returns (steps': seq<Step>, states': seq<State<C>>)
    requires Run(w, value, steps, states) && states[|steps|].live == map[] && states[|steps|].free > 0
    requires id in states[|steps|].phase && states[|steps|].phase[id] == Waiting(base, next)
    ensures Run(w, value, steps', states') && steps' == steps + [StartPersist(id, 0), CommitWrite(0), Return(0, false)]
    ensures var s, s' := states[|steps|], states'[|steps'|];
      && s'.memory == s.memory && s'.live == map[] && s'.history == s.history && s'.disk == next
      && id in s'.phase && s'.phase[id] == Answered(base, next, true)
  {
    hide Run, Prepare;
    steps', states' := RunGoesOn(w, value, steps, states, StartPersist(id, 0));
    steps', states' := RunGoesOn(w, value, steps', states', CommitWrite(0));
    steps', states' := RunGoesOn(w, value, steps', states', Return(0, false));
    assert steps + [StartPersist(id, 0)] + [CommitWrite(0)] + [Return(0, false)]
        == steps + [StartPersist(id, 0), CommitWrite(0), Return(0, false)];
  }

  /**
   Updates do succeed: in any state of any run with the gate free and no closure live, an update that
   is up to date, accepted and changes something ends, by its own six steps, in the next snapshot with
   its value, which is then the one in memory and on disk.
   */
  lemma UpdateGoesThrough<C(!new)>(w: World<C>, value: C, steps: seq<Step>, states: seq<State<C>>, id: nat, next: C)
    returns (steps': seq<Step>, states': seq<State<C>>)
    requires w.capacity > 0 && Run(w, value, steps, states) && AtRest(states[|steps|], id) && id in w.requests
    requires UpToDate(w.requests[id], states[|steps|].memory.revision)
    requires Accepts(w.requests[id], states[|steps|].memory.value, next) && next != states[|steps|].memory.value
    ensures Run(w, value, steps', states')
    ensures steps' == steps + [AcquireGate(id), ReadAndPrepare(id)] + [StartPersist(id, 0), CommitWrite(0), Return(0, false)] + [Finish(id)]
    ensures var s, s' := states[|steps|], states'[|steps'|];
      var published := Snapshot(Successor(s.memory.revision), next);
      && id in s'.phase && s'.phase[id] == Done(Ok(published)) && s'.memory == published && s'.disk == next
      && s'.gate == None && s'.live == map[] && s'.history == s.history + [Publication(id, s.memory, published)]
  {
    assert |states| == |steps| + 1;
    hide Run, Prepare, Accepts, UpToDate;
    steps', states' := UpdateStarts(w, value, steps, states, id, next);
    steps', states' := UpdateWrites(w, value, steps', states', id, states[|steps|].memory, next);
    steps', states' := RunGoesOn(w, value, steps', states', Finish(id));
  }

  // ------------------------------------------------ one call, start to finish

  /**
   One manager, called by one caller at a time and never cancelled. `persist` tells whether the
   write of a given value reaches its rename; up to that point a failing write leaves the file alone.
   */
  class ConfigManager<C(!new,==)> {
    var state: Snapshot<C>
    var disk: C
    const validate: C -> Option<string>
    const persist: C -> bool

    constructor (value: C, disk: C, validate: C -> Option<string>, persist: C -> bool)
      ensures state == Snapshot(1, value) && this.disk == disk
      ensures this.validate == validate && this.persist == persist
    {
      state := Snapshot(1, value);
      this.disk := disk;
      this.validate := validate;
      this.persist := persist;
    }

    method Update(expected: Option<nat>, mutate: C -> Result<C, string>)
      returns (r: Result<Snapshot<C>, UpdateError>)
      modifies this
      ensures AtomicUpdate(Request(expected, mutate, validate), old(state), r, state)
      ensures match Prepare(Request(expected, mutate, validate), old(state))
              case Write(next) => if persist(next) then r.Ok? && disk == next else r == Err(Persist) && disk == old(disk)
              case _ => disk == old(disk)
      ensures state != old(state) ==> disk == state.value && r == Ok(state)
      ensures expected.Some? && expected.value != old(state.revision) ==> r == Err(Stale(expected.value, old(state.revision)))
      ensures r.Err? ==> state == old(state) && disk == old(disk)
      ensures (expected == None || expected == Some(old(state.revision))) ==>
        match mutate(old(state.value))
        case Err(message) => r == Err(Mutation(message))
        case Ok(next) =>
          match validate(next)
          case Some(message) => r == Err(Mutation(message))
          case None =>
            if next == old(state.value) then r == Ok(old(state)) && state == old(state) && disk == old(disk)
            else if !persist(next) then r == Err(Persist)
            else
              && r == Ok(state) && state.value == next && disk == next
              && state.revision == if old(state.revision) < 0xFFFF_FFFF_FFFF_FFFF then old(state.revision) + 1 else 0xFFFF_FFFF_FFFF_FFFF
    {
      var current := state;
      if expected.Some? && expected.value != current.revision {
        return Err(Stale(expected.value, current.revision));
      }
      var mutated := mutate(current.value);
      if mutated.Err? {
        return Err(Mutation(mutated.error));
      }
      var next := mutated.value;
      var invalid := validate(next);
      if invalid.Some? {
        return Err(Mutation(invalid.value));
      }
      if next == current.value {
        return Ok(current);
      }
      if !persist(next) {
        return Err(Persist);
      }
      disk := next;
      if state.revision != current.revision {
        return Err(Stale(current.revision, state.revision));
      }
      state := Snapshot(NextRevision(current.revision), next);
      r := Ok(state);
    }
  }
}
