/** The persistent run cache, as a protocol between any number of `-r` processes that share
    one cache directory. A state machine: every process advances one file-system operation at
    a time, in any interleaving, while the sources may be edited and entries evicted. */
module RunCache {

  /** What a cache key is computed from. Keys are compared by what they were computed from. */
  datatype Key = Key(config: string, sources: string)

  /** A cached executable: what it was compiled from, whether the linker finished writing it,
      and the process that had it built. */
  datatype File = File(built: Key, complete: bool, builder: nat)

  /** `run-<key>` and a process's own temporary. */
  datatype Name = Entry(key: Key) | Temp(pid: nat)

  /** How the compiler child ends. */
  datatype Outcome =
    | Built
    | CodegenFailure
    | DiagnosticErrors
    | LinkFailure
    | LinkTimeout
    | NoArtifact
    | Killed

  const LINK_FAILURE_EXIT := 3
  const DIAGNOSTIC_REJECT_EXIT := 4
  const SUBPROCESS_TIMEOUT := 124

  /** The exit status of the compiler; `cacheChild` is whether a `-r` parent spawned it. */
  function ExitStatus(outcome: Outcome, cacheChild: bool): int {
    match outcome
    case Built => 0
    case CodegenFailure => 1
    case DiagnosticErrors => if cacheChild then DIAGNOSTIC_REJECT_EXIT else 1
    case LinkFailure => if cacheChild then LINK_FAILURE_EXIT else 1
    case LinkTimeout => if cacheChild then LINK_FAILURE_EXIT else 1
    case NoArtifact => if cacheChild then LINK_FAILURE_EXIT else 1
    case Killed => SUBPROCESS_TIMEOUT
  }

  /** Only a delivered artefact ends with status 0, and only to a `-r` parent are the link and the
      diagnostic failures told apart from the others. */
  lemma StatusTells(outcome: Outcome, cacheChild: bool)
    ensures var status := ExitStatus(outcome, cacheChild);
            && (status == 0 <==> outcome.Built?)
            && (status == LINK_FAILURE_EXIT <==>
                cacheChild && (outcome.LinkFailure? || outcome.LinkTimeout? || outcome.NoArtifact?))
            && (status == DIAGNOSTIC_REJECT_EXIT <==> cacheChild && outcome.DiagnosticErrors?)
            && (status == SUBPROCESS_TIMEOUT <==> outcome.Killed?)
  {
  }

  /** How a `-r` run ends: the cached executable ran, it was gone when it was to be run, the run
      was refused with exit status 1, or the program is left to the in-process compiler. */
  datatype Result = Executed(file: File) | LaunchFailed | Refused | InProcess

  datatype Stage =
    | Keyed
    | Pruning
    | Building
    | Linking
    | ChildExited(status: int)
    | Publishing
    | Launching
    | Done(result: Result)

  datatype Option<T> = None | Some(value: T)

  /** `child` is how the process's compiler child ended, if it spawned one. */
  datatype Process = Process(key: Key, stage: Stage, child: Option<Outcome>)

  /** `drifted` are the processes whose child read other sources than their key was computed from. */
  datatype State = State(files: map<Name, File>, procs: map<nat, Process>, sources: string, drifted: set<nat>)

  datatype Step =
    | Edit(text: string)
    | Start(pid: nat, config: string)
    | Lookup(pid: nat)
    | Evict(pid: nat, victim: Name)
    | Pruned(pid: nat)
    | ChildWrites(pid: nat)
    | ChildEnds(pid: nat, outcome: Outcome)
    | Settle(pid: nat)
    | Rename(pid: nat, succeeds: bool)
    | Launch(pid: nat)

  predicate At(s: State, pid: nat, stage: Stage) {
    pid in s.procs && s.procs[pid].stage == stage
  }

  /** A child that reports success has seen its output file. A rename can fail for any reason. */
  predicate Enabled(s: State, step: Step) {
    match step
    case Edit(_) => true
    case Start(pid, _) => pid !in s.procs
    case Lookup(pid) => At(s, pid, Keyed)
    case Evict(pid, _) => At(s, pid, Pruning)
    case Pruned(pid) => At(s, pid, Pruning)
    case ChildWrites(pid) => At(s, pid, Building)
    case ChildEnds(pid, outcome) =>
      if outcome.Built? then At(s, pid, Linking) && Temp(pid) in s.files
      else At(s, pid, Building) || At(s, pid, Linking)
    case Settle(pid) => pid in s.procs && s.procs[pid].stage.ChildExited?
    case Rename(pid, succeeds) => At(s, pid, Publishing) && (succeeds ==> Temp(pid) in s.files)
    case Launch(pid) => At(s, pid, Launching)
  }

  function Move(s: State, pid: nat, stage: Stage): State
    requires pid in s.procs
  {
    s.(procs := s.procs[pid := s.procs[pid].(stage := stage)])
  }

  function Discard(s: State, pid: nat): State {
    s.(files := s.files - {Temp(pid)})
  }

  function Apply(s: State, step: Step): State
    requires Enabled(s, step)
  {
    match step
    case Edit(text) => s.(sources := text)
    case Start(pid, config) => s.(procs := s.procs[pid := Process(Key(config, s.sources), Keyed, None)])
    case Lookup(pid) => Move(s, pid, if Entry(s.procs[pid].key) in s.files then Launching else Pruning)
    case Evict(_, victim) => s.(files := s.files - {victim})
    case Pruned(pid) => Move(s, pid, Building)
    case ChildWrites(pid) =>
      var key := s.procs[pid].key;
      var file := File(Key(key.config, s.sources), false, pid);
      var drifted := if s.sources == key.sources then s.drifted else s.drifted + {pid};
      Move(s.(files := s.files[Temp(pid) := file], drifted := drifted), pid, Linking)
    case ChildEnds(pid, outcome) =>
      var files := if outcome.Built? then s.files[Temp(pid) := s.files[Temp(pid)].(complete := true)] else s.files;
      var procs := s.procs[pid := s.procs[pid].(child := Some(outcome))];
      Move(s.(files := files, procs := procs), pid, ChildExited(ExitStatus(outcome, true)))
    case Settle(pid) =>
      var status := s.procs[pid].stage.status;
      if status == LINK_FAILURE_EXIT || status == DIAGNOSTIC_REJECT_EXIT then
        Move(Discard(s, pid), pid, Done(Refused))
      else if status == SUBPROCESS_TIMEOUT || status != 0 then
        Move(Discard(s, pid), pid, Done(InProcess))
      else if Temp(pid) in s.files then
        Move(s, pid, Publishing)
      else
        Move(Discard(s, pid), pid, Done(InProcess))
    case Rename(pid, succeeds) =>
      var entry := Entry(s.procs[pid].key);
      if succeeds then
        Move(Discard(s.(files := s.files[entry := s.files[Temp(pid)]]), pid), pid, Launching)
      else
        Move(Discard(s, pid), pid, if entry in s.files then Launching else Done(InProcess))
    case Launch(pid) =>
      var entry := Entry(s.procs[pid].key);
      Move(s, pid, Done(if entry in s.files then Executed(s.files[entry]) else LaunchFailed))
  }

  /** The steps can be taken one after the other from s. */
  predicate Possible(s: State, steps: seq<Step>)
    decreases |steps|
  {
    steps == [] || (Enabled(s, steps[0]) && Possible(Apply(s, steps[0]), steps[1..]))
  }

  function Run(s: State, steps: seq<Step>): State
    requires Possible(s, steps)
    decreases |steps|
  {
    if steps == [] then s else Run(Apply(s, steps[0]), steps[1..])
  }

  /** An empty cache and no process yet. */
  function Initial(sources: string): State {
    State(map[], map[], sources, {})
  }

  // ---- The invariant ----

  /** The executable under `key` is complete, and it was built for `key` unless the process that
      published it had drifted. */
  predicate Genuine(key: Key, file: File, drifted: set<nat>) {
    file.complete && (file.built == key <==> file.builder !in drifted)
  }

  predicate FileOk(s: State, name: Name)
    requires name in s.files
  {
    var file := s.files[name];
    match name
    case Entry(key) =>
      && Genuine(key, file, s.drifted)
      && file.builder in s.procs && (s.procs[file.builder].stage.Launching? || s.procs[file.builder].stage.Done?)
    case Temp(pid) =>
      && pid in s.procs && file.builder == pid
      && (file.built == s.procs[pid].key <==> pid !in s.drifted)
      && (s.procs[pid].stage.Linking? || s.procs[pid].stage.ChildExited? || s.procs[pid].stage.Publishing?)
      && (s.procs[pid].stage == ChildExited(0) || s.procs[pid].stage.Publishing? ==> file.complete)
  }

  predicate ProcessOk(s: State, pid: nat)
    requires pid in s.procs
  {
    var p := s.procs[pid];
    && (p.stage.Keyed? || p.stage.Pruning? || p.stage.Building? ==> pid !in s.drifted)
    && (p.stage.Done? && p.stage.result.Executed? ==>
          && Genuine(p.key, p.stage.result.file, s.drifted)
          && p.stage.result.file.builder in s.procs
          && (s.procs[p.stage.result.file.builder].stage.Launching? ||
              s.procs[p.stage.result.file.builder].stage.Done?))
  }

  ghost predicate Invariant(s: State) {
    && (forall name | name in s.files :: FileOk(s, name))
    && (forall pid | pid in s.procs :: ProcessOk(s, pid))
    && (forall pid | pid in s.drifted :: pid in s.procs)
  }

  lemma StepKeepsFile(s: State, step: Step, name: Name)
    requires Invariant(s) && Enabled(s, step)
    requires name in Apply(s, step).files
    ensures FileOk(Apply(s, step), name)
  {
    if name.Entry? {
      StepKeepsEntry(s, step, name);
    } else {
      assert name in s.files ==> FileOk(s, name);
    }
  }

  lemma StepKeepsEntry(s: State, step: Step, name: Name)
    requires Invariant(s) && Enabled(s, step)
    requires name.Entry? && name in Apply(s, step).files
    ensures FileOk(Apply(s, step), name)
  {
    if name in s.files {
      assert FileOk(s, name);
    }
    if step.Rename? && step.succeeds {
      assert FileOk(s, Temp(step.pid));
    }
  }

  lemma StepKeepsProcess(s: State, step: Step, pid: nat)
    requires Invariant(s) && Enabled(s, step)
    requires pid in Apply(s, step).procs
    ensures ProcessOk(Apply(s, step), pid)
  {
    if pid in s.procs {
      assert ProcessOk(s, pid);
    }
    if step.Launch? && Entry(s.procs[step.pid].key) in s.files {
      assert FileOk(s, Entry(s.procs[step.pid].key));
    }
  }

  lemma StepKeeps(s: State, step: Step)
    requires Invariant(s) && Enabled(s, step)
    ensures Invariant(Apply(s, step))
  {
    var t := Apply(s, step);
    forall name | name in t.files ensures FileOk(t, name) {
      StepKeepsFile(s, step, name);
    }
    forall pid | pid in t.procs ensures ProcessOk(t, pid) {
      StepKeepsProcess(s, step, pid);
    }
  }

  lemma {:induction false} RunKeeps(s: State, steps: seq<Step>)
    requires Invariant(s) && Possible(s, steps)
    ensures Invariant(Run(s, steps))
    decreases |steps|
  {
    if steps == [] {
    } else {
      StepKeeps(s, steps[0]);
      RunKeeps(Apply(s, steps[0]), steps[1..]);
    }
  }

  // ---- What holds in every interleaving ----

  /** Every published entry is a complete build, and one for its own key exactly when the
      sources its builder's child read were those its key was computed from. */
  lemma EntriesAreGenuine(sources: string, steps: seq<Step>, key: Key)
    requires Possible(Initial(sources), steps)
    requires Entry(key) in Run(Initial(sources), steps).files
    ensures var s := Run(Initial(sources), steps);
            var file := s.files[Entry(key)];
            file.complete && (file.built == key <==> file.builder !in s.drifted)
  {
    RunKeeps(Initial(sources), steps);
    assert FileOk(Run(Initial(sources), steps), Entry(key));
  }

  /** Whatever a process executed is complete and, if no process drifted, was built for the key
      of that very process. */
  lemma ExecutedIsGenuine(sources: string, steps: seq<Step>, pid: nat)
    requires Possible(Initial(sources), steps)
    requires var s := Run(Initial(sources), steps);
             pid in s.procs && s.procs[pid].stage.Done? && s.procs[pid].stage.result.Executed?
    ensures var s := Run(Initial(sources), steps);
            var file := s.procs[pid].stage.result.file;
            file.complete && (file.built == s.procs[pid].key <==> file.builder !in s.drifted)
  {
    RunKeeps(Initial(sources), steps);
    assert ProcessOk(Run(Initial(sources), steps), pid);
  }

  /** A process that ended left no temporary behind. */
  lemma NoTemporaryLeft(sources: string, steps: seq<Step>, pid: nat)
    requires Possible(Initial(sources), steps)
    requires var s := Run(Initial(sources), steps); pid in s.procs && s.procs[pid].stage.Done?
    ensures Temp(pid) !in Run(Initial(sources), steps).files
  {
    var s := Run(Initial(sources), steps);
    RunKeeps(Initial(sources), steps);
    assert Temp(pid) in s.files ==> FileOk(s, Temp(pid));
  }

  /** What is under `key`, if anything. */
  function Published(s: State, key: Key): Option<File> {
    if Entry(key) in s.files then Some(s.files[Entry(key)]) else None
  }

  /** The step is one by which a pruner takes the entry for `key` away. */
  predicate Evicts(step: Step, key: Key) {
    step.Evict? && step.victim == Entry(key)
  }

  /** The step publishes what one of these processes built for `key`. */
  predicate Publishes(step: Step, procs: map<nat, Process>, key: Key) {
    step.Rename? && step.succeeds && step.pid in procs && procs[step.pid].key == key
  }

  lemma {:induction false} KeysStay(s: State, steps: seq<Step>, pid: nat)
    requires Possible(s, steps) && pid in s.procs
    ensures pid in Run(s, steps).procs && Run(s, steps).procs[pid].key == s.procs[pid].key
    decreases |steps|
  {
    if steps == [] {
    } else {
      KeysStay(Apply(s, steps[0]), steps[1..], pid);
    }
  }

  /** Over any run, an entry that was there and is gone was evicted by a pruner on the way, and
      one that is there and was not, or that changed, was published by a process with its key. */
  lemma {:induction false} OnlyPruneDeletes(s: State, steps: seq<Step>, key: Key)
    requires Possible(s, steps)
    ensures Published(s, key).Some? && Published(Run(s, steps), key).None? ==>
              exists step | step in steps :: Evicts(step, key)
    ensures Published(Run(s, steps), key).Some? && Published(Run(s, steps), key) != Published(s, key) ==>
              exists step | step in steps :: Publishes(step, Run(s, steps).procs, key)
    decreases |steps|
  {
    if steps == [] {
    } else {
      var t := Apply(s, steps[0]);
      OnlyPruneDeletes(t, steps[1..], key);
      assert forall step | step in steps[1..] :: step in steps;
      if Published(t, key) != Published(s, key) && !Evicts(steps[0], key) {
        KeysStay(t, steps[1..], steps[0].pid);
        assert Publishes(steps[0], Run(s, steps).procs, key);
      }
    }
  }

  // ---- What the child's verdict means for the run ----

  /** The child rejected the program or could not link it. */
  predicate Rejects(outcome: Outcome) {
    outcome.DiagnosticErrors? || outcome.LinkFailure? || outcome.LinkTimeout? || outcome.NoArtifact?
  }

  predicate VerdictOk(p: Process) {
    match p.stage
    case Keyed => p.child.None?
    case Pruning => p.child.None?
    case Building => p.child.None?
    case Linking => p.child.None?
    case ChildExited(status) => p.child.Some? && status == ExitStatus(p.child.value, true)
    case Publishing => p.child == Some(Built)
    case Launching => p.child.None? || p.child == Some(Built)
    case Done(result) =>
      match result
      case Executed(_) => p.child.None? || p.child == Some(Built)
      case LaunchFailed => p.child.None? || p.child == Some(Built)
      case Refused => p.child.Some? && Rejects(p.child.value)
      case InProcess => p.child.Some? && !Rejects(p.child.value)
  }

  lemma {:induction false} VerdictsKept(s: State, steps: seq<Step>)
    requires Possible(s, steps) && forall pid | pid in s.procs :: VerdictOk(s.procs[pid])
    ensures forall pid | pid in Run(s, steps).procs :: VerdictOk(Run(s, steps).procs[pid])
    decreases |steps|
  {
    if steps == [] {
    } else {
      var t := Apply(s, steps[0]);
      forall pid | pid in t.procs ensures VerdictOk(t.procs[pid]) {
        assert pid in s.procs ==> VerdictOk(s.procs[pid]);
      }
      VerdictsKept(t, steps[1..]);
    }
  }

  /** A run is refused exactly when its child rejected the program or failed to link it: then
      the program runs neither from the cache nor in process. */
  lemma RejectedNeverRuns(sources: string, steps: seq<Step>, pid: nat)
    requires Possible(Initial(sources), steps)
    requires var s := Run(Initial(sources), steps); pid in s.procs && s.procs[pid].stage.Done?
    ensures var p := Run(Initial(sources), steps).procs[pid];
            && (p.stage.result.Refused? <==> p.child.Some? && Rejects(p.child.value))
            && (p.stage.result.Executed? ==> p.child.None? || p.child == Some(Built))
  {
    VerdictsKept(Initial(sources), steps);
    assert VerdictOk(Run(Initial(sources), steps).procs[pid]);
  }

  /** What the parent does once its child has ended is decided by how it ended, and by whether its
      artefact is still there. */
  lemma ChildDecides(sources: string, steps: seq<Step>, pid: nat)
    requires Possible(Initial(sources), steps)
    requires Enabled(Run(Initial(sources), steps), Settle(pid))
    ensures var s := Run(Initial(sources), steps);
            var child := s.procs[pid].child;
            var p := Apply(s, Settle(pid)).procs[pid];
            && child.Some?
            && (p.stage == Done(Refused) <==> Rejects(child.value))
            && (p.stage == Publishing <==> child.value.Built? && Temp(pid) in s.files)
            && (p.stage == Done(InProcess) <==> p.stage != Done(Refused) && p.stage != Publishing)
  {
    VerdictsKept(Initial(sources), steps);
    assert VerdictOk(Run(Initial(sources), steps).procs[pid]);
  }

  /** No step evicts the entry for `key` or publishes another one. */
  predicate Undisturbed(steps: seq<Step>, procs: map<nat, Process>, key: Key) {
    forall step | step in steps :: !Evicts(step, key) && !Publishes(step, procs, key)
  }

  /** The last step that touches an entry decides what is under its key afterwards: nothing if it was an
      eviction, what the process had built if it was a publication. */
  lemma LastTouchDecides(s: State, step: Step, steps: seq<Step>, key: Key)
    requires Enabled(s, step) && Possible(Apply(s, step), steps)
    requires Undisturbed(steps, Run(Apply(s, step), steps).procs, key)
    ensures Published(Run(Apply(s, step), steps), key) ==
            if Evicts(step, key) then None
            else if Publishes(step, s.procs, key) then Some(s.files[Temp(step.pid)])
            else Published(s, key)
  {
    OnlyPruneDeletes(Apply(s, step), steps, key);
  }

  // ---- Hits and misses ----

  lemma RunStep(s: State, step: Step, steps: seq<Step>)
    requires Enabled(s, step) && Possible(Apply(s, step), steps)
    ensures Possible(s, [step] + steps) && Run(s, [step] + steps) == Run(Apply(s, step), steps)
  {
    assert ([step] + steps)[0] == step && ([step] + steps)[1..] == steps;
  }

  /** How far a process that finds the entry `file` has come. */
  predicate OnHit(p: Process, file: File) {
    p.stage == Keyed || p.stage == Launching || p.stage == Done(Executed(file))
  }

  lemma HitStep(s: State, step: Step, pid: nat)
    requires Enabled(s, step) && pid in s.procs && Entry(s.procs[pid].key) in s.files
    requires OnHit(s.procs[pid], s.files[Entry(s.procs[pid].key)])
    requires !Evicts(step, s.procs[pid].key)
    requires !Publishes(step, s.procs, s.procs[pid].key)
    ensures var t, entry := Apply(s, step), Entry(s.procs[pid].key);
            && pid in t.procs && t.procs[pid].key == s.procs[pid].key && t.procs[pid].child == s.procs[pid].child
            && entry in t.files && t.files[entry] == s.files[entry]
            && t.procs[pid].stage == (if step == Lookup(pid) then Launching
                                      else if step == Launch(pid) then Done(Executed(s.files[entry]))
                                      else s.procs[pid].stage)
  {
  }

  /**
   * A process whose entry is there runs that entry, in any interleaving in which nobody evicts or
   * replaces it, and builds nothing: all it does is look up and launch.
   */
  lemma {:induction false} HitRuns(s: State, steps: seq<Step>, pid: nat)
    requires Possible(s, steps) && pid in s.procs && Entry(s.procs[pid].key) in s.files
    requires OnHit(s.procs[pid], s.files[Entry(s.procs[pid].key)])
    requires Undisturbed(steps, Run(s, steps).procs, s.procs[pid].key)
    ensures var t, entry := Run(s, steps), Entry(s.procs[pid].key);
            && pid in t.procs && t.procs[pid].child == s.procs[pid].child
            && entry in t.files && t.files[entry] == s.files[entry]
            && t.procs[pid].stage == (if Launch(pid) in steps then Done(Executed(s.files[entry]))
                                      else if Lookup(pid) in steps then Launching
                                      else s.procs[pid].stage)
    ensures Lookup(pid) in steps ==> s.procs[pid].stage == Keyed
    ensures Launch(pid) in steps ==> !s.procs[pid].stage.Done?
    decreases |steps|
  {
    if steps == [] {
    } else {
      var step, t := steps[0], Apply(s, steps[0]);
      assert step in steps && forall x | x in steps[1..] :: x in steps;
      assert forall x | x in steps :: x == step || x in steps[1..];
      if step.Rename? {
        KeysStay(t, steps[1..], step.pid);
      }
      HitStep(s, step, pid);
      HitRuns(t, steps[1..], pid);
    }
  }

  /** The lookup and the launch are always possible there. */
  lemma HitIsPossible(s: State, pid: nat)
    requires At(s, pid, Keyed) && Entry(s.procs[pid].key) in s.files
    ensures Possible(s, [Lookup(pid)] + ([Launch(pid)] + []))
    ensures var t := Run(s, [Lookup(pid)] + ([Launch(pid)] + []));
            && t.files == s.files
            && t.procs == s.procs[pid := s.procs[pid].(stage := Done(Executed(s.files[Entry(s.procs[pid].key)])))]
  {
    var t := Apply(s, Lookup(pid));
    RunStep(t, Launch(pid), []);
    RunStep(s, Lookup(pid), [Launch(pid)] + []);
  }

  /** The entry a rename leaves is what the process runs: its own build where the rename succeeds, and
      the winner's where it fails beside one. Where it fails and there is none, the program is left to
      the in-process compiler. */
  lemma RenameRuns(s: State, pid: nat, succeeds: bool, steps: seq<Step>)
    requires Enabled(s, Rename(pid, succeeds)) && Possible(Apply(s, Rename(pid, succeeds)), steps)
    requires Undisturbed(steps, Run(Apply(s, Rename(pid, succeeds)), steps).procs, s.procs[pid].key)
    ensures var procs, entry := Run(Apply(s, Rename(pid, succeeds)), steps).procs, Entry(s.procs[pid].key);
            && pid in procs
            && procs[pid].stage == (if !succeeds && entry !in s.files then Done(InProcess)
                                    else if Launch(pid) !in steps then Launching
                                    else Done(Executed(if succeeds then s.files[Temp(pid)] else s.files[entry])))
  {
    var t := Apply(s, Rename(pid, succeeds));
    if succeeds || Entry(s.procs[pid].key) in s.files {
      HitRuns(t, steps, pid);
    } else {
      DoneStays(t, steps, pid);
    }
  }

  lemma {:induction false} DoneStays(s: State, steps: seq<Step>, pid: nat)
    requires Possible(s, steps) && pid in s.procs && s.procs[pid].stage.Done?
    ensures pid in Run(s, steps).procs && Run(s, steps).procs[pid] == s.procs[pid]
    decreases |steps|
  {
    if steps == [] {
    } else {
      DoneStays(Apply(s, steps[0]), steps[1..], pid);
    }
  }

  /** Past its lookup, with no child yet or with one that ended. */
  predicate OnMiss(p: Process) {
    p.stage.Pruning? || p.stage.Building? || p.stage.Linking? || p.child.Some?
  }

  /** A process whose entry was not there ends only after its child did. */
  lemma {:induction false} MissBuilds(s: State, steps: seq<Step>, pid: nat)
    requires Possible(s, steps) && pid in s.procs
    requires OnMiss(s.procs[pid]) || (At(s, pid, Keyed) && Entry(s.procs[pid].key) !in s.files &&
                                      steps != [] && steps[0] == Lookup(pid))
    ensures pid in Run(s, steps).procs
    ensures Run(s, steps).procs[pid].stage.Done? ==> Run(s, steps).procs[pid].child.Some?
    decreases |steps|
  {
    if steps == [] {
    } else {
      assert OnMiss(Apply(s, steps[0]).procs[pid]);
      MissBuilds(Apply(s, steps[0]), steps[1..], pid);
    }
  }

  // ---- Every process can end ----

  /** How many steps of its own a process has left at most, evictions apart. */
  function Left(stage: Stage): nat {
    match stage
    case Keyed => 7
    case Pruning => 6
    case Building => 5
    case Linking => 4
    case ChildExited(_) => 3
    case Publishing => 2
    case Launching => 1
    case Done(_) => 0
  }

  predicate IsOwn(step: Step, pid: nat) {
    !step.Edit? && !step.Evict? && step.pid == pid
  }

  /** Every step of its own but an eviction brings a process closer to its end, no other step moves
      it, and as long as it has not ended there is one it can take. */
  lemma Advances(s: State, step: Step, pid: nat)
    requires pid in s.procs
    ensures Enabled(s, step) ==>
              && pid in Apply(s, step).procs
              && (if IsOwn(step, pid) then Left(Apply(s, step).procs[pid].stage) < Left(s.procs[pid].stage)
                  else Apply(s, step).procs[pid] == s.procs[pid])
    ensures !s.procs[pid].stage.Done? ==> exists own :: IsOwn(own, pid) && Enabled(s, own)
  {
    var own :=
      match s.procs[pid].stage
      case Keyed => Lookup(pid)
      case Pruning => Pruned(pid)
      case Building => ChildWrites(pid)
      case Linking => ChildEnds(pid, Killed)
      case ChildExited(_) => Settle(pid)
      case Publishing => Rename(pid, false)
      case Launching => Launch(pid)
      case Done(_) => Launch(pid);
    assert !s.procs[pid].stage.Done? ==> IsOwn(own, pid) && Enabled(s, own);
  }

  /** The steps among these that are the process's own, evictions apart. */
  function OwnSteps(steps: seq<Step>, pid: nat): nat {
    if steps == [] then 0 else (if IsOwn(steps[0], pid) then 1 else 0) + OwnSteps(steps[1..], pid)
  }

  /** So in any interleaving a process takes at most seven of them. */
  lemma {:induction false} EndsSoon(s: State, steps: seq<Step>, pid: nat)
    requires Possible(s, steps) && pid in s.procs
    ensures pid in Run(s, steps).procs
    ensures OwnSteps(steps, pid) + Left(Run(s, steps).procs[pid].stage) <= Left(s.procs[pid].stage)
    decreases |steps|
  {
    if steps == [] {
    } else {
      Advances(s, steps[0], pid);
      EndsSoon(Apply(s, steps[0]), steps[1..], pid);
    }
  }

  // ---- Stable sources ----

  /** The process has computed its key and its child has yet to read the sources. */
  predicate Exposed(p: Process) {
    p.stage.Keyed? || p.stage.Pruning? || p.stage.Building?
  }

  /** No edit falls between a process's key and its child's reading of the sources. */
  predicate Stable(s: State, steps: seq<Step>)
    requires Possible(s, steps)
    decreases |steps|
  {
    steps == [] ||
    (&& (steps[0].Edit? ==> forall pid | pid in s.procs :: !Exposed(s.procs[pid]))
     && Stable(Apply(s, steps[0]), steps[1..]))
  }

  lemma {:induction false} StableNeverDrifts(s: State, steps: seq<Step>)
    requires Possible(s, steps) && Stable(s, steps)
    requires forall pid | pid in s.procs && Exposed(s.procs[pid]) :: s.procs[pid].key.sources == s.sources
    ensures Run(s, steps).drifted == s.drifted
    decreases |steps|
  {
    if steps == [] {
    } else {
      StableNeverDrifts(Apply(s, steps[0]), steps[1..]);
    }
  }

  /** With stable sources every entry and everything executed is a complete build for its key. */
  lemma StableCacheIsSound(sources: string, steps: seq<Step>, pid: nat)
    requires Possible(Initial(sources), steps) && Stable(Initial(sources), steps)
    ensures var s := Run(Initial(sources), steps);
            && (forall key | Entry(key) in s.files :: s.files[Entry(key)].complete && s.files[Entry(key)].built == key)
            && (pid in s.procs && s.procs[pid].stage.Done? && s.procs[pid].stage.result.Executed? ==>
                  s.procs[pid].stage.result.file.complete && s.procs[pid].stage.result.file.built == s.procs[pid].key)
  {
    var s := Run(Initial(sources), steps);
    StableNeverDrifts(Initial(sources), steps);
    forall key | Entry(key) in s.files ensures s.files[Entry(key)].complete && s.files[Entry(key)].built == key {
      EntriesAreGenuine(sources, steps, key);
    }
    if pid in s.procs && s.procs[pid].stage.Done? && s.procs[pid].stage.result.Executed? {
      ExecutedIsGenuine(sources, steps, pid);
    }
  }

  function BuildAndPublish(pid: nat): seq<Step> {
    [ChildWrites(pid)] + ([ChildEnds(pid, Built)] + ([Settle(pid)] + ([Rename(pid, true)] + [])))
  }

  /** A build publishes, under the key computed before it, what the sources were when it read them. */
  lemma BuildPublishes(s: State, pid: nat)
    requires At(s, pid, Building)
    ensures Possible(s, BuildAndPublish(pid))
    ensures var key := s.procs[pid].key;
            var r := Run(s, BuildAndPublish(pid));
            Entry(key) in r.files && r.files[Entry(key)] == File(Key(key.config, s.sources), true, pid)
  {
    var s1 := Apply(s, ChildWrites(pid));
    var s2 := Apply(s1, ChildEnds(pid, Built));
    var s3 := Apply(s2, Settle(pid));
    RunStep(s3, Rename(pid, true), []);
    RunStep(s2, Settle(pid), [Rename(pid, true)] + []);
    RunStep(s1, ChildEnds(pid, Built), [Settle(pid)] + ([Rename(pid, true)] + []));
    RunStep(s, ChildWrites(pid), [ChildEnds(pid, Built)] + ([Settle(pid)] + ([Rename(pid, true)] + [])));
  }

  /** An edit inside that window is enough to poison the cache: the entry for the old sources
      then holds a program built from the new ones. */
  lemma EditDuringBuildPoisons(before: string, after: string, config: string)
    requires before != after
    ensures var steps := [Start(0, config)] + ([Lookup(0)] + ([Pruned(0)] + ([Edit(after)] + BuildAndPublish(0))));
            && Possible(Initial(before), steps)
            && Entry(Key(config, before)) in Run(Initial(before), steps).files
            && Run(Initial(before), steps).files[Entry(Key(config, before))] == File(Key(config, after), true, 0)
  {
    var s0 := Initial(before);
    var s1 := Apply(s0, Start(0, config));
    var s2 := Apply(s1, Lookup(0));
    var s3 := Apply(s2, Pruned(0));
    var s4 := Apply(s3, Edit(after));
    var rest := BuildAndPublish(0);
    BuildPublishes(s4, 0);
    RunStep(s3, Edit(after), rest);
    RunStep(s2, Pruned(0), [Edit(after)] + rest);
    RunStep(s1, Lookup(0), [Pruned(0)] + ([Edit(after)] + rest));
    RunStep(s0, Start(0, config), [Lookup(0)] + ([Pruned(0)] + ([Edit(after)] + rest)));
  }
}
