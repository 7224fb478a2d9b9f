/** The locked read-modify-write protocol of the JSON file store, for any number of processes.

    A process that updates the store opens the lock file, takes the exclusive lock, reads the
    document, runs its mutator on it, writes a temporary file, renames that over the document and
    releases the lock. Readers take no lock. A process may also die at any point; the operating
    system then frees its lock.

    `log` lists the operations in the order in which they acquired the lock, with what became of
    each. It is bookkeeping of the model: no step looks at it. */
module StoreProtocol {
  import opened Wrappers

  datatype Outcome<+D> = Commit(doc: D) | Raised

  /** `Create` is the write of the default document by the existence check; `Write` is an
      unconditional replacement; `Update` names a mutator. */
  datatype Op<+O, +D> = Create | Write(doc: D) | Update(mutator: O)

  datatype Status = Pending | Committed | Aborted

  datatype Entry<+O, +D> = Entry(op: Op<O, D>, status: Status)

  datatype Phase<+O, +D> =
    | Idle
    | Waiting(op: Op<O, D>)
    | Holding(op: Op<O, D>)
    | Loaded(mutator: O, payload: D)
    | Ready(op: Op<O, D>, doc: D)
    | Finished
    | Reading(seen: D, upTo: nat)

  /** What a finished read returned; `upTo` says how much of the log the value reflects. */
  datatype Read<+D> = Read(pid: nat, value: D, upTo: nat)

  datatype Store<+O, +D> = Store(
    file: Option<D>,
    holder: Option<nat>,
    phase: map<nat, Phase<O, D>>,
    log: seq<Entry<O, D>>,
    observed: seq<Read<D>>)
  {
    function PhaseOf(p: nat): Phase<O, D> {
      if p in phase then phase[p] else Idle
    }
  }

  datatype Step<+O, +D> =
    | EnsureExists(pid: nat)
    | RequestWrite(pid: nat, doc: D)
    | RequestUpdate(pid: nat, mutator: O)
    | Acquire(pid: nat)
    | Load(pid: nat)
    | Mutate(pid: nat)
    | WriteFails(pid: nat)
    | Rename(pid: nat)
    | Release(pid: nat)
    | OpenForRead(pid: nat)
    | ReturnRead(pid: nat)
    | Crash(pid: nat)

  /** The mutators' meaning, the document the file starts with, and the default document. */
  datatype Setup<!O, !D> = Setup(run: (O, D) -> Outcome<D>, initial: Option<D>, default: D)

  function Init<O, D>(c: Setup<O, D>): Store<O, D> {
    Store(c.initial, None, map[], [], [])
  }

  function SetPhase<O, D>(s: Store<O, D>, p: nat, ph: Phase<O, D>): Store<O, D> {
    s.(phase := s.phase[p := ph])
  }

  /** The last log entry is the lock holder's; `Resolve` records what became of it. */
  function Resolve<O, D>(log: seq<Entry<O, D>>, status: Status): seq<Entry<O, D>>
    requires log != []
  {
    log[|log| - 1 := log[|log| - 1].(status := status)]
  }

  predicate LastPending<O, D>(log: seq<Entry<O, D>>) {
    log != [] && log[|log| - 1].status == Pending
  }

  function ResolvedLength<O, D>(log: seq<Entry<O, D>>): nat {
    if LastPending(log) then |log| - 1 else |log|
  }

  predicate Enabled<O, D>(s: Store<O, D>, step: Step<O, D>) {
    var ph := s.PhaseOf(step.pid);
    match step
    case EnsureExists(_) => ph.Idle?
    case RequestWrite(_, _) => ph.Idle?
    case RequestUpdate(_, _) => ph.Idle?
    case Acquire(_) => ph.Waiting? && s.holder.None?
    case Load(_) => ph.Holding?
    case Mutate(_) => ph.Loaded?
    case WriteFails(_) => ph.Ready?
    case Rename(_) => ph.Ready?
    case Release(_) => ph.Finished?
    case OpenForRead(_) => ph.Idle? && s.file.Some?
    case ReturnRead(_) => ph.Reading?
    case Crash(_) => true
  }

  function Next<O, D>(c: Setup<O, D>, s: Store<O, D>, step: Step<O, D>): Store<O, D>
    requires Enabled(s, step)
  {
    var p, ph := step.pid, s.PhaseOf(step.pid);
    match step
    // The existence test happens before the lock is requested.
    case EnsureExists(_) => if s.file.Some? then s else SetPhase(s, p, Waiting(Create))
    case RequestWrite(_, doc) => SetPhase(s, p, Waiting(Write(doc)))
    case RequestUpdate(_, m) => SetPhase(s, p, Waiting(Update(m)))
    case Acquire(_) =>
      SetPhase(s, p, Holding(ph.op)).(holder := Some(p), log := s.log + [Entry(ph.op, Pending)])
    case Load(_) =>
      SetPhase(s, p, match ph.op
                     case Create => Ready(Create, c.default)
                     case Write(doc) => Ready(ph.op, doc)
                     case Update(m) => Loaded(m, s.file.GetOr(c.default)))
    case Mutate(_) =>
      (match c.run(ph.mutator, ph.payload)
       case Commit(doc) => SetPhase(s, p, Ready(Update(ph.mutator), doc))
       case Raised => SetPhase(s, p, Finished).(log := ResolveLast(s.log, Aborted)))
    case WriteFails(_) => SetPhase(s, p, Finished).(log := ResolveLast(s.log, Aborted))
    case Rename(_) => SetPhase(s, p, Finished).(file := Some(ph.doc), log := ResolveLast(s.log, Committed))
    case Release(_) => SetPhase(s, p, Idle).(holder := None)
    case OpenForRead(_) => SetPhase(s, p, Reading(s.file.value, ResolvedLength(s.log)))
    case ReturnRead(_) => SetPhase(s, p, Idle).(observed := s.observed + [Read(p, ph.seen, ph.upTo)])
    case Crash(_) =>
      if s.holder == Some(p) then SetPhase(s, p, Idle).(holder := None, log := ResolveLast(s.log, Aborted))
      else SetPhase(s, p, Idle)
  }

  /** `Resolve` on the entry that is still open, if there is one. */
  function ResolveLast<O, D>(log: seq<Entry<O, D>>, status: Status): seq<Entry<O, D>> {
    if LastPending(log) then Resolve(log, status) else log
  }

  /** The document obtained by running the committed operations of the log one after another. */
  function Replay<O, D>(c: Setup<O, D>, log: seq<Entry<O, D>>): Option<D> {
    if log == [] then c.initial
    else
      var before := Replay(c, log[..|log| - 1]);
      var last := log[|log| - 1];
      if last.status != Committed then before
      else Effect(c, last.op, before)
  }

  function Effect<O, D>(c: Setup<O, D>, op: Op<O, D>, before: Option<D>): Option<D> {
    match op
    case Create => Some(c.default)
    case Write(doc) => Some(doc)
    case Update(m) =>
      match c.run(m, before.GetOr(c.default))
      case Commit(doc) => Some(doc)
      case Raised => before
  }

  ghost predicate Resolved<O, D>(log: seq<Entry<O, D>>, n: nat) {
    n <= |log| && forall i :: 0 <= i < n ==> log[i].status != Pending
  }

  predicate InCriticalSection<O, D>(ph: Phase<O, D>) {
    ph.Holding? || ph.Loaded? || ph.Ready? || ph.Finished?
  }

  /** What a phase of the lock holder says about the log and the document. */
  ghost predicate HolderOk<O, D>(c: Setup<O, D>, s: Store<O, D>, ph: Phase<O, D>) {
    match ph
    case Holding(op) => LastPending(s.log) && s.log[|s.log| - 1].op == op
    case Loaded(m, payload) =>
      LastPending(s.log) && s.log[|s.log| - 1].op == Update(m) && payload == s.file.GetOr(c.default)
    case Ready(op, doc) =>
      LastPending(s.log) && s.log[|s.log| - 1].op == op && Effect(c, op, s.file) == Some(doc)
      && (op.Update? ==> c.run(op.mutator, s.file.GetOr(c.default)) == Commit(doc))
    case Finished => !LastPending(s.log)
    case _ => false
  }

  ghost predicate LockOk<O, D>(c: Setup<O, D>, s: Store<O, D>) {
    && (forall p :: p in s.phase ==> (InCriticalSection(s.phase[p]) <==> s.holder == Some(p)))
    && (s.holder.Some? ==> HolderOk(c, s, s.PhaseOf(s.holder.value)))
    && (s.holder.None? ==> !LastPending(s.log))
  }

  /** A value read without the lock is the document after some prefix of settled operations. */
  ghost predicate PrefixValue<O, D>(c: Setup<O, D>, log: seq<Entry<O, D>>, value: D, upTo: nat) {
    Resolved(log, upTo) && Replay(c, log[..upTo]) == Some(value)
  }

  ghost predicate ReadsOk<O, D>(c: Setup<O, D>, s: Store<O, D>) {
    && (forall p :: p in s.phase && s.phase[p].Reading? ==>
          PrefixValue(c, s.log, s.phase[p].seen, s.phase[p].upTo))
    && (forall i :: 0 <= i < |s.observed| ==> PrefixValue(c, s.log, s.observed[i].value, s.observed[i].upTo))
  }

  /** One process never sees the document go back in time. */
  ghost predicate MonotoneReads<O, D>(s: Store<O, D>) {
    && (forall i, j :: 0 <= i < j < |s.observed| && s.observed[i].pid == s.observed[j].pid ==>
          s.observed[i].upTo <= s.observed[j].upTo)
    && (forall i :: 0 <= i < |s.observed| && s.PhaseOf(s.observed[i].pid).Reading? ==>
          s.observed[i].upTo <= s.PhaseOf(s.observed[i].pid).upTo)
  }

  ghost predicate Linearizable<O, D>(c: Setup<O, D>, s: Store<O, D>) {
    s.file == Replay(c, s.log) && ReadsOk(c, s) && MonotoneReads(s)
  }

  ghost predicate Inv<O, D>(c: Setup<O, D>, s: Store<O, D>) {
    Linearizable(c, s) && LockOk(c, s) && Resolved(s.log, ResolvedLength(s.log))
  }

  /** Operations stay in acquisition order and a settled operation stays as it is. */
  ghost predicate Extends<O, D>(log: seq<Entry<O, D>>, log': seq<Entry<O, D>>) {
    && |log| <= |log'|
    && forall i :: 0 <= i < |log| ==>
         log'[i].op == log[i].op && (log[i].status != Pending ==> log'[i].status == log[i].status)
  }

  lemma ExtendsKeepsPrefix<O, D>(c: Setup<O, D>, log: seq<Entry<O, D>>, log': seq<Entry<O, D>>, value: D, upTo: nat)
    requires Extends(log, log') && PrefixValue(c, log, value, upTo)
    ensures PrefixValue(c, log', value, upTo)
  {
    assert log'[..upTo] == log[..upTo];
  }

  lemma ReplayPending<O, D>(c: Setup<O, D>, log: seq<Entry<O, D>>, op: Op<O, D>)
    ensures Replay(c, log + [Entry(op, Pending)]) == Replay(c, log)
  {
    assert (log + [Entry(op, Pending)])[..|log|] == log;
  }

  lemma ReplayResolve<O, D>(c: Setup<O, D>, log: seq<Entry<O, D>>, status: Status)
    requires LastPending(log)
    ensures Replay(c, Resolve(log, status))
         == if status == Committed then Effect(c, log[|log| - 1].op, Replay(c, log)) else Replay(c, log)
  {
    assert Resolve(log, status)[..|log| - 1] == log[..|log| - 1];
  }

  lemma StepExtends<O, D>(c: Setup<O, D>, s: Store<O, D>, step: Step<O, D>)
    requires Enabled(s, step)
    ensures Extends(s.log, Next(c, s, step).log)
  {
  }

  /** Every step re-establishes the tie between the file and the log. */
  lemma StepFile<O, D>(c: Setup<O, D>, s: Store<O, D>, step: Step<O, D>)
    requires Inv(c, s) && Enabled(s, step)
    ensures Next(c, s, step).file == Replay(c, Next(c, s, step).log)
  {
    var ph := s.PhaseOf(step.pid);
    if step.Acquire? {
      ReplayPending(c, s.log, ph.op);
    } else if LastPending(s.log) {
      ReplayResolve(c, s.log, Aborted);
      ReplayResolve(c, s.log, Committed);
    }
  }

  lemma StepLock<O, D>(c: Setup<O, D>, s: Store<O, D>, step: Step<O, D>)
    requires Inv(c, s) && Enabled(s, step)
    ensures LockOk(c, Next(c, s, step))
  {
  }

  lemma StepSettles<O, D>(c: Setup<O, D>, s: Store<O, D>, step: Step<O, D>)
    requires Resolved(s.log, ResolvedLength(s.log)) && LockOk(c, s) && Enabled(s, step)
    ensures Resolved(Next(c, s, step).log, ResolvedLength(Next(c, s, step).log))
  {
  }

  /** The document as a reader finds it. */
  lemma FileIsPrefix<O, D>(c: Setup<O, D>, s: Store<O, D>)
    requires s.file == Replay(c, s.log) && s.file.Some? && Resolved(s.log, ResolvedLength(s.log))
    ensures PrefixValue(c, s.log, s.file.value, ResolvedLength(s.log))
  {
    var n := ResolvedLength(s.log);
    if LastPending(s.log) {
      ReplayPending(c, s.log[..n], s.log[n].op);
      assert s.log[..n] + [s.log[n]] == s.log;
    } else {
      assert s.log[..n] == s.log;
    }
  }

  /** Whatever was read stays the value of its prefix. */
  lemma StepReads<O, D>(c: Setup<O, D>, s: Store<O, D>, step: Step<O, D>)
    requires Inv(c, s) && Enabled(s, step)
    ensures ReadsOk(c, Next(c, s, step))
  {
    var s' := Next(c, s, step);
    StepExtends(c, s, step);
    forall value, upTo | PrefixValue(c, s.log, value, upTo) ensures PrefixValue(c, s'.log, value, upTo) {
      ExtendsKeepsPrefix(c, s.log, s'.log, value, upTo);
    }
    if step.OpenForRead? {
      FileIsPrefix(c, s);
    }
  }

  lemma StepReadsForward<O, D>(c: Setup<O, D>, s: Store<O, D>, step: Step<O, D>)
    requires ReadsOk(c, s) && MonotoneReads(s) && LockOk(c, s) && Enabled(s, step)
    requires Resolved(s.log, ResolvedLength(s.log))
    ensures MonotoneReads(Next(c, s, step))
  {
    if step.OpenForRead? {
      forall i | 0 <= i < |s.observed| ensures s.observed[i].upTo <= ResolvedLength(s.log) {
        assert PrefixValue(c, s.log, s.observed[i].value, s.observed[i].upTo);
      }
    }
  }

  ghost predicate ValidRun<O, D>(c: Setup<O, D>, steps: seq<Step<O, D>>)
    decreases |steps|, 0
  {
    steps == [] ||
    (var n := |steps| - 1; ValidRun(c, steps[..n]) && Enabled(After(c, steps[..n]), steps[n]))
  }

  ghost function After<O, D>(c: Setup<O, D>, steps: seq<Step<O, D>>): Store<O, D>
    requires ValidRun(c, steps)
    decreases |steps|, 1
  {
    if steps == [] then Init(c)
    else var n := |steps| - 1; Next(c, After(c, steps[..n]), steps[n])
  }

  lemma {:induction false} RunInv<O, D>(c: Setup<O, D>, steps: seq<Step<O, D>>)
    requires ValidRun(c, steps)
    ensures Inv(c, After(c, steps))
    decreases |steps|
  {
    if steps != [] {
      var n := |steps| - 1;
      RunInv(c, steps[..n]);
      StepFile(c, After(c, steps[..n]), steps[n]);
      StepLock(c, After(c, steps[..n]), steps[n]);
      StepSettles(c, After(c, steps[..n]), steps[n]);
      StepReads(c, After(c, steps[..n]), steps[n]);
      StepReadsForward(c, After(c, steps[..n]), steps[n]);
    }
  }

  /** Main result: in every interleaving of any number of processes, dying ones included, the file
      holds what the committed operations produce when run one after another in the order in which
      they took the lock, and every lock-free read returned the result of a settled prefix. */
  lemma StoreIsLinearizable<O, D>(c: Setup<O, D>, steps: seq<Step<O, D>>)
    requires ValidRun(c, steps)
    ensures Linearizable(c, After(c, steps))
  {
    RunInv(c, steps);
  }

  /** The operations in the order of the `Acquire` steps of a run. */
  ghost function AcquisitionOrder<O, D>(c: Setup<O, D>, steps: seq<Step<O, D>>): seq<Op<O, D>>
    requires ValidRun(c, steps)
    decreases |steps|
  {
    if steps == [] then []
    else
      var n := |steps| - 1;
      AcquisitionOrder(c, steps[..n]) +
      if steps[n].Acquire? then [After(c, steps[..n]).PhaseOf(steps[n].pid).op] else []
  }

  lemma {:induction false} LogIsAcquisitionOrder<O, D>(c: Setup<O, D>, steps: seq<Step<O, D>>)
    requires ValidRun(c, steps)
    ensures |After(c, steps).log| == |AcquisitionOrder(c, steps)|
    ensures forall i :: 0 <= i < |After(c, steps).log| ==>
              After(c, steps).log[i].op == AcquisitionOrder(c, steps)[i]
    decreases |steps|
  {
    if steps != [] {
      var n := |steps| - 1;
      LogIsAcquisitionOrder(c, steps[..n]);
      StepExtends(c, After(c, steps[..n]), steps[n]);
    }
  }

  /** What has settled in the log of a run stays settled however the run goes on. */
  lemma {:induction false} LogOnlyExtends<O, D>(c: Setup<O, D>, steps: seq<Step<O, D>>, k: nat)
    requires k <= |steps| && ValidRun(c, steps)
    ensures ValidRun(c, steps[..k])
    ensures Extends(After(c, steps[..k]).log, After(c, steps).log)
    decreases |steps|
  {
    if k == |steps| {
      assert steps[..k] == steps;
    } else {
      var n := |steps| - 1;
      LogOnlyExtends(c, steps[..n], k);
      assert steps[..n][..k] == steps[..k];
      StepExtends(c, After(c, steps[..n]), steps[n]);
    }
  }

  /** The document changes only when a prepared temporary file is renamed over it, and the same
      step marks its operation committed. A mutator that raises therefore leaves the file as it
      was, and so does a process that dies or cannot write. */
  lemma OnlyRenameChangesFile<O, D>(c: Setup<O, D>, steps: seq<Step<O, D>>, step: Step<O, D>)
    requires ValidRun(c, steps) && Enabled(After(c, steps), step)
    ensures var s, s' := After(c, steps), Next(c, After(c, steps), step);
            && (s'.file != s.file ==> step.Rename?)
            && (step.Rename? ==> LastPending(s.log) && s'.log == Resolve(s.log, Committed)
                                 && s'.file == Effect(c, s.log[|s.log| - 1].op, s.file))
            && (step.Mutate? && c.run(s.PhaseOf(step.pid).mutator, s.PhaseOf(step.pid).payload).Raised? ==>
                  LastPending(s.log) && s'.log == Resolve(s.log, Aborted))
  {
    RunInv(c, steps);
  }

  /** At most one process is between taking and freeing the lock. */
  lemma MutualExclusion<O, D>(c: Setup<O, D>, steps: seq<Step<O, D>>, p: nat, q: nat)
    requires ValidRun(c, steps)
    requires InCriticalSection(After(c, steps).PhaseOf(p)) && InCriticalSection(After(c, steps).PhaseOf(q))
    ensures p == q
  {
    RunInv(c, steps);
  }

  // ----- The existence check runs outside the lock -----

  /** A client's committed operation was later overwritten by a default document. */
  ghost predicate LostToCreate<O, D>(log: seq<Entry<O, D>>) {
    exists i, j :: 0 <= i < j < |log|
      && !log[i].op.Create? && log[i].status == Committed && log[j] == Entry(Create, Committed)
  }

  ghost predicate NoCreate<O, D>(s: Store<O, D>) {
    && s.file.Some?
    && (forall p :: p in s.phase ==>
          match s.phase[p]
          case Waiting(op) => !op.Create?
          case Holding(op) => !op.Create?
          case Ready(op, _) => !op.Create?
          case _ => true)
    && (forall i :: 0 <= i < |s.log| ==> !s.log[i].op.Create?)
  }

  lemma {:induction false} ExistingFileIsNeverCreated<O, D>(c: Setup<O, D>, steps: seq<Step<O, D>>)
    requires ValidRun(c, steps) && c.initial.Some?
    ensures NoCreate(After(c, steps))
    decreases |steps|
  {
    if steps != [] {
      ExistingFileIsNeverCreated(c, steps[..|steps| - 1]);
    }
  }

  lemma Append<O, D>(c: Setup<O, D>, steps: seq<Step<O, D>>, step: Step<O, D>) returns (longer: seq<Step<O, D>>)
    requires ValidRun(c, steps) && Enabled(After(c, steps), step)
    ensures longer == steps + [step] && ValidRun(c, longer)
    ensures After(c, longer) == Next(c, After(c, steps), step)
  {
    longer := steps + [step];
    assert longer[..|steps|] == steps;
  }

  /** Starting without a file, process 0 sees none, process 1 creates it and commits an update,
      and process 0 then replaces the result by the default document. */
  lemma LostUpdate<O, D>(c: Setup<O, D>, m: O) returns (run: seq<Step<O, D>>)
    requires c.initial.None? && c.run(m, c.default).Commit?
    ensures ValidRun(c, run)
    ensures After(c, run).log == [Entry(Create, Committed), Entry(Update(m), Committed), Entry(Create, Committed)]
    ensures After(c, run).file == Some(c.default)
  {
    run := [];
    run := Append(c, run, EnsureExists(0));
    run := Append(c, run, EnsureExists(1));
    assert After(c, run).PhaseOf(0) == Waiting(Create) && After(c, run).PhaseOf(1) == Waiting(Create);
    run := RunAlone(c, run, 1, Create, c.default);
    assert After(c, run).PhaseOf(0) == Waiting(Create) && After(c, run).PhaseOf(1) == Idle;
    run := Append(c, run, RequestUpdate(1, m));
    assert After(c, run).PhaseOf(0) == Waiting(Create);
    run := RunAlone(c, run, 1, Update(m), c.run(m, c.default).doc);
    run := RunAlone(c, run, 0, Create, c.default);
  }

  /** A waiting process that takes the lock, writes and releases, nobody else interfering. */
  lemma RunAlone<O, D>(
      c: Setup<O, D>, steps: seq<Step<O, D>>, p: nat, op: Op<O, D>, doc: D) returns (longer: seq<Step<O, D>>)
    requires ValidRun(c, steps)
    requires var s := After(c, steps);
             s.holder.None? && s.PhaseOf(p) == Waiting(op) && Effect(c, op, s.file) == Some(doc)
             && (op.Update? ==> c.run(op.mutator, s.file.GetOr(c.default)) == Commit(doc))
    ensures ValidRun(c, longer)
    ensures var s, s' := After(c, steps), After(c, longer);
      && s'.holder.None? && s'.file == Some(doc) && s'.log == s.log + [Entry(op, Committed)]
      && forall q :: s'.PhaseOf(q) == if q == p then Idle else s.PhaseOf(q)
  {
    longer := Append(c, steps, Acquire(p));
    longer := Append(c, longer, Load(p));
    if op.Update? {
      longer := Append(c, longer, Mutate(p));
    }
    longer := Append(c, longer, Rename(p));
    longer := Append(c, longer, Release(p));
  }

  /** What an operation that is not interfered with makes of the file: the existence check the default
      document, a write its document, and an update what its mutator makes of the document as it is; a
      mutator that raises leaves the file alone. */
  lemma AloneTakesEffect<O, D>(c: Setup<O, D>, steps: seq<Step<O, D>>, p: nat, op: Op<O, D>)
    returns (longer: seq<Step<O, D>>)
    requires ValidRun(c, steps) && After(c, steps).holder.None? && After(c, steps).PhaseOf(p) == Waiting(op)
    ensures ValidRun(c, longer)
    ensures var s, s' := After(c, steps), After(c, longer);
      && s'.holder.None? && s'.PhaseOf(p) == Idle
      && match op
         case Create => s'.file == Some(c.default)
         case Write(doc) => s'.file == Some(doc)
         case Update(m) =>
           match c.run(m, if s.file.Some? then s.file.value else c.default)
           case Commit(doc) => s'.file == Some(doc)
           case Raised => s'.file == s.file
  {
    var before := After(c, steps).file;
    if op.Update? && c.run(op.mutator, before.GetOr(c.default)).Raised? {
      longer := Append(c, steps, Acquire(p));
      longer := Append(c, longer, Load(p));
      longer := Append(c, longer, Mutate(p));
      longer := Append(c, longer, Release(p));
    } else {
      longer := RunAlone(c, steps, p, op, Effect(c, op, before).value);
    }
  }

  /** Committed work is safe from the existence check exactly when the file exists at the start
      (given some mutator that can commit on the default document at all). */
  lemma CommittedWorkSurvivesIffFileExists<O(!new), D(!new)>(c: Setup<O, D>, m: O)
    requires c.run(m, c.default).Commit?
    ensures c.initial.Some? <==>
            forall steps :: ValidRun(c, steps) ==> !LostToCreate(After(c, steps).log)
  {
    if c.initial.Some? {
      forall steps | ValidRun(c, steps) ensures !LostToCreate(After(c, steps).log) {
        ExistingFileIsNeverCreated(c, steps);
      }
    } else {
      var run := LostUpdate(c, m);
      var log := After(c, run).log;
      assert !log[1].op.Create? && log[1].status == Committed && log[2] == Entry(Create, Committed);
      assert LostToCreate(log);
    }
  }

  // ----- Freshness -----

  ghost predicate NotOf<O, D>(steps: seq<Step<O, D>>, p: nat) {
    forall i :: 0 <= i < |steps| ==> steps[i].pid != p
  }

  /** While only others take steps, a process stays where it is. */
  lemma {:induction false} OthersKeepPhase<O, D>(
      c: Setup<O, D>, before: seq<Step<O, D>>, others: seq<Step<O, D>>, p: nat)
    requires ValidRun(c, before + others) && NotOf(others, p)
    ensures ValidRun(c, before) && After(c, before + others).PhaseOf(p) == After(c, before).PhaseOf(p)
    decreases |others|
  {
    if others == [] {
      assert before + others == before;
    } else {
      var n := |others| - 1;
      assert (before + others)[..|before + others| - 1] == before + others[..n];
      OthersKeepPhase(c, before, others[..n], p);
    }
  }

  /** A read returns the document as it was when the read started, whatever happened meanwhile,
      and with it everything that had settled by then. */
  lemma ReadIsFresh<O, D>(c: Setup<O, D>, before: seq<Step<O, D>>, others: seq<Step<O, D>>, p: nat)
    requires NotOf(others, p) && ValidRun(c, before + [OpenForRead(p)] + others + [ReturnRead(p)])
    ensures ValidRun(c, before)
    ensures var s := After(c, before);
            var observed := After(c, before + [OpenForRead(p)] + others + [ReturnRead(p)]).observed;
      s.file.Some? && observed != []
      && observed[|observed| - 1] == Read(p, s.file.value, ResolvedLength(s.log))
  {
    var entered := before + [OpenForRead(p)];
    var all := entered + others + [ReturnRead(p)];
    assert all[..|all| - 1] == entered + others;
    OthersKeepPhase(c, entered, others, p);
    assert entered[..|before|] == before;
  }

  /** Everything up to an operation that committed is reflected in every read that starts later, so
      that a process sees its own work and that of all others. */
  lemma CommittedIsReadLater<O, D>(c: Setup<O, D>, steps: seq<Step<O, D>>, k: nat)
    requires ValidRun(c, steps) && k < |steps| && steps[k].Rename?
    ensures ValidRun(c, steps[..k + 1])
    ensures var n := |After(c, steps[..k + 1]).log|; var log := After(c, steps).log;
      0 < n <= ResolvedLength(log) && log[n - 1].status == Committed
  {
    LogOnlyExtends(c, steps, k + 1);
    LogOnlyExtends(c, steps, k);
    assert steps[..k + 1][..k] == steps[..k];
    LogOnlyExtends(c, steps[..k + 1], k);
    OnlyRenameChangesFile(c, steps[..k], steps[k]);
  }

  // ----- Counters -----

  function CountOf<K>(counters: map<K, int>, k: K): int {
    if k in counters then counters[k] else 0
  }

  /** Committed increments of one counter. */
  function CommittedOf<K(==)>(log: seq<Entry<K, map<K, int>>>, k: K): nat {
    if log == [] then 0
    else
      var last := log[|log| - 1];
      CommittedOf(log[..|log| - 1], k) + if last.status == Committed && last.op == Update(k) then 1 else 0
  }

  predicate OnlyUpdates<O, D>(log: seq<Entry<O, D>>) {
    forall i :: 0 <= i < |log| ==> log[i].op.Update?
  }

  /** A document of counters, each under the keys that lead to it, with one mutator for each that
      increments it. */
  function CounterSetup<K(==)>(start: map<K, int>, default: map<K, int>): Setup<K, map<K, int>> {
    Setup((k: K, counters: map<K, int>) => Commit(counters[k := CountOf(counters, k) + 1]), Some(start), default)
  }

  lemma {:induction false} IncrementsAddUp<K(!new)>(
      start: map<K, int>, default: map<K, int>, log: seq<Entry<K, map<K, int>>>, k: K)
    requires OnlyUpdates(log)
    ensures Replay(CounterSetup(start, default), log).Some?
    ensures CountOf(Replay(CounterSetup(start, default), log).value, k) == CountOf(start, k) + CommittedOf(log, k)
    decreases log
  {
    if log != [] {
      IncrementsAddUp(start, default, log[..|log| - 1], k);
    }
  }

  /** However many processes increment the counters of an existing file, in whatever interleaving
      and with whatever crashes, every counter has grown by the number of its own committed
      increments, and so those that nobody incremented have not changed. */
  lemma NoIncrementIsLost<K(!new)>(start: map<K, int>, default: map<K, int>, steps: seq<Step<K, map<K, int>>>, k: K)
    requires ValidRun(CounterSetup(start, default), steps)
    requires OnlyUpdates(After(CounterSetup(start, default), steps).log)
    ensures var s := After(CounterSetup(start, default), steps);
      s.file.Some? && CountOf(s.file.value, k) == CountOf(start, k) + CommittedOf(s.log, k)
  {
    StoreIsLinearizable(CounterSetup(start, default), steps);
    IncrementsAddUp(start, default, After(CounterSetup(start, default), steps).log, k);
  }
}
