/**
 The append-only revision store: conditional appends by many clients, interleaved at
 every step, under one lock, with an arbitrary clock and readers that take no lock.
 */
module RevisionStore {
  import opened Ordering

  type Client = int

  /** What the store looks at in a stored result.  `sound` is the outcome of the
      fingerprint comparison and the audit. */
  datatype Artifact = Artifact(packageId: Id, configuration: Id, fingerprint: Id, payload: Id, sound: bool)

  /** How directories are named after time stamps and read back; LIMIT is the first time
      stamp whose name does not read back. */
  datatype Codec<!N> = Codec(name: nat -> N, stamp: N -> Option<nat>, limit: nat)

  ghost predicate CodecLaw<N(!new)>(codec: Codec<N>)
  {
    forall n: nat :: codec.stamp(codec.name(n)) == if n < codec.limit then Some(n) else None
  }

  // ------------------------------------------------------------- the directory

  datatype Directory<!N> = Directory(base: Artifact, revisions: map<N, Artifact>)

  predicate IsRevision<N>(codec: Codec<N>, dir: Directory<N>, name: N)
  {
    name in dir.revisions && codec.stamp(name).Some?
  }

  /** Where load looks: a revision with the greatest time stamp, or the base artifact. */
  datatype Source<+N> = BaseSource | RevisionSource(name: N)

  ghost predicate IsLatest<N(!new)>(codec: Codec<N>, dir: Directory<N>, source: Source<N>)
  {
    match source
    case BaseSource => forall m :: !IsRevision(codec, dir, m)
    case RevisionSource(name) =>
      && IsRevision(codec, dir, name)
      && forall m :: IsRevision(codec, dir, m) ==> codec.stamp(m).value <= codec.stamp(name).value
  }

  predicate Holds<N>(dir: Directory<N>, source: Source<N>)
  {
    source.RevisionSource? ==> source.name in dir.revisions
  }

  function Read<N>(dir: Directory<N>, source: Source<N>): Artifact
    requires Holds(dir, source)
  {
    if source.BaseSource? then dir.base else dir.revisions[source.name]
  }

  /** The time stamp chosen for the next revision: the clock, unless an earlier revision
      already reached it. */
  ghost predicate NextStamp<N(!new)>(codec: Codec<N>, dir: Directory<N>, now: int, ts: nat)
  {
    && ts >= now && ts >= 1
    && (forall m :: IsRevision(codec, dir, m) ==> codec.stamp(m).value < ts)
    && (ts == now || ts == 1 || exists m :: IsRevision(codec, dir, m) && codec.stamp(m).value + 1 == ts)
  }

  // ------------------------------------------------------------ the shared system

  datatype Job = Job(result: Artifact, expected: Option<Id>)

  datatype Pc<+N> =
    | Idle
    | Waiting(job: Job)
    | Entered(job: Job)
    | Checked(job: Job)
    | Stamped(job: Job, ts: nat)
    | Committed
    | Listed(source: Source<N>, seen: nat)
    | Loaded(artifact: Artifact, seen: nat)

  datatype Commit = Commit(result: Artifact, expected: Option<Id>, ts: nat)

  datatype System<!N> = System(dir: Directory<N>, lock: Option<Client>, pcs: map<Client, Pc<N>>, log: seq<Commit>)

  predicate InSection<N>(pc: Pc<N>) { pc.Entered? || pc.Checked? || pc.Stamped? || pc.Committed? }

  ghost predicate Matches<N(!new)>(codec: Codec<N>, dir: Directory<N>, job: Job)
  {
    job.expected.Some? ==>
      exists source :: IsLatest(codec, dir, source) && Holds(dir, source)
        && Read(dir, source).sound && Read(dir, source).fingerprint == job.expected.value
        && Read(dir, source).packageId == job.result.packageId
        && Read(dir, source).configuration == job.result.configuration
  }

  function Moved<N>(s: System<N>, c: Client, pc: Pc<N>): System<N> { s.(pcs := s.pcs[c := pc]) }

  function Left<N>(s: System<N>, c: Client): System<N> { s.(pcs := s.pcs[c := Idle], lock := None) }

  datatype Step<+N> =
    | Begin(job: Job) | Acquire | CheckExpected | Fail | Stamp(now: int, ts: nat) | Rename
    | Release | List(source: Source<N>) | Load | Forget

  /** One atomic step of client c.  Failing checks, a failing rename and any other error
      leave the critical section through `Fail`. */
  ghost predicate Next<N(!new)>(codec: Codec<N>, s: System<N>, c: Client, step: Step<N>, s': System<N>)
  {
    && c in s.pcs
    && match step
       case Begin(job) => s.pcs[c].Idle? && s' == Moved(s, c, Waiting(job))
       case Acquire => s.pcs[c].Waiting? && s.lock == None && s' == Moved(s, c, Entered(s.pcs[c].job)).(lock := Some(c))
       case CheckExpected =>
         && s.pcs[c].Entered? && Matches(codec, s.dir, s.pcs[c].job) && s.pcs[c].job.result.sound
         && s' == Moved(s, c, Checked(s.pcs[c].job))
       case Fail => InSection(s.pcs[c]) && s' == Left(s, c)
       case Stamp(now, ts) =>
         && s.pcs[c].Checked? && NextStamp(codec, s.dir, now, ts)
         && s' == Moved(s, c, Stamped(s.pcs[c].job, ts))
       case Rename =>
         && s.pcs[c].Stamped? && codec.name(s.pcs[c].ts) !in s.dir.revisions
         && var pc := s.pcs[c];
         && s' == Moved(s, c, Committed).(
              dir := s.dir.(revisions := s.dir.revisions[codec.name(pc.ts) := pc.job.result]),
              log := s.log + [Commit(pc.job.result, pc.job.expected, pc.ts)])
       case Release => s.pcs[c].Committed? && s' == Left(s, c)
       case List(source) =>
         && s.pcs[c].Idle? && IsLatest(codec, s.dir, source) && s' == Moved(s, c, Listed(source, |s.log|))
       case Load =>
         && s.pcs[c].Listed? && Holds(s.dir, s.pcs[c].source)
         && s' == Moved(s, c, Loaded(Read(s.dir, s.pcs[c].source), s.pcs[c].seen))
       case Forget => s.pcs[c].Loaded? && s' == Moved(s, c, Idle)
  }

  ghost predicate Initial<N>(s: System<N>)
  {
    s.lock == None && s.log == [] && forall c :: c in s.pcs ==> s.pcs[c].Idle?
  }

  /** A run: system states connected by steps of clients. */
  datatype Event<+N> = Event(client: Client, step: Step<N>)

  ghost predicate IsRun<N(!new)>(codec: Codec<N>, states: seq<System<N>>, events: seq<Event<N>>)
  {
    && |states| == |events| + 1 && Initial(states[0])
    && forall i :: 0 <= i < |events| ==> Next(codec, states[i], events[i].client, events[i].step, states[i + 1])
  }

  // ------------------------------------------------------------------ the invariant

  /** All time stamps committed so far can be read back. */
  predicate Readable<N>(codec: Codec<N>, log: seq<Commit>)
  {
    forall i :: 0 <= i < |log| ==> log[i].ts < codec.limit
  }

  ghost predicate Exclusive<N>(s: System<N>)
  {
    forall c :: c in s.pcs ==> (InSection(s.pcs[c]) <==> s.lock == Some(c))
  }

  /** The log is in the directory, in order of time stamps, on top of the initial one. */
  ghost predicate LogStored<N(!new)>(codec: Codec<N>, d0: Directory<N>, s: System<N>)
  {
    && s.dir.base == d0.base
    && (forall m :: m in d0.revisions ==> m in s.dir.revisions && s.dir.revisions[m] == d0.revisions[m])
    && (forall i :: 0 <= i < |s.log| ==> var m := codec.name(s.log[i].ts);
          m in s.dir.revisions && m !in d0.revisions && s.dir.revisions[m] == s.log[i].result)
    && (forall m :: m in s.dir.revisions ==>
          m in d0.revisions || exists i :: 0 <= i < |s.log| && m == codec.name(s.log[i].ts))
  }

  ghost predicate StampsIncrease<N(!new)>(codec: Codec<N>, d0: Directory<N>, log: seq<Commit>)
  {
    && (forall i, j :: 0 <= i < j < |log| ==> log[i].ts < log[j].ts)
    && (forall i, m :: 0 <= i < |log| && IsRevision(codec, d0, m) ==> codec.stamp(m).value < log[i].ts)
  }

  /** Some artifact that load may return from the initial directory, or the last commit. */
  ghost predicate Current<N(!new)>(codec: Codec<N>, d0: Directory<N>, log: seq<Commit>, a: Artifact)
  {
    if log == [] then exists source :: IsLatest(codec, d0, source) && Holds(d0, source) && Read(d0, source) == a
    else a == log[|log| - 1].result
  }

  /** No lost update: every conditional commit names the fingerprint of the artifact that
      was current just before it. */
  ghost predicate NoLostUpdate<N(!new)>(codec: Codec<N>, d0: Directory<N>, log: seq<Commit>)
  {
    forall i :: 0 <= i < |log| && log[i].expected.Some? ==>
      exists a :: Current(codec, d0, log[..i], a) && a.fingerprint == log[i].expected.value
        && a.packageId == log[i].result.packageId && a.configuration == log[i].result.configuration
  }

  ghost predicate ExpectedHolds<N(!new)>(codec: Codec<N>, d0: Directory<N>, log: seq<Commit>, job: Job)
  {
    job.expected.Some? ==>
      exists a :: Current(codec, d0, log, a) && a.fingerprint == job.expected.value
        && a.packageId == job.result.packageId && a.configuration == job.result.configuration
  }

  /** What each client may rely on at its program point. */
  ghost predicate ClientFacts<N(!new)>(codec: Codec<N>, d0: Directory<N>, s: System<N>, pc: Pc<N>)
  {
    match pc
    case Checked(job) => job.result.sound && ExpectedHolds(codec, d0, s.log, job)
    case Stamped(job, ts) =>
      && job.result.sound && ExpectedHolds(codec, d0, s.log, job)
      && forall m :: IsRevision(codec, s.dir, m) ==> codec.stamp(m).value < ts
    case Listed(source, seen) =>
      seen <= |s.log| && Holds(s.dir, source) && Current(codec, d0, s.log[..seen], Read(s.dir, source))
    case Loaded(a, seen) => seen <= |s.log| && Current(codec, d0, s.log[..seen], a)
    case _ => true
  }

  ghost predicate Inv<N(!new)>(codec: Codec<N>, d0: Directory<N>, s: System<N>)
  {
    && Exclusive(s)
    && LogStored(codec, d0, s)
    && (Readable(codec, s.log) ==>
          && StampsIncrease(codec, d0, s.log)
          && NoLostUpdate(codec, d0, s.log)
          && (forall i :: 0 <= i < |s.log| ==> s.log[i].result.sound)
          && forall c :: c in s.pcs ==> ClientFacts(codec, d0, s, s.pcs[c]))
  }

  // ---------------------------------------------------------------- one step at a time

  lemma ExclusiveStep<N(!new)>(codec: Codec<N>, s: System<N>, c: Client, step: Step<N>, s': System<N>)
    requires Exclusive(s) && Next(codec, s, c, step, s')
    ensures Exclusive(s')
  {
  }

  lemma LogStoredStep<N(!new)>(codec: Codec<N>, d0: Directory<N>, s: System<N>, c: Client, step: Step<N>, s': System<N>)
    requires LogStored(codec, d0, s) && Next(codec, s, c, step, s')
    ensures LogStored(codec, d0, s')
  {
    if step.Rename? {
      var added := codec.name(s.pcs[c].ts);
      var n := |s.log|;
      assert s'.log[n].ts == s.pcs[c].ts;
      forall m | m in s'.dir.revisions && m !in d0.revisions
        ensures exists i :: 0 <= i < |s'.log| && m == codec.name(s'.log[i].ts)
      {
        if m != added {
          var i :| 0 <= i < |s.log| && m == codec.name(s.log[i].ts);
          assert s'.log[i] == s.log[i];
        } else {
          assert m == codec.name(s'.log[n].ts);
        }
      }
    }
  }

  /** What every step keeps: the log only grows and no stored artifact changes. */
  lemma StepExtends<N(!new)>(codec: Codec<N>, s: System<N>, c: Client, step: Step<N>, s': System<N>)
    requires Next(codec, s, c, step, s')
    ensures s.log <= s'.log && s.dir.base == s'.dir.base
    ensures forall m :: m in s.dir.revisions ==> m in s'.dir.revisions && s'.dir.revisions[m] == s.dir.revisions[m]
  {
  }

  lemma LoggedIsRevision<N(!new)>(codec: Codec<N>, d0: Directory<N>, s: System<N>, i: nat)
    requires CodecLaw(codec) && LogStored(codec, d0, s) && Readable(codec, s.log) && i < |s.log|
    ensures IsRevision(codec, s.dir, codec.name(s.log[i].ts))
    ensures codec.stamp(codec.name(s.log[i].ts)) == Some(s.log[i].ts)
  {
  }

  /** What a reader picks, with or without the lock, is the last commit. */
  lemma LatestIsCurrent<N(!new)>(codec: Codec<N>, d0: Directory<N>, s: System<N>, source: Source<N>)
    requires CodecLaw(codec) && LogStored(codec, d0, s) && Readable(codec, s.log) && StampsIncrease(codec, d0, s.log)
    requires IsLatest(codec, s.dir, source)
    ensures Holds(s.dir, source) && Current(codec, d0, s.log, Read(s.dir, source))
  {
    if s.log == [] {
      assert s.dir.revisions == d0.revisions;
      assert s.dir == d0;
    } else {
      var last := |s.log| - 1;
      LoggedIsRevision(codec, d0, s, last);
      var m := source.name;
      assert IsRevision(codec, d0, m) <==> m in d0.revisions;
      var i :| 0 <= i < |s.log| && m == codec.name(s.log[i].ts);
      LoggedIsRevision(codec, d0, s, i);
    }
  }

  lemma StampsStep<N(!new)>(codec: Codec<N>, d0: Directory<N>, s: System<N>, ts: nat, commit: Commit)
    requires CodecLaw(codec) && LogStored(codec, d0, s) && Readable(codec, s.log) && StampsIncrease(codec, d0, s.log)
    requires forall m :: IsRevision(codec, s.dir, m) ==> codec.stamp(m).value < ts
    requires commit.ts == ts
    ensures StampsIncrease(codec, d0, s.log + [commit])
  {
    forall i | 0 <= i < |s.log| ensures s.log[i].ts < ts {
      LoggedIsRevision(codec, d0, s, i);
    }
    forall m | IsRevision(codec, d0, m) ensures codec.stamp(m).value < ts {
      assert IsRevision(codec, s.dir, m);
    }
  }

  lemma NoLostUpdateStep<N(!new)>(codec: Codec<N>, d0: Directory<N>, log: seq<Commit>, job: Job, commit: Commit)
    requires NoLostUpdate(codec, d0, log) && ExpectedHolds(codec, d0, log, job)
    requires commit.result == job.result && commit.expected == job.expected
    ensures NoLostUpdate(codec, d0, log + [commit])
  {
    var log' := log + [commit];
    forall i | 0 <= i < |log'| && log'[i].expected.Some?
      ensures exists a :: (Current(codec, d0, log'[..i], a) && a.fingerprint == log'[i].expected.value
        && a.packageId == log'[i].result.packageId && a.configuration == log'[i].result.configuration)
    {
      assert log'[..i] == log[..i];
      if i == |log| { assert log[..i] == log; }
    }
  }

  lemma PrefixTake<T>(s: seq<T>, t: seq<T>, n: nat)
    requires s <= t && n <= |s|
    ensures t[..n] == s[..n]
  {
  }

  /** A client that does not move keeps what it relies on: another client's commit is
      excluded by the lock while it matters, and readers only rely on the past. */
  lemma OthersKeepFacts<N(!new)>(codec: Codec<N>, d0: Directory<N>, s: System<N>, c: Client, step: Step<N>,
                                 s': System<N>, other: Client)
    requires Next(codec, s, c, step, s') && Exclusive(s)
    requires other in s.pcs && other != c && ClientFacts(codec, d0, s, s.pcs[other])
    ensures ClientFacts(codec, d0, s', s'.pcs[other])
  {
    StepExtends(codec, s, c, step, s');
    var pc := s.pcs[other];
    if pc.Listed? || pc.Loaded? {
      PrefixTake(s.log, s'.log, pc.seen);
    }
  }

  lemma MoverFacts<N(!new)>(codec: Codec<N>, d0: Directory<N>, s: System<N>, c: Client, step: Step<N>, s': System<N>)
    requires CodecLaw(codec) && Next(codec, s, c, step, s')
    requires LogStored(codec, d0, s) && Readable(codec, s.log) && StampsIncrease(codec, d0, s.log)
    requires ClientFacts(codec, d0, s, s.pcs[c])
    ensures ClientFacts(codec, d0, s', s'.pcs[c])
  {
    match step
    case CheckExpected =>
      var job := s.pcs[c].job;
      if job.expected.Some? {
        var source :| IsLatest(codec, s.dir, source) && Holds(s.dir, source)
          && Read(s.dir, source).sound && Read(s.dir, source).fingerprint == job.expected.value
          && Read(s.dir, source).packageId == job.result.packageId
          && Read(s.dir, source).configuration == job.result.configuration;
        LatestIsCurrent(codec, d0, s, source);
        assert Current(codec, d0, s'.log, Read(s.dir, source));
      }
    case List(source) =>
      LatestIsCurrent(codec, d0, s, source);
      assert s.log[..|s.log|] == s.log;
    case _ =>
  }

  lemma ReadablePrefix<N>(codec: Codec<N>, log: seq<Commit>, log': seq<Commit>)
    requires log <= log' && Readable(codec, log')
    ensures Readable(codec, log)
  {
    forall i | 0 <= i < |log| ensures log[i].ts < codec.limit { assert log[i] == log'[i]; }
  }

  lemma CommitStep<N(!new)>(codec: Codec<N>, d0: Directory<N>, s: System<N>, c: Client, s': System<N>)
    requires CodecLaw(codec) && Next(codec, s, c, Rename, s')
    requires Inv(codec, d0, s) && Readable(codec, s.log)
    ensures StampsIncrease(codec, d0, s'.log) && NoLostUpdate(codec, d0, s'.log)
    ensures forall i :: 0 <= i < |s'.log| ==> s'.log[i].result.sound
  {
    var pc := s.pcs[c];
    assert ClientFacts(codec, d0, s, pc);
    var commit := Commit(pc.job.result, pc.job.expected, pc.ts);
    StampsStep(codec, d0, s, pc.ts, commit);
    NoLostUpdateStep(codec, d0, s.log, pc.job, commit);
  }

  lemma InvStep<N(!new)>(codec: Codec<N>, d0: Directory<N>, s: System<N>, c: Client, step: Step<N>, s': System<N>)
    requires CodecLaw(codec) && Inv(codec, d0, s) && Next(codec, s, c, step, s')
    ensures Inv(codec, d0, s')
  {
    ExclusiveStep(codec, s, c, step, s');
    LogStoredStep(codec, d0, s, c, step, s');
    StepExtends(codec, s, c, step, s');
    if Readable(codec, s'.log) {
      ReadablePrefix(codec, s.log, s'.log);
      if step.Rename? {
        CommitStep(codec, d0, s, c, s');
      }
      MoverFacts(codec, d0, s, c, step, s');
      forall other | other in s'.pcs ensures ClientFacts(codec, d0, s', s'.pcs[other]) {
        if other != c { OthersKeepFacts(codec, d0, s, c, step, s', other); }
      }
    }
  }

  lemma InvInitial<N(!new)>(codec: Codec<N>, s: System<N>)
    requires Initial(s)
    ensures Inv(codec, s.dir, s)
  {
  }

  // ------------------------------------------------------------------ over whole runs

  lemma {:induction false} InvAlways<N(!new)>(codec: Codec<N>, states: seq<System<N>>, events: seq<Event<N>>, i: nat)
    requires CodecLaw(codec) && IsRun(codec, states, events) && i < |states|
    ensures Inv(codec, states[0].dir, states[i])
  {
    if i == 0 {
      InvInitial(codec, states[0]);
    } else {
      InvAlways(codec, states, events, i - 1);
      var e := events[i - 1];
      InvStep(codec, states[0].dir, states[i - 1], e.client, e.step, states[i - 1 + 1]);
    }
  }

  lemma {:induction false} HistoryGrows<N(!new)>(codec: Codec<N>, states: seq<System<N>>, events: seq<Event<N>>,
                                                 i: nat, j: nat)
    requires IsRun(codec, states, events) && i <= j < |states|
    ensures states[i].log <= states[j].log && states[i].dir.base == states[j].dir.base
    ensures forall m :: m in states[i].dir.revisions ==>
      m in states[j].dir.revisions && states[j].dir.revisions[m] == states[i].dir.revisions[m]
    decreases j - i
  {
    if i < j {
      var e := events[i];
      StepExtends(codec, states[i], e.client, e.step, states[i + 1]);
      HistoryGrows(codec, states, events, i + 1, j);
    }
  }

  /** What every run promises at state j, looking back to state i. */
  ghost predicate SafeAt<N(!new)>(codec: Codec<N>, states: seq<System<N>>, i: nat, j: nat)
    requires i <= j < |states|
  {
    && StampsIncrease(codec, states[0].dir, states[j].log)
    && NoLostUpdate(codec, states[0].dir, states[j].log)
    && (forall k :: 0 <= k < |states[j].log| ==> states[j].log[k].result.sound)
    && (forall c, d :: (c in states[j].pcs && d in states[j].pcs
         && InSection(states[j].pcs[c]) && InSection(states[j].pcs[d])) ==> c == d)
    && states[i].log <= states[j].log
    && forall m :: m in states[i].dir.revisions ==>
         m in states[j].dir.revisions && states[j].dir.revisions[m] == states[i].dir.revisions[m]
  }

  /** In every interleaving whose time stamps can be read back: commits are stamped in
      strictly increasing order above everything stored before, each conditional commit
      replaced exactly the artifact it expected, and only audited results were stored.
      At most one client is ever past the lock, and no artifact ever changes. */
  lemma ReadableRunIsSafe<N(!new)>(codec: Codec<N>, states: seq<System<N>>, events: seq<Event<N>>, i: nat, j: nat)
    requires CodecLaw(codec) && IsRun(codec, states, events) && i <= j < |states|
    requires Readable(codec, states[j].log)
    ensures SafeAt(codec, states, i, j)
  {
    InvAlways(codec, states, events, j);
    HistoryGrows(codec, states, events, i, j);
  }

  // ------------------------------------------------------------- a clock that is in time

  /** Neither the time stamps stored before the run nor the clock during it exceed a bound. */
  ghost predicate InTime<N(!new)>(codec: Codec<N>, dir: Directory<N>, events: seq<Event<N>>, bound: nat)
  {
    && (forall m :: IsRevision(codec, dir, m) ==> codec.stamp(m).value <= bound)
    && forall e :: e in events && e.step.Stamp? ==> e.step.now <= bound
  }

  /** Time stamps exceed the bound by no more than the number of commits. */
  ghost predicate Bounded<N(!new)>(codec: Codec<N>, s: System<N>, bound: nat)
  {
    && (forall m :: IsRevision(codec, s.dir, m) ==> codec.stamp(m).value <= bound + |s.log|)
    && (forall c :: c in s.pcs && s.pcs[c].Stamped? ==> s.pcs[c].ts <= bound + |s.log| + 1)
    && forall k :: 0 <= k < |s.log| ==> s.log[k].ts <= bound + |s.log|
  }

  lemma BoundedStep<N(!new)>(codec: Codec<N>, s: System<N>, c: Client, step: Step<N>, s': System<N>, bound: nat)
    requires CodecLaw(codec) && Bounded(codec, s, bound) && Next(codec, s, c, step, s')
    requires step.Stamp? ==> step.now <= bound
    ensures Bounded(codec, s', bound)
  {
    if step.Rename? {
      var added := codec.name(s.pcs[c].ts);
      forall m | IsRevision(codec, s'.dir, m) ensures codec.stamp(m).value <= bound + |s'.log| {
        if m != added { assert IsRevision(codec, s.dir, m); }
      }
    }
  }

  lemma {:induction false} BoundedAlways<N(!new)>(codec: Codec<N>, states: seq<System<N>>, events: seq<Event<N>>,
                                                  bound: nat, i: nat)
    requires CodecLaw(codec) && IsRun(codec, states, events) && InTime(codec, states[0].dir, events, bound)
    requires i < |states|
    ensures Bounded(codec, states[i], bound) && |states[i].log| <= i
  {
    hide CodecLaw, Bounded, Next;
    if i == 0 {
      BoundedInitial(codec, states[0], bound);
    } else {
      BoundedAlways(codec, states, events, bound, i - 1);
      var e := events[i - 1];
      assert e in events;
      BoundedStep(codec, states[i - 1], e.client, e.step, states[i - 1 + 1], bound);
      LogStep(codec, states[i - 1], e.client, e.step, states[i - 1 + 1]);
    }
  }

  lemma BoundedInitial<N(!new)>(codec: Codec<N>, s: System<N>, bound: nat)
    requires Initial(s) && forall m :: IsRevision(codec, s.dir, m) ==> codec.stamp(m).value <= bound
    ensures Bounded(codec, s, bound)
  {
  }

  lemma LogStep<N(!new)>(codec: Codec<N>, s: System<N>, c: Client, step: Step<N>, s': System<N>)
    requires Next(codec, s, c, step, s')
    ensures |s'.log| <= |s.log| + 1
  {
  }

  /** Every interleaving is safe as long as prior time stamps and clock stay below the limit
      of the name format by more than the number of steps: nothing is asked of the outcome. */
  lemma EveryRunIsSafe<N(!new)>(codec: Codec<N>, states: seq<System<N>>, events: seq<Event<N>>, bound: nat, i: nat,
                                j: nat)
    requires CodecLaw(codec) && IsRun(codec, states, events) && i <= j < |states|
    requires InTime(codec, states[0].dir, events, bound) && bound + |events| < codec.limit
    ensures SafeAt(codec, states, i, j)
  {
    BoundedAlways(codec, states, events, bound, j);
    ReadableRunIsSafe(codec, states, events, i, j);
  }

  /** A load that lists at one moment and reads at a later one returns the last commit as
      of the listing, whatever was committed in between. */
  lemma LoadReturnsLastCommit<N(!new)>(codec: Codec<N>, states: seq<System<N>>, events: seq<Event<N>>, j: nat,
                                       c: Client)
    requires CodecLaw(codec) && IsRun(codec, states, events) && j < |states|
    requires Readable(codec, states[j].log)
    requires c in states[j].pcs && states[j].pcs[c].Loaded?
    ensures states[j].pcs[c].seen <= |states[j].log|
    ensures Current(codec, states[0].dir, states[j].log[..states[j].pcs[c].seen], states[j].pcs[c].artifact)
  {
    InvAlways(codec, states, events, j);
  }

  lemma {:induction false} SectionFacts<N(!new)>(codec: Codec<N>, states: seq<System<N>>, events: seq<Event<N>>,
                                                 i: nat, c: Client)
    requires IsRun(codec, states, events) && i < |states|
    requires c in states[i].pcs && states[i].pcs[c].Stamped?
    ensures forall m :: IsRevision(codec, states[i].dir, m) ==> codec.stamp(m).value < states[i].pcs[c].ts
  {
    var e := events[i - 1];
    var s, s' := states[i - 1], states[i - 1 + 1];
    assert Next(codec, s, e.client, e.step, s');
    ExclusiveAlways(codec, states, events, i - 1);
    if e.client != c {
      assert s.pcs[c] == s'.pcs[c];
      SectionFacts(codec, states, events, i - 1, c);
    }
  }

  lemma {:induction false} ExclusiveAlways<N(!new)>(codec: Codec<N>, states: seq<System<N>>, events: seq<Event<N>>,
                                                    i: nat)
    requires IsRun(codec, states, events) && i < |states|
    ensures Exclusive(states[i])
  {
    if i > 0 {
      ExclusiveAlways(codec, states, events, i - 1);
      var e := events[i - 1];
      ExclusiveStep(codec, states[i - 1], e.client, e.step, states[i - 1 + 1]);
    }
  }

  /** The exact boundary of the store's promise: readers see a revision once it is
      committed if and only if its time stamp is below the limit of the name format. */
  lemma CommitVisibleIff<N(!new)>(codec: Codec<N>, states: seq<System<N>>, events: seq<Event<N>>, i: nat)
    requires CodecLaw(codec) && IsRun(codec, states, events) && i < |events| && events[i].step.Rename?
    ensures events[i].client in states[i].pcs && states[i].pcs[events[i].client].Stamped?
    ensures var ts := states[i].pcs[events[i].client].ts;
      IsLatest(codec, states[i + 1].dir, RevisionSource(codec.name(ts))) <==> ts < codec.limit
  {
    var c := events[i].client;
    assert Next(codec, states[i], c, events[i].step, states[i + 1]);
    SectionFacts(codec, states, events, i, c);
    var ts := states[i].pcs[c].ts;
    var dir, dir' := states[i].dir, states[i + 1].dir;
    if ts < codec.limit {
      forall m | IsRevision(codec, dir', m) ensures codec.stamp(m).value <= ts {
        if m != codec.name(ts) { assert IsRevision(codec, dir, m); }
      }
    }
  }

  /** What a commit changes for the next conditional append: below the limit the new artifact
      is the one to be expected, at or above it everything is compared as before. */
  lemma CommitReplacesIff<N(!new)>(codec: Codec<N>, s: System<N>, c: Client, s': System<N>, job: Job)
    requires CodecLaw(codec) && Next(codec, s, c, Rename, s') && job.expected.Some?
    requires forall m :: IsRevision(codec, s.dir, m) ==> codec.stamp(m).value < s.pcs[c].ts
    ensures var done := s.pcs[c].job.result;
      Matches(codec, s'.dir, job) <==>
        if s.pcs[c].ts < codec.limit then
          && done.sound && done.fingerprint == job.expected.value
          && done.packageId == job.result.packageId && done.configuration == job.result.configuration
        else Matches(codec, s.dir, job)
  {
    var ts := s.pcs[c].ts;
    var added := codec.name(ts);
    forall m
      ensures IsRevision(codec, s'.dir, m) <==> IsRevision(codec, s.dir, m) || (m == added && ts < codec.limit)
    { }
    if ts < codec.limit {
      var source := RevisionSource(added);
      assert IsLatest(codec, s'.dir, source) && Holds(s'.dir, source);
      assert IsRevision(codec, s'.dir, added);
      forall other | IsLatest(codec, s'.dir, other) ensures other == source { }
    } else {
      forall source ensures IsLatest(codec, s'.dir, source) <==> IsLatest(codec, s.dir, source) { }
      forall source | IsLatest(codec, s.dir, source)
        ensures Holds(s.dir, source) && Holds(s'.dir, source) && Read(s'.dir, source) == Read(s.dir, source)
      { }
    }
  }

  // ------------------------------------------------------------- an update that is lost

  lemma RunSnoc<N(!new)>(codec: Codec<N>, states: seq<System<N>>, events: seq<Event<N>>, e: Event<N>, s: System<N>)
    requires IsRun(codec, states, events) && Next(codec, states[|events|], e.client, e.step, s)
    ensures IsRun(codec, states + [s], events + [e])
  {
    hide Next;
    var more, all := states + [s], events + [e];
    forall i | 0 <= i < |all| ensures Next(codec, more[i], all[i].client, all[i].step, more[i + 1]) {
      if i < |events| { assert more[i] == states[i] && more[i + 1] == states[i + 1] && all[i] == events[i]; }
    }
  }

  /** An idle client can append on its own. */
  lemma AppendAlone<N(!new)>(codec: Codec<N>, states: seq<System<N>>, events: seq<Event<N>>, c: Client, job: Job,
                             now: int, ts: nat)
    returns (longer: seq<System<N>>, more: seq<Event<N>>)
    requires IsRun(codec, states, events) && |states| == |events| + 1
    requires var s := states[|events|];
      && c in s.pcs && s.pcs[c].Idle? && s.lock == None && Matches(codec, s.dir, job) && job.result.sound
      && NextStamp(codec, s.dir, now, ts) && codec.name(ts) !in s.dir.revisions
    ensures IsRun(codec, longer, more) && states <= longer && |longer| == |more| + 1
    ensures longer[|more|] == states[|events|].(
      dir := states[|events|].dir.(revisions := states[|events|].dir.revisions[codec.name(ts) := job.result]),
      log := states[|events|].log + [Commit(job.result, job.expected, ts)])
  {
    hide NextStamp, Matches, IsRun;
    var s := states[|events|];
    var a := Moved(s, c, Waiting(job));
    var b := Moved(a, c, Entered(job)).(lock := Some(c));
    var d := Moved(b, c, Checked(job));
    var e := Moved(d, c, Stamped(job, ts));
    var f := Moved(e, c, Committed).(
      dir := s.dir.(revisions := s.dir.revisions[codec.name(ts) := job.result]),
      log := s.log + [Commit(job.result, job.expected, ts)]);
    var g := Left(f, c);
    assert g.pcs == s.pcs;
    longer, more := states, events;
    longer, more := Extend(codec, longer, more, c, Begin(job), a);
    longer, more := Extend(codec, longer, more, c, Acquire, b);
    longer, more := Extend(codec, longer, more, c, CheckExpected, d);
    longer, more := Extend(codec, longer, more, c, Stamp(now, ts), e);
    longer, more := Extend(codec, longer, more, c, Rename, f);
    longer, more := Extend(codec, longer, more, c, Release, g);
  }

  lemma Extend<N(!new)>(codec: Codec<N>, states: seq<System<N>>, events: seq<Event<N>>, c: Client, step: Step<N>,
                        s: System<N>)
    returns (longer: seq<System<N>>, more: seq<Event<N>>)
    requires IsRun(codec, states, events) && |states| == |events| + 1 && Next(codec, states[|events|], c, step, s)
    ensures IsRun(codec, longer, more) && |longer| == |more| + 1 && longer[|more|] == s && states <= longer
  {
    longer, more := states + [s], events + [Event(c, step)];
    RunSnoc(codec, states, events, Event(c, step), s);
  }

  const BASE := Artifact(0, 0, 1, 0, true)
  const FIRST := Artifact(0, 0, 2, 0, true)
  const SECOND := Artifact(0, 0, 3, 0, true)

  /** Beyond the bound the promise fails: once the clock has reached the limit, two appends
      that both expect the base artifact succeed one after the other. */
  lemma LostUpdate<N(!new)>(codec: Codec<N>) returns (states: seq<System<N>>, events: seq<Event<N>>)
    requires CodecLaw(codec) && codec.limit >= 1 && codec.name(codec.limit) != codec.name(codec.limit + 1)
    ensures IsRun(codec, states, events) && states[0].dir == Directory(BASE, map[])
    ensures states[|events|].log == [Commit(FIRST, Some(1), codec.limit), Commit(SECOND, Some(1), codec.limit + 1)]
    ensures !NoLostUpdate(codec, states[0].dir, states[|events|].log)
  {
    var first, second := Job(FIRST, Some(1)), Job(SECOND, Some(1));
    var none: map<N, Artifact> := map[];
    var s := System(Directory(BASE, none), None, map[1 := Idle], []);
    states, events := [s], [];
    assert IsLatest(codec, s.dir, BaseSource);
    states, events := AppendAlone(codec, states, events, 1, first, codec.limit, codec.limit);
    var t := states[|events|];
    assert forall m :: !IsRevision(codec, t.dir, m);
    assert IsLatest(codec, t.dir, BaseSource);
    states, events := AppendAlone(codec, states, events, 1, second, codec.limit + 1, codec.limit + 1);
    var log := states[|events|].log;
    assert log[..1] == [Commit(FIRST, Some(1), codec.limit)];
    assert log[1].expected == Some(1);
  }
}
