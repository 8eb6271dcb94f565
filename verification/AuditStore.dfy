/**
 The file-backed audit store as a caller sees it: one append runs the whole critical
 section, one load lists the directory and reads the newest artifact.
 */
module AuditStore {
  import opened Ordering
  import opened RevisionStore
  import RevisionNames

  const NAMES: Codec<string> := Codec(RevisionNames.RevisionName, RevisionNames.Timestamp, RevisionNames.LIMIT)

  /** The names this store uses keep the law the interleaving theorems need, with nineteen
      digits as the limit. */
  lemma NamesKeepLaw()
    ensures CodecLaw(NAMES) && NAMES.limit == 10_000_000_000_000_000_000
  {
    forall n: nat ensures NAMES.stamp(NAMES.name(n)) == if n < NAMES.limit then Some(n) else None {
      RevisionNames.NameRoundTrip(n);
    }
  }

  /** So a store whose clock has reached 10^19 can lose an update. */
  lemma LostUpdateAtTheLimit() returns (states: seq<System<string>>, events: seq<Event<string>>)
    ensures IsRun(NAMES, states, events) && states[0].dir == Directory(BASE, map[])
    ensures states[|events|].log == [Commit(FIRST, Some(1), NAMES.limit), Commit(SECOND, Some(1), NAMES.limit + 1)]
    ensures !NoLostUpdate(NAMES, states[0].dir, states[|events|].log)
  {
    NamesKeepLaw();
    RevisionNames.NamesDiffer(NAMES.limit, NAMES.limit + 1);
    states, events := LostUpdate(NAMES);
  }

  datatype Outcome = Appended(ts: nat) | Conflict | Rejected

  /** The current artifact fails its own checks or belongs to other inputs. */
  predicate Unfit(current: Artifact, job: Job)
  {
    !current.sound || current.packageId != job.result.packageId || current.configuration != job.result.configuration
  }

  class JsonAuditStore {
    var dir: Directory<string>

    constructor (base: Artifact)
      ensures dir == Directory(base, map[])
    {
      dir := Directory(base, map[]);
    }

    /** _latest_artifact_source */
    method LatestSource() returns (source: Source<string>)
      ensures IsLatest(NAMES, dir, source) && Holds(dir, source)
    {
      source := BaseSource;
      var rest := dir.revisions.Keys;
      while rest != {}
        invariant rest <= dir.revisions.Keys
        invariant source.BaseSource? ==> forall m :: IsRevision(NAMES, dir, m) ==> m in rest
        invariant source.RevisionSource? ==> IsRevision(NAMES, dir, source.name)
        invariant source.RevisionSource? ==> forall m :: IsRevision(NAMES, dir, m) ==>
          m in rest || NAMES.stamp(m).value <= NAMES.stamp(source.name).value
        decreases rest
      {
        var m :| m in rest;
        rest := rest - {m};
        var t := NAMES.stamp(m);
        if t.Some? && (source.BaseSource? || NAMES.stamp(source.name).value < t.value) {
          source := RevisionSource(m);
        }
      }
    }

    /** load: the newest artifact, or an error when it does not pass its own checks. */
    method Load() returns (result: Option<Artifact>)
      ensures exists source :: (IsLatest(NAMES, dir, source) && Holds(dir, source)
        && result == if Read(dir, source).sound then Some(Read(dir, source)) else None)
    {
      var source := LatestSource();
      var a := Read(dir, source);
      result := if a.sound then Some(a) else None;
    }

    /** max(now, max(prior, default=0) + 1) */
    method ChooseStamp(now: int) returns (ts: nat)
      ensures NextStamp(NAMES, dir, now, ts)
    {
      var latest := LatestSource();
      var prior := if latest.RevisionSource? then NAMES.stamp(latest.name).value else 0;
      ts := if now > prior + 1 then now else prior + 1;
    }

    /** append_revision: nothing is written unless the whole section succeeds. */
    method AppendRevision(job: Job, now: int) returns (outcome: Outcome)
      modifies this
      ensures outcome.Appended? ==>
        && Matches(NAMES, old(dir), job) && job.result.sound && NextStamp(NAMES, old(dir), now, outcome.ts)
        && NAMES.name(outcome.ts) !in old(dir).revisions
        && dir == old(dir).(revisions := old(dir).revisions[NAMES.name(outcome.ts) := job.result])
      ensures !outcome.Appended? ==> dir == old(dir)
      ensures outcome.Conflict? ==> exists source :: (IsLatest(NAMES, dir, source) && Holds(dir, source)
        && job.expected.Some? && Read(dir, source).sound && Read(dir, source).fingerprint != job.expected.value)
      ensures outcome.Rejected? ==>
        || !job.result.sound
        || (job.expected.Some? && exists source ::
              IsLatest(NAMES, dir, source) && Holds(dir, source) && Unfit(Read(dir, source), job))
        || (exists ts :: NextStamp(NAMES, dir, now, ts) && NAMES.name(ts) in dir.revisions)
    {
      if job.expected.Some? {
        var source := LatestSource();
        var current := Read(dir, source);
        if !current.sound { return Rejected; }
        if current.fingerprint != job.expected.value { return Conflict; }
        if Unfit(current, job) { return Rejected; }
      }
      if !job.result.sound { return Rejected; }
      var ts := ChooseStamp(now);
      var name := NAMES.name(ts);
      if name in dir.revisions { return Rejected; }
      dir := dir.(revisions := dir.revisions[name := job.result]);
      outcome := Appended(ts);
    }
  }

  /** A successful append is the five steps of the protocol, so every theorem about runs
      covers callers of the class. */
  lemma AppendIsFiveSteps(s: System<string>, c: Client, job: Job, now: int, ts: nat)
    returns (a: System<string>, b: System<string>, d: System<string>, e: System<string>, f: System<string>)
    requires c in s.pcs && s.pcs[c] == Waiting(job) && s.lock == None
    requires Matches(NAMES, s.dir, job) && job.result.sound && NextStamp(NAMES, s.dir, now, ts)
    requires NAMES.name(ts) !in s.dir.revisions
    ensures Next(NAMES, s, c, Acquire, a) && Next(NAMES, a, c, CheckExpected, b)
    ensures Next(NAMES, b, c, Stamp(now, ts), d) && Next(NAMES, d, c, Rename, e) && Next(NAMES, e, c, Release, f)
    ensures f.dir == s.dir.(revisions := s.dir.revisions[NAMES.name(ts) := job.result])
    ensures f.log == s.log + [Commit(job.result, job.expected, ts)] && f.lock == None && f.pcs == s.pcs[c := Idle]
  {
    a := Moved(s, c, Entered(job)).(lock := Some(c));
    b := Moved(a, c, Checked(job));
    d := Moved(b, c, Stamped(job, ts));
    e := Moved(d, c, Committed).(
      dir := s.dir.(revisions := s.dir.revisions[NAMES.name(ts) := job.result]),
      log := s.log + [Commit(job.result, job.expected, ts)]);
    f := Left(e, c);
  }
}
