/** Time stamps and the names of revision directories, said in numbers and characters. */
module StampsAndNames {
  import opened DecimalDigits
  import opened Ordering
  import opened RevisionStore
  import AuditStore
  import RevisionNames

  ghost predicate Usable<N(!new)>(codec: Codec<N>, dir: Directory<N>, now: int, ts: int)
  {
    ts >= now && ts >= 1 && forall m :: m in dir.revisions && codec.stamp(m).Some? ==> codec.stamp(m).value < ts
  }

  /** The stamp of the next revision is the least positive number that the clock has
      reached and that is above all stamps read back from the directory. */
  lemma NextStampIff<N(!new)>(codec: Codec<N>, dir: Directory<N>, now: int, ts: nat)
    ensures NextStamp(codec, dir, now, ts) <==>
      Usable(codec, dir, now, ts) && forall other: int :: Usable(codec, dir, now, other) ==> ts <= other
  {
    if Usable(codec, dir, now, ts) && forall other: int :: Usable(codec, dir, now, other) ==> ts <= other {
      assert !Usable(codec, dir, now, ts - 1);
    }
  }

  /** An append that expects a fingerprint goes ahead if and only if the newest artifact is
      sound, has this fingerprint, and belongs to the same package and configuration. */
  lemma FitIff(dir: Directory<string>, job: Job, source: Source<string>)
    requires IsLatest(AuditStore.NAMES, dir, source) && Holds(dir, source) && job.expected.Some?
    ensures var current := if source.BaseSource? then dir.base else dir.revisions[source.name];
      && (AuditStore.Unfit(current, job) <==>
            || !current.sound || current.packageId != job.result.packageId
            || current.configuration != job.result.configuration)
      && (current.fingerprint == job.expected.value && !AuditStore.Unfit(current, job) ==>
            Matches(AuditStore.NAMES, dir, job))
  {
  }

  /** The digits of a name from position i up to position j. */
  ghost predicate DigitsBetween(name: string, i: nat, j: nat)
  {
    j <= |name| && forall k :: i <= k < j ==> '0' <= name[k] <= '9'
  }

  ghost predicate OldName(name: string, j: nat)
  {
    && 9 < j <= |name| && name[..9] == "revision-" && DigitsBetween(name, 9, j)
    && (j < |name| ==> name[j] == '-')
  }

  lemma {:induction false} RunEnds(name: string, i: nat)
    requires i <= |name|
    ensures DigitsBetween(name, i, DigitsEnd(name, i)) && i <= DigitsEnd(name, i)
    ensures DigitsEnd(name, i) < |name| ==> !('0' <= name[DigitsEnd(name, i)] <= '9')
    decreases |name| - i
  {
    if i < |name| && IsDigit(name[i]) { RunEnds(name, i + 1); }
  }

  /** A directory name has a time stamp if and only if it is "r-" and nineteen digits, or
      "revision-" and digits up to its end or a hyphen; the stamp is the number they form. */
  lemma TimestampIff(name: string)
    ensures RevisionNames.Timestamp(name).Some? <==>
      || (|name| == 21 && name[..2] == "r-" && DigitsBetween(name, 2, 21))
      || exists j: nat :: OldName(name, j)
    ensures |name| == 21 && name[..2] == "r-" && DigitsBetween(name, 2, 21) ==>
      AllDigits(name[2..]) && RevisionNames.Timestamp(name) == Some(Number(name[2..]))
    ensures forall j: nat :: OldName(name, j) ==>
      AllDigits(name[9..j]) && RevisionNames.Timestamp(name) == Some(Number(name[9..j]))
  {
    if |name| == 21 && name[..2] == "r-" {
      assert AllDigits(name[2..]) <==> DigitsBetween(name, 2, 21) by {
        assert forall k :: 2 <= k < 21 ==> name[k] == name[2..][k - 2];
      }
      assert name[..9] != "revision-" by {
        assert name[..9][1] == name[..2][1] && "revision-"[1] == 'e';
      }
    } else if |name| >= 9 && name[..9] == "revision-" {
      RunEnds(name, 9);
      var end := DigitsEnd(name, 9);
      forall j: nat | OldName(name, j) ensures j == end {
        assert j < |name| ==> name[j] == '-';
      }
      if end > 9 && (end == |name| || name[end] == '-') { assert OldName(name, end); }
    }
  }
}
