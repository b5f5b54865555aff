/**
 The replication-lag monitor: one sample per tick, and the value it leaves for
 Statement to compare with the configured limit.
 */
module ReplicaLag {

  const MAX_INT64: int := 0x7fff_ffff_ffff_ffff
  const MIN_INT64: int := -0x8000_0000_0000_0000
  type Millis = x: int | MIN_INT64 <= x <= MAX_INT64

  /** One answer of pg_stat_replication: streaming replicas and their worst lag, or an error. */
  datatype Sample = Row(count: nat, lag: Millis) | QueryError | MissingRelation

  /** The limit in force: an unset or negative setting means one second. */
  function Limit(configured: Millis): Millis {
    if configured <= 0 then 1000 else configured
  }

  /** replicaLagMs after these samples; a missing relation ends the monitor and stores nothing. */
  function Stored(samples: seq<Sample>): Millis {
    if samples == [] then MAX_INT64
    else
      var before := samples[..|samples| - 1];
      if MissingRelation in before then Stored(before)
      else match samples[|samples| - 1]
        case Row(count, lag) => if count == 0 then MAX_INT64 else lag
        case QueryError => MAX_INT64
        case MissingRelation => Stored(before)
  }

  /** One more sample. */
  lemma StoredStep(samples: seq<Sample>, s: Sample)
    ensures Stored(samples + [s]) ==
            if MissingRelation in samples || s.MissingRelation? then Stored(samples)
            else if s.Row? && s.count > 0 then s.lag else MAX_INT64
    ensures MissingRelation in samples + [s] <==> MissingRelation in samples || s.MissingRelation?
  {
    assert (samples + [s])[..|samples|] == samples;
  }

  /** A streaming replica within the limit. */
  predicate Within(s: Sample, limit: Millis) {
    s.Row? && s.count >= 1 && s.lag <= limit
  }

  /** Sample i is the last one that stored a value. */
  predicate StoresLast(samples: seq<Sample>, i: nat) {
    && i < |samples| && MissingRelation !in samples[..i + 1]
    && (i + 1 == |samples| || samples[i + 1].MissingRelation?)
  }

  /** The last value stored by the monitor came from a replica within the limit. */
  ghost predicate CaughtUp(samples: seq<Sample>, limit: Millis) {
    exists i: nat | StoresLast(samples, i) :: Within(samples[i], limit)
  }

  /** One more sample changes the last storing one only while the monitor runs. */
  lemma StoresLastStep(samples: seq<Sample>, s: Sample, i: nat)
    ensures StoresLast(samples + [s], i) <==>
              if MissingRelation in samples || s.MissingRelation? then StoresLast(samples, i) else i == |samples|
  {
    var more := samples + [s];
    if i < |samples| {
      assert more[..i + 1] == samples[..i + 1];
    } else if i == |samples| {
      assert more[..i + 1] == more;
    }
    if MissingRelation in samples && i + 1 == |samples| {
      assert samples[..i + 1] == samples;
    }
    if MissingRelation !in samples && i + 1 < |samples| {
      assert samples[i + 1] in samples;
    }
  }

  /**
   Below the limit means caught up, for every history of samples and every limit under
   MaxInt64: the last sample before the monitor stopped, if it did, was a row with at
   least one streaming replica and a lag within the limit.
   */
  lemma {:induction false} StoredMeansCaughtUp(samples: seq<Sample>, limit: Millis)
    requires limit < 0x7fff_ffff_ffff_ffff
    ensures Stored(samples) <= limit <==> CaughtUp(samples, limit)
    ensures Stored(samples) <= limit <==>
            exists i | 0 <= i < |samples| ::
              && samples[i].Row? && samples[i].count >= 1 && samples[i].lag <= limit
              && MissingRelation !in samples[..i + 1]
              && (i + 1 == |samples| || samples[i + 1] == MissingRelation)
  {
    if samples != [] {
      var before, s := samples[..|samples| - 1], samples[|samples| - 1];
      assert samples == before + [s];
      StoredMeansCaughtUp(before, limit);
      forall i: nat
        ensures StoresLast(samples, i) <==>
                  if MissingRelation in before || s.MissingRelation? then StoresLast(before, i) else i == |before|
      {
        StoresLastStep(before, s, i);
      }
      if MissingRelation in before || s.MissingRelation? {
        assert forall i: nat | StoresLast(before, i) :: samples[i] == before[i];
      } else {
        assert StoresLast(samples, |before|);
      }
    }
    if i :| 0 <= i < |samples| && samples[i].Row? && samples[i].count >= 1 && samples[i].lag <= limit
            && MissingRelation !in samples[..i + 1] && (i + 1 == |samples| || samples[i + 1] == MissingRelation) {
      assert StoresLast(samples, i);
    }
  }

  /** The guarantee holds exactly for limits under MaxInt64: at MaxInt64 nothing is ever too old. */
  lemma LimitMustBeFinite(limit: Millis)
    ensures (forall samples: seq<Sample> :: Stored(samples) <= limit <==> CaughtUp(samples, limit)) <==>
            limit < MAX_INT64
  {
    if limit < MAX_INT64 {
      forall samples: seq<Sample> ensures Stored(samples) <= limit <==> CaughtUp(samples, limit) {
        StoredMeansCaughtUp(samples, limit);
      }
    } else {
      assert Stored([]) <= limit && !CaughtUp([], limit);
    }
  }
}
