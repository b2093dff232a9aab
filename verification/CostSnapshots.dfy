/** Taking a report of a live tracker. */
module CostSnapshots {
  import opened CostSums
  import opened CostTracker
  import opened CostRuns
  import opened CostDrift
  import opened CostReports
  import opened MergeProofs
  import opened TrackerReports
  import opened DriftReports
  import opened CostLedger

  function Seconds(nanoseconds: int): real { nanoseconds as real / 1_000_000_000.0 }

  /** The figures of a live tracker, settled by its history: no retraction landed
      within the snap, or its drift is small against its costs. */
  ghost predicate Settled(t: Tracker)
    requires t.Valid()
    reads t
  {
    || GentleRun(Empty, t.options, t.history)
    || Comfortable(t.Now(), Retracted(Empty, t.options, t.history))
  }

  /** A snapshot that validates in its counts exactly when its rows fit, and in its
      costs exactly when the drift that the tracker's retractions left is
      harmless; settled figures always are. */
  method TakeReport(t: Tracker) returns (r: Report)
    requires t.Valid() && t.options.maxNameBytes <= 4096
    ensures r == ReportFor(t.Now(), Seconds(t.wallTime)) && r.wallTime * 1_000_000_000.0 == t.wallTime as real
    ensures forall maximum :: CountsValid(r, maximum) <==> |t.models.Keys| + |t.purposes.Keys| <= maximum
    ensures forall maximum :: ValidReport(r, maximum) <==>
              |t.models.Keys| + |t.purposes.Keys| <= maximum && Harmless(t.options, t.history)
    ensures Settled(t) ==> Harmless(t.options, t.history)
  {
    var seconds := Seconds(t.wallTime);
    forall maximum: nat
      ensures CountsValid(ReportFor(t.Now(), seconds), maximum) <==> |t.models.Keys| + |t.purposes.Keys| <= maximum
      ensures ValidReport(ReportFor(t.Now(), seconds), maximum) <==>
                |t.models.Keys| + |t.purposes.Keys| <= maximum && Harmless(t.options, t.history)
    {
      CountsOf(t, seconds, maximum);
      ReachableReportValid(t.options, t.history, seconds, maximum);
    }
    if Settled(t) {
      SettledIsHarmless(t, seconds);
    }
    r := Listing(AccOfBooks(Books(t.total, t.cacheRead, t.cacheWrite, t.models, t.purposes), seconds));
  }

  lemma CountsOf(t: Tracker, seconds: real, maximum: nat)
    requires t.Valid() && t.options.maxNameBytes <= 4096
    ensures CountsValid(ReportFor(t.Now(), seconds), maximum) <==> |t.models.Keys| + |t.purposes.Keys| <= maximum
  {
    t.Invariant();
    ReachableReportCounts(t.Now(), t.options, Retracted(Empty, t.options, t.history), seconds, maximum);
  }

  lemma SettledIsHarmless(t: Tracker, seconds: real)
    requires t.Valid() && Settled(t) && t.options.maxNameBytes <= 4096 && seconds >= 0.0
    ensures Harmless(t.options, t.history)
  {
    HarmlessExactly(t.options, t.history, seconds);
    if GentleRun(Empty, t.options, t.history) {
      GentleReportValid(t.options, t.history, seconds, |t.models.Keys| + |t.purposes.Keys|);
    } else {
      t.Invariant();
      ComfortableIsValid(t.Now(), t.options, Retracted(Empty, t.options, t.history), seconds);
    }
  }
}
