/**
  The scoring step of the main flow (main.py:119-120): every merged record, in
  order, receives its confidence.
 */
module Pipeline {
  import opened Records
  import opened Scoring

  /** A merged record with the `confidence` the main flow attaches to it. */
  datatype ScoredRecord = ScoredRecord(company: Record, confidence: real)

  /**
    Scores the merged records one by one. The first record whose scoring raises
    aborts the loop; with no records nothing is scored, so nothing can raise.
   */
  method AttachConfidence(merged: seq<Record>, icp: Icp) returns (result: Result<seq<ScoredRecord>>)
    ensures result.Err? <==> merged != [] && TechMatch(icp).Err?
    ensures result.Err? ==> result.error == TechMatch(icp).error
    ensures result.Ok? ==> |result.value| == |merged|
    ensures result.Ok? ==> forall i :: 0 <= i < |merged| ==>
      result.value[i].company == merged[i] && Confidence(merged[i], icp) == Ok(result.value[i].confidence)
    ensures result.Ok? ==> forall i :: 0 <= i < |merged| ==> 0.0 <= result.value[i].confidence <= 1.0
  {
    var scored: seq<ScoredRecord> := [];
    for i := 0 to |merged|
      invariant |scored| == i
      invariant i > 0 ==> TechMatch(icp).Ok?
      invariant forall k :: 0 <= k < i ==>
        scored[k].company == merged[k] && Confidence(merged[k], icp) == Ok(scored[k].confidence)
    {
      var c := Confidence(merged[i], icp);
      if c.Err? {
        return Err(c.error);
      }
      scored := scored + [ScoredRecord(merged[i], c.value)];
    }
    result := Ok(scored);
  }
}
