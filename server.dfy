/**
 * The process around the handler: the startup check that both documents exist,
 * and the handler object that holds the two stored documents and processes one
 * telemetry message at a time.
 */
module Server {
  import opened Wrappers
  import opened Documents
  import opened Telemetry

  /** A required document missing at startup. */
  datatype SchemaError = NoCurrentDocument | NoTotalDocument

  /**
   * The startup check on the fetched documents ("current" first, then "total"):
   * the process goes on only when both exist.
   */
  function CheckSchema(current: Option<Document>, total: Option<Document>): (r: Result<(Document, Document), SchemaError>)
    ensures r.Success? <==> current.Some? && total.Some?
    ensures r.Success? ==> r.value == (current.value, total.value)
    ensures r == Failure(NoCurrentDocument) <==> current.None?
    ensures r == Failure(NoTotalDocument) <==> current.Some? && total.None?
  {
    if current.None? then Failure(NoCurrentDocument)
    else if total.None? then Failure(NoTotalDocument)
    else Success((current.value, total.value))
  }

  /** The handler with the "current" and "total" documents it reads and updates. */
  class TelemetryHandler {
    var current: Document
    var total: Document

    constructor (current: Document, total: Document)
      ensures this.current == current && this.total == total
    {
      this.current := current;
      this.total := total;
    }

    /**
     * One telemetry message, step by step as the handler runs it. The new
     * documents and the outcome are exactly those `Handle` describes.
     */
    method OnMessage(payload: string, now: int) returns (outcome: Outcome)
      modifies this
      ensures Effect(current, total, outcome) == Handle(old(current), old(total), payload, now)
    {
      // The fetched snapshot with `updated_at` popped, and the fetched totals.
      var currentParameters := current - {UPDATED_AT};
      var totalParameters := total;

      var decoded := Decode(payload);
      if decoded.Failure? {
        return DecodeFailed(decoded.error);
      }
      var p := decoded.value;
      var parameters := p.ToDocument();
      if DictEq(currentParameters, parameters) {
        return Unchanged;
      }
      parameters := parameters[UPDATED_AT := TimeV(now)];
      current := Update(current, parameters);

      var tempTotal := totalParameters;
      var fired := SelectHazard(p);
      if fired.Some? {
        var key := fired.value.CounterKey();
        if key !in tempTotal {
          return CountFailed(NoSuchCounter(key));
        }
        var incremented := Increment(tempTotal[key]);
        if incremented.None? {
          return CountFailed(NotANumber(key, tempTotal[key]));
        }
        DictEqAfterChange(tempTotal, key, incremented.value);
        IncrementChanges(tempTotal[key]);
        tempTotal := tempTotal[key := incremented.value];
      } else {
        DictEqReflexive(tempTotal);
      }
      if !DictEq(totalParameters, tempTotal) {
        tempTotal := tempTotal[UPDATED_AT := TimeV(now)];
        UpdateCovering(total, tempTotal);
        total := Update(total, tempTotal);
      }
      outcome := Recorded(fired);
    }
  }
}
