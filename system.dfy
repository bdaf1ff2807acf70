/** The health part of the system-status models (`Models/System.swift`). */
module SystemModels {
  import opened Wrappers
  import opened Text

  /** One health check's result as the server reports it. */
  datatype HealthStatus = HealthStatus(status: string, message: Option<string>)

  /** `isHealthy`: the status, lower-cased, is "ok", "running" or
      "healthy". */
  predicate IsHealthy(h: HealthStatus) {
    var s := Lower(h.status);
    s == "ok" || s == "running" || s == "healthy"
  }

  /** `statusColor`. */
  function StatusColor(h: HealthStatus): (c: string)
    ensures c == "green" || c == "red"
    ensures c == "green" <==> IsHealthy(h)
  {
    if IsHealthy(h) then "green" else "red"
  }

  /** Lower-casing twice is lower-casing once. */
  lemma LowerIdempotent(s: string)
    ensures Lower(Lower(s)) == Lower(s)
  {
    var l := Lower(s);
    forall i | 0 <= i < |s|
      ensures Lower(l)[i] == l[i]
    {
    }
  }

  /** The check ignores case: statuses that agree once lower-cased are
      judged alike, and every status is judged like its lower-case form. */
  lemma HealthIgnoresCase(h: HealthStatus, k: HealthStatus)
    ensures Lower(h.status) == Lower(k.status) ==> (IsHealthy(h) <==> IsHealthy(k))
    ensures IsHealthy(h) <==> IsHealthy(h.(status := Lower(h.status)))
    ensures IsHealthy(h) ==> |h.status| == 2 || |h.status| == 7
  {
    LowerIdempotent(h.status);
  }

  /** Upper-case spellings count: "OK" and "Running" are healthy. */
  lemma MixedCaseHealthy()
    ensures IsHealthy(HealthStatus("OK", None))
    ensures IsHealthy(HealthStatus("Running", None))
  {
    assert Lower("OK") == "ok";
    assert Lower("Running") == "running";
  }

  /** Of the statuses the server reports, "ok" and "running" show green and
      "stopped", "unknown" and "error" show red. */
  lemma ServerStatusesClassified(m: Option<string>)
    ensures StatusColor(HealthStatus("ok", m)) == "green"
    ensures StatusColor(HealthStatus("running", m)) == "green"
    ensures StatusColor(HealthStatus("stopped", m)) == "red"
    ensures StatusColor(HealthStatus("unknown", m)) == "red"
    ensures StatusColor(HealthStatus("error", m)) == "red"
  {
    assert Lower("ok") == "ok";
    assert Lower("running") == "running";
    assert Lower("stopped") == "stopped";
    assert Lower("unknown") == "unknown";
    assert Lower("error") == "error";
  }
}
