/**
 * Health probing: `check_health` (healthbot.py:30-36), the alerting job
 * `health_check` (healthbot.py:39-48) and the composite `status_report`
 * (healthbot.py:51-62), over an abstract probe outcome instead of real HTTP.
 * The loops themselves are methods of the bot (HealthBot.Bot); the
 * functions here are what those loops are proved to compute.
 */
module Probes {
  import opened Messages
  import opened DomainSet

  /** What `requests.get(domain, timeout=5)` did: answered with a status code, or raised. */
  datatype Probe = Responded(statusCode: int) | TransportError(detail: string)

  /**
   * The tuple `check_health` returns: `(domain, status == 200)` when the
   * request completed, `(domain, False, str(e))` when it raised.
   */
  datatype CheckResult = Checked(domain: string, ok: bool) | Unreachable(domain: string, detail: string)

  /** `result[1]`: the second element of the tuple, the one both jobs test. */
  function Second(r: CheckResult): bool
  {
    match r
    case Checked(_, ok) => ok
    case Unreachable(_, _) => false
  }

  /** `check_health(domain)` given the outcome of its request. */
  function CheckHealth(domain: string, p: Probe): (r: CheckResult)
    ensures r.domain == domain
    ensures Second(r) <==> p == Responded(200)
    ensures r.Unreachable? <==> p.TransportError?
    ensures r.Unreachable? ==> r.detail == p.detail
  {
    match p
    case Responded(code) => Checked(domain, code == 200)
    case TransportError(e) => Unreachable(domain, e)
  }

  function Result(d: string, probe: string -> Probe): CheckResult
  {
    CheckHealth(d, probe(d))
  }

  predicate Fails(d: string, probe: string -> Probe)
  {
    !Second(Result(d, probe))
  }

  /** The alert `health_check` sends for a failing result (healthbot.py:45-48). */
  function Alert(r: CheckResult): Message
    requires !Second(r)
  {
    match r
    case Unreachable(d, e) => ConnectionFailed(d, e)
    case Checked(d, ok) => StatusFailed(d, ok)
  }

  function Notice(d: string, probe: string -> Probe): Message
    requires Fails(d, probe)
  {
    Alert(Result(d, probe))
  }

  /** The messages one run of `health_check` sends over `ds`, in iteration order. */
  function HealthAlerts(ds: seq<string>, probe: string -> Probe): (r: seq<Message>)
    ensures |r| <= |ds|
    ensures forall m :: m in r ==> m.ConnectionFailed? || m.StatusFailed?
  {
    if ds == [] then []
    else
      var init, d := ds[..|ds| - 1], ds[|ds| - 1];
      HealthAlerts(init, probe) + (if d != "" && Fails(d, probe) then [Notice(d, probe)] else [])
  }

  /** One more member handled: its alert, if any, follows the alerts for the members before it. */
  lemma HealthAlertsStep(ds: seq<string>, i: nat, probe: string -> Probe)
    requires i < |ds|
    ensures HealthAlerts(ds[..i + 1], probe)
      == HealthAlerts(ds[..i], probe) + (if ds[i] != "" && Fails(ds[i], probe) then [Notice(ds[i], probe)] else [])
  {
    assert ds[..i + 1][..i] == ds[..i];
  }

  /** The line `status_report` writes for one result (healthbot.py:55-61). */
  function Line(r: CheckResult): ReportLine
  {
    if Second(r) then Active(r.domain)
    else match r
      case Unreachable(d, e) => FailedWithError(d, e)
      case Checked(d, ok) => FailedWithStatus(d, ok)
  }

  /** The lines of one `status_report` over `ds`, in iteration order. */
  function ReportLines(ds: seq<string>, probe: string -> Probe): (r: seq<ReportLine>)
    ensures |r| == |ds|
    ensures forall k :: 0 <= k < |ds| ==> r[k].domain == ds[k]
  {
    if ds == [] then []
    else
      var init := ds[..|ds| - 1];
      assert forall k :: 0 <= k < |init| ==> init[k] == ds[k];
      ReportLines(init, probe) + [Line(Result(ds[|ds| - 1], probe))]
  }

  /**
   * A failure alert always names its domain, and a non-200 answer is
   * reported with the value `False`, never with the status code.
   */
  lemma AlertShowsFalse(d: string, probe: string -> Probe)
    requires Fails(d, probe)
    ensures Notice(d, probe).domain == d
    ensures Notice(d, probe).ConnectionFailed? <==> probe(d).TransportError?
    ensures Notice(d, probe).ConnectionFailed? ==> Notice(d, probe).detail == probe(d).detail
    ensures Notice(d, probe).StatusFailed? ==> !Notice(d, probe).shown
  {
  }

  /**
   * `health_check` sends nothing but failure alerts for non-empty members,
   * and exactly one alert for each non-empty member whose probe fails.
   */
  lemma {:induction false} HealthAlertsExact(ds: seq<string>, probe: string -> Probe)
    requires NoDuplicates(ds)
    ensures forall m :: m in HealthAlerts(ds, probe) ==>
      exists d :: d in ds && d != "" && Fails(d, probe) && m == Notice(d, probe)
    ensures forall d :: Fails(d, probe) ==>
      multiset(HealthAlerts(ds, probe))[Notice(d, probe)] == if d in ds && d != "" then 1 else 0
  {
    if ds != [] {
      var init, x := ds[..|ds| - 1], ds[|ds| - 1];
      assert ds == init + [x];
      assert NoDuplicates(init);
      assert x !in init;
      HealthAlertsExact(init, probe);
      var tail := if x != "" && Fails(x, probe) then [Notice(x, probe)] else [];
      assert HealthAlerts(ds, probe) == HealthAlerts(init, probe) + tail;
      forall d | Fails(d, probe)
        ensures multiset(HealthAlerts(ds, probe))[Notice(d, probe)] == if d in ds && d != "" then 1 else 0
      {
        AlertShowsFalse(d, probe);
        if x != "" && Fails(x, probe) {
          AlertShowsFalse(x, probe);
          assert Notice(x, probe) == Notice(d, probe) <==> x == d;
        }
      }
    }
  }

  /** The report has one line per member, in iteration order, and the line says exactly what its probe found. */
  lemma {:induction false} ReportLinesAt(ds: seq<string>, probe: string -> Probe)
    ensures |ReportLines(ds, probe)| == |ds|
    ensures forall k :: 0 <= k < |ds| ==>
      && ReportLines(ds, probe)[k].domain == ds[k]
      && (ReportLines(ds, probe)[k].Active? <==> probe(ds[k]) == Responded(200))
      && (ReportLines(ds, probe)[k].FailedWithError? <==> probe(ds[k]).TransportError?)
      && (ReportLines(ds, probe)[k].FailedWithError? ==> ReportLines(ds, probe)[k].detail == probe(ds[k]).detail)
      && (ReportLines(ds, probe)[k].FailedWithStatus? ==> !ReportLines(ds, probe)[k].shown)
  {
    if ds != [] {
      var init := ds[..|ds| - 1];
      ReportLinesAt(init, probe);
      forall k | 0 <= k < |init| ensures init[k] == ds[k] { }
    }
  }

  /**
   * An empty domain string is treated differently by the two jobs:
   * `health_check` never alerts for it (healthbot.py:41) while
   * `status_report` still writes a line for it (healthbot.py:53-54).
   */
  lemma EmptyDomainQuirk(ds: seq<string>, probe: string -> Probe)
    requires NoDuplicates(ds) && "" in ds
    ensures forall m :: m in HealthAlerts(ds, probe) ==> (m.ConnectionFailed? || m.StatusFailed?) && m.domain != ""
    ensures exists k :: 0 <= k < |ReportLines(ds, probe)| && ReportLines(ds, probe)[k].domain == ""
  {
    HealthAlertsExact(ds, probe);
    ReportLinesAt(ds, probe);
    forall m | m in HealthAlerts(ds, probe) ensures (m.ConnectionFailed? || m.StatusFailed?) && m.domain != "" {
      var d :| d in ds && d != "" && Fails(d, probe) && m == Notice(d, probe);
      AlertShowsFalse(d, probe);
    }
    var k :| 0 <= k < |ds| && ds[k] == "";
    assert ReportLines(ds, probe)[k].domain == "";
  }
}
