/**
 * The bot as the Python program runs it: the module-level globals of
 * healthbot.py become the fields of one object, and the functions that
 * change them, or their branches, become methods. Sending a Telegram message
 * appends to `outbox`; each HTTP probe is answered by the function `probe`.
 * Every method is proved to change the fields exactly as a function of
 * module Probes or Commands says, so the lemmas proved there hold of the
 * object.
 */
module HealthBot {
  import opened Wrappers
  import opened Text
  import opened Messages
  import opened DomainSet
  import opened Probes
  import opened Schedule
  import opened Commands

  class Bot {
    var domains: seq<string>
    var checkInterval: int
    var reportInterval: int
    var removalInProgress: bool
    var jobs: seq<Job>
    var outbox: seq<Message>
    var offset: Option<int>
    var listening: bool

    /** The fields as one state value. */
    function Model(): State
      reads this
    {
      State(domains, checkInterval, reportInterval, removalInProgress, jobs, outbox, offset, listening)
    }

    predicate Valid()
      reads this
    {
      Commands.Valid(Model())
    }

    /** Start-up (healthbot.py:9-16, 152, 180-181) with the domains and intervals already read. */
    constructor (initial: seq<string>, check: int, report: int)
      requires NoDuplicates(initial)
      ensures Valid() && Model() == Initial(initial, check, report)
    {
      domains := initial;
      checkInterval := check;
      reportInterval := report;
      removalInProgress := false;
      outbox := [];
      offset := None;
      listening := true;
      jobs := Every(Every([], CheckTag, check, RunHealthCheck), ReportTag, report, RunStatusReport);
      InitialValid(initial, check, report);
    }

    /** `health_check` (healthbot.py:39-48): one alert per failing non-empty member, nothing else changes. */
    method HealthCheck(probe: string -> Probe)
      modifies this
      ensures Model() == old(Model()).(outbox := old(outbox) + HealthAlerts(domains, probe))
      ensures old(Valid()) ==> Valid()
    {
      var i := 0;
      while i < |domains|
        invariant 0 <= i <= |domains|
        invariant Model() == old(Model()).(outbox := old(outbox) + HealthAlerts(domains[..i], probe))
      {
        var domain := domains[i];
        HealthAlertsStep(domains, i, probe);
        if domain != "" {
          var result := CheckHealth(domain, probe(domain));
          if !Second(result) {
            outbox := outbox + [Alert(result)];
          }
        }
        i := i + 1;
      }
      assert domains[..i] == domains;
    }

    /** `status_report` (healthbot.py:51-62): exactly one message, with a line per member. */
    method StatusReport(probe: string -> Probe)
      requires Valid()
      modifies this
      ensures Valid() && Model() == old(Model()).(outbox := old(outbox) + [Report(ReportLines(domains, probe))])
    {
      var report: seq<ReportLine> := [];
      var i := 0;
      while i < |domains|
        invariant 0 <= i <= |domains|
        invariant report == ReportLines(domains[..i], probe)
      {
        var result := CheckHealth(domains[i], probe(domains[i]));
        if Second(result) {
          report := report + [Active(result.domain)];
        } else {
          match result {
            case Unreachable(d, e) => report := report + [FailedWithError(d, e)];
            case Checked(d, ok) => report := report + [FailedWithStatus(d, ok)];
          }
        }
        assert domains[..i + 1][..i] == domains[..i];
        i := i + 1;
      }
      assert domains[..i] == domains;
      outbox := outbox + [Report(report)];
    }

    /** `/set_check_interval` (healthbot.py:73-84): `arg` is `parts[1]`, if there is one. */
    method SetCheckInterval(arg: Option<string>)
      requires Valid()
      modifies this
      ensures Valid() && Model() == CheckIntervalCommand(old(Model()), arg)
    {
      if arg.None? {
        outbox := outbox + [CheckIntervalMissing];
        return;
      }
      var parsed := ParseInt(arg.value);
      if parsed.None? {
        outbox := outbox + [InvalidInterval];
        return;
      }
      checkInterval := parsed.value;
      jobs := Every(Clear(jobs, CheckTag), CheckTag, checkInterval, RunHealthCheck);
      outbox := outbox + [CheckIntervalSet(checkInterval)];
      CheckIntervalValid(old(Model()), arg);
    }

    /** `/set_report_interval` (healthbot.py:86-97). */
    method SetReportInterval(arg: Option<string>)
      requires Valid()
      modifies this
      ensures Valid() && Model() == ReportIntervalCommand(old(Model()), arg)
    {
      if arg.None? {
        outbox := outbox + [ReportIntervalMissing];
        return;
      }
      var parsed := ParseInt(arg.value);
      if parsed.None? {
        outbox := outbox + [InvalidInterval];
        return;
      }
      reportInterval := parsed.value;
      jobs := Every(Clear(jobs, ReportTag), ReportTag, reportInterval, RunStatusReport);
      outbox := outbox + [ReportIntervalSet(reportInterval)];
      ReportIntervalValid(old(Model()), arg);
    }

    /** `/add_domain` (healthbot.py:99-106). */
    method AddDomain(arg: Option<string>)
      requires Valid()
      modifies this
      ensures Valid() && Model() == AddDomainCommand(old(Model()), arg)
    {
      if arg.None? {
        outbox := outbox + [DomainMissing];
        return;
      }
      var domain := arg.value;
      domains := Add(domains, domain);
      outbox := outbox + [DomainAdded(domain)];
    }

    /** `/remove_domain` (healthbot.py:108-115). */
    method RemoveDomain()
      requires Valid()
      modifies this
      ensures Valid() && Model() == RemoveDomainCommand(old(Model()))
    {
      if domains == [] {
        outbox := outbox + [NothingToRemove];
        return;
      }
      outbox := outbox + [RemovalMenu(Menu(domains))];
      removalInProgress := true;
    }

    /** `handle_command(command, user_id)` (healthbot.py:65-147). */
    method HandleCommand(command: string, probe: string -> Probe)
      requires Valid()
      modifies this
      ensures Valid() && Model() == Command(old(Model()), command, probe)
    {
      CommandValid(Model(), command, probe);
      var parts := Words(command);
      if |parts| == 0 {
        outbox := outbox + [EmptyCommand];
        return;
      }
      match NameOf(parts[0]) {
        case CheckIntervalName => SetCheckInterval(Argument(parts));
        case ReportIntervalName => SetReportInterval(Argument(parts));
        case AddDomainName => AddDomain(Argument(parts));
        case RemoveDomainName => RemoveDomain();
        case StatusName =>
          outbox := outbox + [GeneratingReport];
          StatusReport(probe);
        case ConfigName =>
          outbox := outbox + [Configuration(checkInterval, reportInterval, domains)];
        case HelpName =>
          outbox := outbox + [Help];
        case Unknown =>
          outbox := outbox + [NotUnderstood];
      }
    }

    /** The text that answers a pending removal (healthbot.py:165-172). */
    method HandleRemovalReply(text: string)
      requires Valid()
      modifies this
      ensures Valid() && Model() == RemovalReply(old(Model()), text)
    {
      RemovalReplyValid(Model(), text);
      var parsed := ParseInt(text);
      if parsed.Some? {
        var index := ListIndex(|domains|, parsed.value - 1);
        if index.Some? {
          var domain := domains[index.value];
          domains := RemoveAt(domains, index.value);
          outbox := outbox + [DomainRemoved(domain)];
          removalInProgress := false;
          return;
        }
      }
      outbox := outbox + [InvalidSelection];
    }

    /** One update of a `getUpdates` response (healthbot.py:161-172): advance the offset, then dispatch the text. */
    method HandleUpdate(update: Update, probe: string -> Probe)
      requires Valid()
      modifies this
      ensures Valid() && Model() == Receive(old(Model()), update, probe)
    {
      ReceiveValid(Model(), update, probe);
      offset := Some(update.updateId + 1);
      match update.payload {
        case NoMessage =>
          listening := false;
        case NoText =>
        case WithText(text) =>
          if removalInProgress {
            HandleRemovalReply(text);
          } else {
            HandleCommand(text, probe);
          }
      }
    }

    /** The body of `for result in data["result"]` over one response of `getUpdates` (healthbot.py:160-174). */
    method ProcessBatch(updates: seq<Update>, probes: int -> string -> Probe)
      requires Valid()
      modifies this
      ensures Valid() && Model() == Batch(old(Model()), updates, probes)
    {
      var i := 0;
      while i < |updates| && listening
        invariant 0 <= i <= |updates|
        invariant Valid()
        invariant Batch(Model(), updates[i..], probes) == Batch(old(Model()), updates, probes)
      {
        assert updates[i..][0] == updates[i] && updates[i..][1..] == updates[i + 1..];
        HandleUpdate(updates[i], probes(updates[i].updateId));
        i := i + 1;
      }
    }
  }
}
