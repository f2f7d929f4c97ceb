/**
 * The bot's state machine as pure functions on a state value: the command
 * interpreter `handle_command` (healthbot.py:65-147), the second step of a
 * removal (healthbot.py:164-172), the handling of one update by the polling
 * loop (healthbot.py:160-174) and of a whole batch. The class HealthBot.Bot
 * is proved to change its fields exactly as these functions say; the
 * lemmas below state what the source promises about them.
 */
module Commands {
  import opened Wrappers
  import opened Text
  import opened Messages
  import opened DomainSet
  import opened Probes
  import opened Schedule

  /**
   * The globals of healthbot.py, the schedule's job list, the messages sent
   * so far, and the polling loop's `offset` together with whether the
   * listening thread is still running.
   */
  datatype State = State(
    domains: seq<string>,
    checkInterval: int,
    reportInterval: int,
    removalInProgress: bool,
    jobs: seq<Job>,
    outbox: seq<Message>,
    offset: Option<int>,
    listening: bool)

  /**
   * What holds between any two messages: the set has no duplicates, the job
   * table agrees with the two intervals, and a removal can only be pending
   * while there is something to remove.
   */
  predicate Valid(s: State)
  {
    && NoDuplicates(s.domains)
    && JobTable(s.jobs, s.checkInterval, s.reportInterval)
    && (s.removalInProgress ==> s.domains != [])
  }

  /** The state at start-up (healthbot.py:9-16, 152, 180-181), before the welcome message. */
  function Initial(domains: seq<string>, checkInterval: int, reportInterval: int): State
  {
    State(domains, checkInterval, reportInterval, false,
          InitialJobs(checkInterval, reportInterval), [], None, true)
  }

  function Send(s: State, m: Message): State
  {
    s.(outbox := s.outbox + [m])
  }

  /** `r` is `s` after exactly `k` more messages were sent; the ones sent before are untouched. */
  predicate SentMore(s: State, r: State, k: nat)
  {
    |r.outbox| == |s.outbox| + k && r.outbox[..|s.outbox|] == s.outbox
  }

  /** The messages of `s` are a prefix of those of `r`: sending only ever appends. */
  predicate OutboxGrows(s: State, r: State)
  {
    |s.outbox| <= |r.outbox| && r.outbox[..|s.outbox|] == s.outbox
  }

  /** The enumerated list `/remove_domain` shows: `i + 1. domain` for the i-th member (healthbot.py:112). */
  function Menu(ds: seq<string>): (r: seq<MenuEntry>)
    ensures |r| == |ds|
    ensures forall k :: 0 <= k < |ds| ==> MenuEntry(k + 1, ds[k]) in r
    ensures forall e :: e in r ==> 1 <= e.number <= |ds| && ds[e.number - 1] == e.domain
  {
    var r := seq(|ds|, i requires 0 <= i < |ds| => MenuEntry(i + 1, ds[i]));
    assert forall k :: 0 <= k < |r| ==> r[k] == MenuEntry(k + 1, ds[k]);
    r
  }

  const SetCheckIntervalWord: string := "/set_check_interval"
  const SetReportIntervalWord: string := "/set_report_interval"
  const AddDomainWord: string := "/add_domain"
  const RemoveDomainWord: string := "/remove_domain"
  const StatusWord: string := "/status"
  const ConfigWord: string := "/config"
  const HelpWord: string := "/help"

  predicate IsCommandName(w: string)
  {
    w in [SetCheckIntervalWord, SetReportIntervalWord, AddDomainWord, RemoveDomainWord, StatusWord, ConfigWord, HelpWord]
  }

  /** The second word of a command line, if any: `parts[1]`, guarded by `len(parts) < 2`. */
  function Argument(parts: seq<string>): Option<string>
  {
    if |parts| < 2 then None else Some(parts[1])
  }

  /** `/set_check_interval` (healthbot.py:73-84). */
  function CheckIntervalCommand(s: State, arg: Option<string>): (r: State)
    ensures SentMore(s, r, 1)
    ensures r.domains == s.domains && r.reportInterval == s.reportInterval && r.removalInProgress == s.removalInProgress
    ensures r.offset == s.offset && r.listening == s.listening
    ensures r.outbox[|s.outbox|].CheckIntervalSet? ==> r.checkInterval == r.outbox[|s.outbox|].seconds
    ensures !r.outbox[|s.outbox|].CheckIntervalSet? ==> r == s.(outbox := r.outbox)
  {
    match arg
    case None => Send(s, CheckIntervalMissing)
    case Some(a) =>
      match ParseInt(a)
      case None => Send(s, InvalidInterval)
      case Some(n) =>
        Send(s.(checkInterval := n, jobs := Every(Clear(s.jobs, CheckTag), CheckTag, n, RunHealthCheck)),
             CheckIntervalSet(n))
  }

  /** `/set_report_interval` (healthbot.py:86-97). */
  function ReportIntervalCommand(s: State, arg: Option<string>): (r: State)
    ensures SentMore(s, r, 1)
    ensures r.domains == s.domains && r.checkInterval == s.checkInterval && r.removalInProgress == s.removalInProgress
    ensures r.offset == s.offset && r.listening == s.listening
    ensures r.outbox[|s.outbox|].ReportIntervalSet? ==> r.reportInterval == r.outbox[|s.outbox|].seconds
    ensures !r.outbox[|s.outbox|].ReportIntervalSet? ==> r == s.(outbox := r.outbox)
  {
    match arg
    case None => Send(s, ReportIntervalMissing)
    case Some(a) =>
      match ParseInt(a)
      case None => Send(s, InvalidInterval)
      case Some(n) =>
        Send(s.(reportInterval := n, jobs := Every(Clear(s.jobs, ReportTag), ReportTag, n, RunStatusReport)),
             ReportIntervalSet(n))
  }

  /** `/add_domain` (healthbot.py:99-106). */
  function AddDomainCommand(s: State, arg: Option<string>): (r: State)
    ensures SentMore(s, r, 1)
    ensures r == s.(domains := r.domains, outbox := r.outbox)
    ensures arg.None? ==> r.domains == s.domains
    ensures arg.Some? ==> forall x :: x in r.domains <==> x in s.domains || x == arg.value
    ensures NoDuplicates(s.domains) ==> NoDuplicates(r.domains)
  {
    match arg
    case None => Send(s, DomainMissing)
    case Some(d) => Send(s.(domains := Add(s.domains, d)), DomainAdded(d))
  }

  /** `/remove_domain` (healthbot.py:108-115). */
  function RemoveDomainCommand(s: State): (r: State)
    ensures SentMore(s, r, 1)
    ensures r == s.(outbox := r.outbox, removalInProgress := r.removalInProgress)
    ensures r.removalInProgress <==> s.removalInProgress || s.domains != []
    ensures s.domains != [] ==> r.outbox[|s.outbox|].RemovalMenu? && |r.outbox[|s.outbox|].entries| == |s.domains|
  {
    if s.domains == [] then Send(s, NothingToRemove)
    else Send(s, RemovalMenu(Menu(s.domains))).(removalInProgress := true)
  }

  /** `/status` (healthbot.py:117-120): a notice, then the report. */
  function StatusCommand(s: State, probe: string -> Probe): (r: State)
    ensures SentMore(s, r, 2)
    ensures r == s.(outbox := r.outbox)
    ensures r.outbox[|s.outbox|] == GeneratingReport
    ensures r.outbox[|s.outbox| + 1].Report? && |r.outbox[|s.outbox| + 1].lines| == |s.domains|
  {
    Send(Send(s, GeneratingReport), Report(ReportLines(s.domains, probe)))
  }

  /** The command a first word names, compared as `parts[0] == "..."` does. */
  datatype Name = CheckIntervalName | ReportIntervalName | AddDomainName | RemoveDomainName
                | StatusName | ConfigName | HelpName | Unknown

  function NameOf(w: string): Name
  {
    if w == SetCheckIntervalWord then CheckIntervalName
    else if w == SetReportIntervalWord then ReportIntervalName
    else if w == AddDomainWord then AddDomainName
    else if w == RemoveDomainWord then RemoveDomainName
    else if w == StatusWord then StatusName
    else if w == ConfigWord then ConfigName
    else if w == HelpWord then HelpName
    else Unknown
  }

  /** `handle_command(text, user_id)`; `probe` gives what each request of a `/status` report returns. */
  function Command(s: State, text: string, probe: string -> Probe): (r: State)
    ensures SentMore(s, r, if Words(text) != [] && Words(text)[0] == StatusWord then 2 else 1)
    ensures r.offset == s.offset && r.listening == s.listening
  {
    var parts := Words(text);
    if |parts| == 0 then Send(s, EmptyCommand)
    else match NameOf(parts[0])
      case CheckIntervalName => CheckIntervalCommand(s, Argument(parts))
      case ReportIntervalName => ReportIntervalCommand(s, Argument(parts))
      case AddDomainName => AddDomainCommand(s, Argument(parts))
      case RemoveDomainName => RemoveDomainCommand(s)
      case StatusName => StatusCommand(s, probe)
      case ConfigName => Send(s, Configuration(s.checkInterval, s.reportInterval, s.domains))
      case HelpName => Send(s, Help)
      case Unknown => Send(s, NotUnderstood)
  }

  /** The seven command names are pairwise different. */
  lemma CommandNamesDistinct()
    ensures SetCheckIntervalWord != SetReportIntervalWord && SetCheckIntervalWord != AddDomainWord && SetCheckIntervalWord != RemoveDomainWord
    ensures SetCheckIntervalWord != StatusWord && SetCheckIntervalWord != ConfigWord && SetCheckIntervalWord != HelpWord
    ensures SetReportIntervalWord != AddDomainWord && SetReportIntervalWord != RemoveDomainWord && SetReportIntervalWord != StatusWord
    ensures SetReportIntervalWord != ConfigWord && SetReportIntervalWord != HelpWord
    ensures AddDomainWord != RemoveDomainWord && AddDomainWord != StatusWord && AddDomainWord != ConfigWord && AddDomainWord != HelpWord
    ensures RemoveDomainWord != StatusWord && RemoveDomainWord != ConfigWord && RemoveDomainWord != HelpWord
    ensures StatusWord != ConfigWord && StatusWord != HelpWord && ConfigWord != HelpWord
  {
    assert StatusWord[1] != ConfigWord[1];
  }

  /**
   * The position `int(text) - 1` designates in `list(domains)`, or `None`
   * where `int` raises `ValueError` or the list access raises `IndexError`.
   */
  function Selection(ds: seq<string>, text: string): Option<nat>
  {
    match ParseInt(text)
    case None => None
    case Some(n) => ListIndex(|ds|, n - 1)
  }

  /** The reply to a pending removal (healthbot.py:165-172). */
  function RemovalReply(s: State, text: string): (r: State)
    ensures SentMore(s, r, 1)
    ensures r.outbox[|s.outbox|] == InvalidSelection || r.outbox[|s.outbox|].DomainRemoved?
    ensures r.outbox[|s.outbox|] == InvalidSelection ==> r == s.(outbox := r.outbox)
    ensures r.outbox[|s.outbox|].DomainRemoved? ==>
      && r == s.(domains := r.domains, outbox := r.outbox, removalInProgress := false)
      && r.outbox[|s.outbox|].domain in s.domains
      && |r.domains| == |s.domains| - 1
    ensures NoDuplicates(s.domains) && r.outbox[|s.outbox|].DomainRemoved? ==>
      forall x :: x in r.domains <==> x in s.domains && x != r.outbox[|s.outbox|].domain
  {
    match Selection(s.domains, text)
    case None => Send(s, InvalidSelection)
    case Some(k) =>
      Send(s.(domains := RemoveAt(s.domains, k)), DomainRemoved(s.domains[k])).(removalInProgress := false)
  }

  /** The part of an update the loop looks at: a message with text, one without, or no `message` at all. */
  datatype Payload = WithText(text: string) | NoText | NoMessage

  datatype Update = Update(updateId: int, payload: Payload)

  /**
   * One pass of `for result in data["result"]` (healthbot.py:161-174). An
   * update without a `message` object makes `result["message"]` raise
   * `KeyError`, which nothing catches: the listening thread ends.
   */
  function Receive(s: State, u: Update, probe: string -> Probe): (r: State)
    ensures r.offset == Some(u.updateId + 1)
    ensures OutboxGrows(s, r)
    ensures r.listening <==> s.listening && !u.payload.NoMessage?
    ensures u.payload.NoText? ==> r == s.(offset := Some(u.updateId + 1))
    ensures u.payload.NoMessage? ==> r == s.(offset := Some(u.updateId + 1), listening := false)
  {
    var s1 := s.(offset := Some(u.updateId + 1));
    match u.payload
    case NoMessage => s1.(listening := false)
    case NoText => s1
    case WithText(t) => if s1.removalInProgress then RemovalReply(s1, t) else Command(s1, t, probe)
  }

  /**
   * A batch of updates handled in receipt order, until the listening
   * thread ends. Every update is handled with fresh requests: `probes(id)`
   * says what the requests made while handling update `id` return.
   */
  function Batch(s: State, us: seq<Update>, probes: int -> string -> Probe): (r: State)
    ensures OutboxGrows(s, r)
    ensures !s.listening ==> r == s
    ensures us != [] && s.listening ==> r.offset.Some?
    decreases |us|
  {
    if us == [] || !s.listening then s
    else
      var m := Receive(s, us[0], probes(us[0].updateId));
      var r := Batch(m, us[1..], probes);
      assert r.outbox[..|s.outbox|] == r.outbox[..|m.outbox|][..|s.outbox|];
      assert m.listening || r == m;
      r
  }

  // ---------------------------------------------------------------------
  // The invariant

  lemma InitialValid(domains: seq<string>, checkInterval: int, reportInterval: int)
    requires NoDuplicates(domains)
    ensures Valid(Initial(domains, checkInterval, reportInterval))
    ensures !Initial(domains, checkInterval, reportInterval).removalInProgress
  {
  }

  lemma CheckIntervalValid(s: State, arg: Option<string>)
    requires Valid(s)
    ensures Valid(CheckIntervalCommand(s, arg))
  {
    if arg.Some? && ParseInt(arg.value).Some? {
      Reschedule(s.jobs, CheckTag, ParseInt(arg.value).value, RunHealthCheck);
    }
  }

  lemma ReportIntervalValid(s: State, arg: Option<string>)
    requires Valid(s)
    ensures Valid(ReportIntervalCommand(s, arg))
  {
    if arg.Some? && ParseInt(arg.value).Some? {
      Reschedule(s.jobs, ReportTag, ParseInt(arg.value).value, RunStatusReport);
    }
  }

  lemma CommandValid(s: State, text: string, probe: string -> Probe)
    requires Valid(s)
    ensures Valid(Command(s, text, probe))
  {
    var parts := Words(text);
    if |parts| > 0 {
      match NameOf(parts[0])
      case CheckIntervalName => CheckIntervalValid(s, Argument(parts));
      case ReportIntervalName => ReportIntervalValid(s, Argument(parts));
      case _ =>
    }
  }

  lemma RemovalReplyValid(s: State, text: string)
    requires Valid(s)
    ensures Valid(RemovalReply(s, text))
  {
  }

  lemma ReceiveValid(s: State, u: Update, probe: string -> Probe)
    requires Valid(s)
    ensures Valid(Receive(s, u, probe))
  {
    var s1 := s.(offset := Some(u.updateId + 1));
    match u.payload
    case NoMessage =>
    case NoText =>
    case WithText(t) =>
      var r := Receive(s, u, probe);
      if s1.removalInProgress {
        assert r == RemovalReply(s1, t);
        RemovalReplyValid(s1, t);
      } else {
        assert r == Command(s1, t, probe);
        CommandValid(s1, t, probe);
      }
  }

  /** Every state the bot reaches by handling updates keeps the invariant. */
  lemma {:induction false} BatchValid(s: State, us: seq<Update>, probes: int -> string -> Probe)
    requires Valid(s)
    ensures Valid(Batch(s, us, probes))
    decreases |us|
  {
    if us != [] && s.listening {
      ReceiveValid(s, us[0], probes(us[0].updateId));
      BatchValid(Receive(s, us[0], probes(us[0].updateId)), us[1..], probes);
    }
  }

  // ---------------------------------------------------------------------
  // The interval commands

  /**
   * `/set_check_interval N`, N any integer Python's `int` reads (zero and
   * negative ones included): the interval becomes N, exactly one `check`
   * job remains and it has interval N; the `report` jobs, the other
   * settings and the domains stay, and one confirmation is sent.
   */
  lemma SetCheckIntervalEffect(s: State, text: string, probe: string -> Probe)
    requires |Words(text)| >= 2 && Words(text)[0] == SetCheckIntervalWord && ParseInt(Words(text)[1]).Some?
    ensures var n := ParseInt(Words(text)[1]).value;
      var r := Command(s, text, probe);
      && r.checkInterval == n
      && Tagged(r.jobs, CheckTag) == [Job(CheckTag, n, RunHealthCheck)]
      && Tagged(r.jobs, ReportTag) == Tagged(s.jobs, ReportTag)
      && r.outbox == s.outbox + [CheckIntervalSet(n)]
      && r.reportInterval == s.reportInterval && r.domains == s.domains
      && r.removalInProgress == s.removalInProgress && r.offset == s.offset && r.listening == s.listening
  {
    Reschedule(s.jobs, CheckTag, ParseInt(Words(text)[1]).value, RunHealthCheck);
    CommandNamesDistinct();
  }

  /** `/set_report_interval N`, symmetric to `/set_check_interval`. */
  lemma SetReportIntervalEffect(s: State, text: string, probe: string -> Probe)
    requires |Words(text)| >= 2 && Words(text)[0] == SetReportIntervalWord && ParseInt(Words(text)[1]).Some?
    ensures var n := ParseInt(Words(text)[1]).value;
      var r := Command(s, text, probe);
      && r.reportInterval == n
      && Tagged(r.jobs, ReportTag) == [Job(ReportTag, n, RunStatusReport)]
      && Tagged(r.jobs, CheckTag) == Tagged(s.jobs, CheckTag)
      && r.outbox == s.outbox + [ReportIntervalSet(n)]
      && r.checkInterval == s.checkInterval && r.domains == s.domains
      && r.removalInProgress == s.removalInProgress && r.offset == s.offset && r.listening == s.listening
  {
    Reschedule(s.jobs, ReportTag, ParseInt(Words(text)[1]).value, RunStatusReport);
    CommandNamesDistinct();
  }

  /**
   * With the argument missing or not an integer, an interval command sends
   * its own error and changes nothing else: a missing argument gets the
   * message that names the command, a non-integer one the shared
   * "valid number" error.
   */
  lemma IntervalRejected(s: State, text: string, probe: string -> Probe)
    requires |Words(text)| >= 1 && (Words(text)[0] == SetCheckIntervalWord || Words(text)[0] == SetReportIntervalWord)
    requires |Words(text)| < 2 || ParseInt(Words(text)[1]).None?
    ensures |Words(text)| < 2 && Words(text)[0] == SetCheckIntervalWord ==>
      Command(s, text, probe) == s.(outbox := s.outbox + [CheckIntervalMissing])
    ensures |Words(text)| < 2 && Words(text)[0] == SetReportIntervalWord ==>
      Command(s, text, probe) == s.(outbox := s.outbox + [ReportIntervalMissing])
    ensures |Words(text)| >= 2 ==>
      Command(s, text, probe) == s.(outbox := s.outbox + [InvalidInterval])
  {
    CommandNamesDistinct();
  }

  /**
   * Every integer is accepted as an interval, zero and negatives included:
   * the decimal text of `n`, as argument, becomes the check interval.
   */
  lemma CheckIntervalAcceptsAnyInteger(s: State, n: int, probe: string -> Probe)
    ensures var r := Command(s, SetCheckIntervalWord + " " + IntToString(n), probe);
      && r.checkInterval == n
      && Tagged(r.jobs, CheckTag) == [Job(CheckTag, n, RunHealthCheck)]
      && r.outbox == s.outbox + [CheckIntervalSet(n)]
      && r.reportInterval == s.reportInterval && r.domains == s.domains
  {
    var arg := IntToString(n);
    CheckIntervalWordHasNoSpace();
    IntToStringHasNoSpace(n);
    WordsOfPair(SetCheckIntervalWord, arg);
    ParseIntOfString(n);
    SetCheckIntervalEffect(s, SetCheckIntervalWord + " " + arg, probe);
  }

  /** The same for `/set_report_interval`: the decimal text of any integer becomes the report interval. */
  lemma ReportIntervalAcceptsAnyInteger(s: State, n: int, probe: string -> Probe)
    ensures var r := Command(s, SetReportIntervalWord + " " + IntToString(n), probe);
      && r.reportInterval == n
      && Tagged(r.jobs, ReportTag) == [Job(ReportTag, n, RunStatusReport)]
      && r.outbox == s.outbox + [ReportIntervalSet(n)]
      && r.checkInterval == s.checkInterval && r.domains == s.domains
  {
    var arg := IntToString(n);
    ReportIntervalWordHasNoSpace();
    IntToStringHasNoSpace(n);
    WordsOfPair(SetReportIntervalWord, arg);
    ParseIntOfString(n);
    SetReportIntervalEffect(s, SetReportIntervalWord + " " + arg, probe);
  }

  lemma CheckIntervalWordHasNoSpace()
    ensures SetCheckIntervalWord != [] && NoSpace(SetCheckIntervalWord)
  {
    forall i | 0 <= i < |SetCheckIntervalWord| ensures !IsSpace(SetCheckIntervalWord[i]) {
      assert SetCheckIntervalWord[i] in "/set_check_interval";
    }
  }

  lemma ReportIntervalWordHasNoSpace()
    ensures SetReportIntervalWord != [] && NoSpace(SetReportIntervalWord)
  {
    forall i | 0 <= i < |SetReportIntervalWord| ensures !IsSpace(SetReportIntervalWord[i]) {
      assert SetReportIntervalWord[i] in "/set_report_interval";
    }
  }

  // ---------------------------------------------------------------------
  // The domain commands

  /**
   * `/add_domain D ...`: D, the second word, becomes a member, nothing else
   * does, one confirmation is sent, extra words are ignored, and the
   * command is idempotent on the set.
   */
  lemma AddDomainEffect(s: State, text: string, probe: string -> Probe)
    requires NoDuplicates(s.domains)
    requires |Words(text)| >= 2 && Words(text)[0] == AddDomainWord
    ensures var d, r := Words(text)[1], Command(s, text, probe);
      && (forall x :: x in r.domains <==> x in s.domains || x == d)
      && NoDuplicates(r.domains)
      && (d in s.domains ==> r.domains == s.domains)
      && Command(r, text, probe).domains == r.domains
      && r == s.(domains := r.domains, outbox := s.outbox + [DomainAdded(d)])
  {
    var r := Command(s, text, probe);
    CommandNamesDistinct();
    assert Words(text)[1] in r.domains;
  }

  /** `/add_domain` alone sends one error and changes nothing. */
  lemma AddDomainMissing(s: State, text: string, probe: string -> Probe)
    requires Words(text) == [AddDomainWord]
    ensures Command(s, text, probe) == s.(outbox := s.outbox + [DomainMissing])
  {
    CommandNamesDistinct();
  }

  /**
   * `/remove_domain`: on an empty set one "nothing to remove" message; otherwise
   * the list of members numbered from 1 in iteration order, and the removal
   * becomes pending. The set itself never changes.
   */
  lemma RemoveDomainEffect(s: State, text: string, probe: string -> Probe)
    requires |Words(text)| >= 1 && Words(text)[0] == RemoveDomainWord
    ensures var r := Command(s, text, probe);
      && r.domains == s.domains
      && (s.domains == [] ==> r == s.(outbox := s.outbox + [NothingToRemove]))
      && (s.domains == [] && Valid(s) ==> !r.removalInProgress)
      && (s.domains != [] ==>
           && r == s.(outbox := r.outbox, removalInProgress := true)
           && |r.outbox| == |s.outbox| + 1
           && r.outbox[..|s.outbox|] == s.outbox
           && r.outbox[|s.outbox|].RemovalMenu?
           && |r.outbox[|s.outbox|].entries| == |s.domains|
           && forall k :: 0 <= k < |s.domains| ==>
                r.outbox[|s.outbox|].entries[k] == MenuEntry(k + 1, s.domains[k]))
  {
    CommandNamesDistinct();
  }

  // ---------------------------------------------------------------------
  // The second step of a removal

  /**
   * The replies a pending removal accepts are exactly those `int` reads as
   * some n with `-len <= n - 1 < len`; an accepted reply removes exactly
   * the member at Python index n - 1 (so "0" removes the last one), keeps
   * every other and ends the removal; any other reply sends one error and
   * changes nothing.
   */
  lemma RemovalReplyEffect(s: State, text: string)
    requires NoDuplicates(s.domains)
    ensures var r, len := RemovalReply(s, text), |s.domains|;
      var accepted := ParseInt(text).Some? && -len <= ParseInt(text).value - 1 < len;
      && (accepted ==>
           var d := s.domains[(ParseInt(text).value - 1) % len];
           && (forall x :: x in r.domains <==> x in s.domains && x != d)
           && |r.domains| == len - 1
           && r == s.(domains := r.domains, outbox := s.outbox + [DomainRemoved(d)], removalInProgress := false))
      && (!accepted ==> r == s.(outbox := s.outbox + [InvalidSelection]))
  {
  }

  /** A reply n between 1 and the number of members removes the member listed as n in the menu. */
  lemma RemovalMatchesMenu(s: State, n: int)
    requires NoDuplicates(s.domains) && 1 <= n <= |s.domains|
    ensures var r, d := RemovalReply(s, IntToString(n)), Menu(s.domains)[n - 1];
      && d.number == n
      && d.domain !in r.domains
      && (forall x :: x in s.domains && x != d.domain ==> x in r.domains)
      && !r.removalInProgress
  {
    ParseIntOfString(n);
    RemovalReplyEffect(s, IntToString(n));
    assert Menu(s.domains)[n - 1] == MenuEntry(n, s.domains[n - 1]);
    assert (n - 1) % |s.domains| == n - 1;
  }

  /** The reply "0" removes the last member of the enumeration. */
  lemma ZeroRemovesLast(s: State)
    requires NoDuplicates(s.domains) && s.domains != []
    ensures RemovalReply(s, "0").domains == s.domains[..|s.domains| - 1]
  {
    ParseIntOfString(0);
    assert IntToString(0) == "0";
  }

  // ---------------------------------------------------------------------
  // Lines that change no configuration

  /** An empty or blank line sends one error and changes nothing (healthbot.py:69-71). */
  lemma BlankLineEffect(s: State, text: string, probe: string -> Probe)
    requires AllSpace(text)
    ensures Command(s, text, probe) == s.(outbox := s.outbox + [EmptyCommand])
  {
    WordsEmptyIffBlank(text);
  }

  /** A line whose first word names no command sends one error and changes nothing (healthbot.py:146-147). */
  lemma UnknownWordEffect(s: State, text: string, probe: string -> Probe)
    requires Words(text) != [] && !IsCommandName(Words(text)[0])
    ensures Command(s, text, probe) == s.(outbox := s.outbox + [NotUnderstood])
  {
    var w := Words(text)[0];
    assert NameOf(w) == Unknown;
  }

  /**
   * `/config`, `/help` and `/status` only send: the current settings, the
   * help text, or a notice followed by one report with a line per member.
   */
  lemma QueriesKeepConfiguration(s: State, text: string, probe: string -> Probe)
    requires |Words(text)| >= 1
    ensures Words(text)[0] == ConfigWord ==>
      Command(s, text, probe) == s.(outbox := s.outbox + [Configuration(s.checkInterval, s.reportInterval, s.domains)])
    ensures Words(text)[0] == HelpWord ==>
      Command(s, text, probe) == s.(outbox := s.outbox + [Help])
    ensures Words(text)[0] == StatusWord ==>
      && Command(s, text, probe) == s.(outbox := s.outbox + [GeneratingReport, Report(ReportLines(s.domains, probe))])
      && |ReportLines(s.domains, probe)| == |s.domains|
  {
    CommandNamesDistinct();
    ReportLinesAt(s.domains, probe);
  }

  /**
   * `/set_check_interval N` followed by `/config`: the settings sent back
   * show N as the check interval, the report interval as it was and the
   * same domains.
   */
  lemma ConfigAfterSetInterval(s: State, setLine: string, query: string, probe: string -> Probe)
    requires |Words(setLine)| >= 2 && Words(setLine)[0] == SetCheckIntervalWord && ParseInt(Words(setLine)[1]).Some?
    requires |Words(query)| >= 1 && Words(query)[0] == ConfigWord
    ensures var r := Command(Command(s, setLine, probe), query, probe);
      r.outbox[|r.outbox| - 1] == Configuration(ParseInt(Words(setLine)[1]).value, s.reportInterval, s.domains)
  {
    SetCheckIntervalEffect(s, setLine, probe);
    QueriesKeepConfiguration(Command(s, setLine, probe), query, probe);
  }

  // ---------------------------------------------------------------------
  // The polling loop

  /**
   * While a removal is pending, a text update is never run as a command:
   * its only possible replies are "removed" and "invalid choice", and the
   * intervals and jobs stay as they were.
   */
  lemma PendingReplyIsNotACommand(s: State, u: Update, probe: string -> Probe)
    requires s.removalInProgress && u.payload.WithText?
    ensures var r := Receive(s, u, probe);
      && |r.outbox| == |s.outbox| + 1
      && r.outbox[..|s.outbox|] == s.outbox
      && (r.outbox[|s.outbox|].DomainRemoved? || r.outbox[|s.outbox|] == InvalidSelection)
      && r.checkInterval == s.checkInterval && r.reportInterval == s.reportInterval && r.jobs == s.jobs
      && r.listening == s.listening && r.offset == Some(u.updateId + 1)
  {
    var s1 := s.(offset := Some(u.updateId + 1));
    var r := RemovalReply(s1, u.payload.text);
    assert r == Receive(s, u, probe);
    assert r.outbox[..|s.outbox|] == s.outbox;
  }

  /** Handling the updates `a` and then `b` is handling `a + b`: updates are taken in receipt order. */
  lemma {:induction false} BatchConcat(s: State, a: seq<Update>, b: seq<Update>, probes: int -> string -> Probe)
    ensures Batch(s, a + b, probes) == Batch(Batch(s, a, probes), b, probes)
    decreases |a|
  {
    if a == [] {
      assert a + b == b;
    } else if s.listening {
      assert (a + b)[0] == a[0];
      assert (a + b)[1..] == a[1..] + b;
      BatchConcat(Receive(s, a[0], probes(a[0].updateId)), a[1..], b, probes);
    } else {
      assert b == [] || !Batch(s, a, probes).listening;
    }
  }

  /**
   * After a batch in which every update carries a message, the offset is
   * one past the last update's id, whether or not the messages had text,
   * and the thread keeps listening.
   */
  lemma {:induction false} BatchOffset(s: State, us: seq<Update>, probes: int -> string -> Probe)
    requires s.listening && us != []
    requires forall k :: 0 <= k < |us| ==> !us[k].payload.NoMessage?
    ensures Batch(s, us, probes).offset == Some(us[|us| - 1].updateId + 1)
    ensures Batch(s, us, probes).listening
    decreases |us|
  {
    var r := Receive(s, us[0], probes(us[0].updateId));
    assert r.listening;
    if |us| > 1 {
      BatchOffset(r, us[1..], probes);
    }
  }

  /**
   * An update without a message ends the thread: the offset still moves
   * past it, and no later update of the batch is handled.
   */
  lemma BatchStopsAtMissingMessage(s: State, a: seq<Update>, u: Update, b: seq<Update>, probes: int -> string -> Probe)
    requires Batch(s, a, probes).listening && u.payload.NoMessage?
    ensures var r := Batch(s, a + [u] + b, probes);
      && r == Batch(s, a, probes).(offset := Some(u.updateId + 1), listening := false)
  {
    BatchConcat(s, a + [u], b, probes);
    BatchConcat(s, a, [u], probes);
    var m := Batch(s, a, probes);
    assert [u][1..] == [];
  }
}
