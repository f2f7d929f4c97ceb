# HealthBot in Dafny

healthbot.py is a Telegram bot. It watches a set of web domains:

- it probes each domain on a timer and alerts on failures;
- on another timer it sends a status report for all domains;
- it takes chat commands that change the domain set and the two intervals.

Under the network I/O sits a small sequential state machine. That machine is what this project models:

- **Configuration.** The domain set, `check_interval`, `status_report_interval`, the `removal_in_progress` flag, and the `schedule` library's job list with its `'check'` and `'report'` jobs.
- **Commands.** The interpreter `handle_command`, which splits a line into words and dispatches on the first word.
- **Removal.** The two-step removal: while a removal is pending, the next text is read as a 1-based Python list index, not as a command.
- **Polling.** The loop body of `listen_for_commands`, which advances `offset` and dispatches each update.
- **Probing.** `check_health`, `health_check` and `status_report`, over an abstract probe outcome instead of real HTTP.

Files:

- `wrappers.dfy`: `Option`.
- `text.dfy`: Python's `str.split()`, `int(s)` and `str(n)`.
- `messages.dfy`: one constructor per distinct message the bot sends, carrying the values the message interpolates.
- `domains.dfy`: the set as a duplicate-free sequence, `add`, `remove`, and Python list indexing.
- `probes.dfy`: probe classification, alert list and report lines.
- `schedule.dfy`: the job list, with `clear(tag)` and `every(n).seconds.do(f).tag(tag)`.
- `commands.dfy`: the whole bot as a pure state machine (`Command`, `RemovalReply`, `Receive`, `Batch`), its invariant, and the lemmas about its behaviour.
- `healthbot.dfy`: class `HealthBot.Bot`. It holds the globals as fields. Its methods stand for the source's functions or for branches of them: `HealthCheck` and `StatusReport` for the two jobs; `SetCheckInterval`, `SetReportInterval`, `AddDomain`, `RemoveDomain` and `HandleCommand` for `handle_command` and its branches; `HandleRemovalReply`, `HandleUpdate` and `ProcessBatch` for pieces of `listen_for_commands`. `check_health` has no method: it is the function `Probes.CheckHealth`. Each method is proved to change the fields exactly as a matching function says: `Probes.HealthAlerts` for `HealthCheck`, `Probes.ReportLines` for `StatusReport`, and a function of `Commands` for the others. So every lemma proved about those functions holds of the object.

Sending a chat message appends to `outbox`. A probe is a function `probe: string -> Probe` that says what `requests.get(domain)` does when called: answer with a status code, or raise. In a batch of updates, each update has its own such function, `probes(update_id)`, because every request is a fresh one.

## Model

| member | source | states |
|---|---|---|
| Text.Words | healthbot.py:67 | `command.split()`: every word is non-empty and contains no whitespace |
| Text.WordsEmptyIffBlank | healthbot.py:67-71 | a line splits into no words exactly when it is empty or all whitespace |
| Text.WordsKeepNonSpace | healthbot.py:67 | joining the words gives back every non-whitespace character of the line, in order |
| Text.WordsOfPair | healthbot.py:67 | `"a b"` splits into exactly `[a, b]` when neither word contains whitespace |
| Text.WordsOfWord | healthbot.py:67 | a single word without whitespace splits into exactly that word |
| Text.WordsAtSpace | healthbot.py:67 | every whitespace character is a word boundary: the words of `s + c + t` are the words of `s` followed by the words of `t`; with `WordsOfWord` this fixes the words of every line |
| Text.ParseInt | healthbot.py:166 | `int(text)` reads a number only from text that contains a decimal digit; `None` stands for `ValueError` |
| Text.ParseIntIgnoresPadding | healthbot.py:78 | `int()` gives the same result when whitespace is added on either side; the ASCII separators U+001C to U+001F do not count as whitespace here |
| Text.SeparatorIsNotPadding | healthbot.py:166 | a text that starts with any of the ASCII separators U+001C to U+001F makes `int()` raise `ValueError`, whatever follows: CPython does not strip them, though `str.split()` does |
| Text.TrimEndKeepsFront | healthbot.py:166 | stripping the end of a text never removes its first character when that character is not whitespace to `int()` |
| Text.IntToString | healthbot.py:81 | `str(n)` is non-empty and starts with `-` exactly for negative `n`; every other character is a digit |
| Text.NatToString | healthbot.py:81 | the decimal text of a natural number is non-empty and made of digits only |
| Text.ParseIntOfString | healthbot.py:78 | `int(str(n)) == n` for every integer `n`, negative and zero included |
| DomainSet.Add | healthbot.py:104 | `domains.add(d)`: the members afterwards are the old ones plus `d`; adding a present member changes nothing; no duplicates arise |
| DomainSet.ListIndex | healthbot.py:167 | a Python list index `i` is valid exactly when `-len <= i < len`, and then it reads position `i mod len` |
| DomainSet.RemoveAt | healthbot.py:168 | `domains.remove(x)`: exactly `x` leaves, every other member stays, and the size drops by one |
| Probes.CheckHealth | healthbot.py:30-36 | the result keeps the domain; `result[1]` is true exactly when the answer is status 200; the three-element failure arises exactly on a transport exception, and it carries the exception text |
| Probes.AlertShowsFalse | healthbot.py:44-48 | a failure alert names its domain; it reports the exception text for a transport error, and the value `False` (never the status code) for a non-200 answer |
| Probes.HealthAlerts | healthbot.py:39-48 | one run of `health_check` sends at most one message per member, and every message is a failure alert |
| Probes.ReportLines | healthbot.py:51-61 | the report has exactly one line per member, and line `k` names member `k` |
| Probes.HealthAlertsExact | healthbot.py:39-48 | `health_check` sends only failure alerts for non-empty members, and exactly one alert for each non-empty member whose probe fails |
| Probes.ReportLinesAt | healthbot.py:51-61 | the report has one line per member, in iteration order; each line is "active" exactly on status 200, shows the error text exactly on an exception, and shows `False` otherwise |
| Probes.EmptyDomainQuirk | healthbot.py:39-54 | an empty domain string never gets an alert from `health_check` but still gets a line in `status_report` |
| Schedule.Clear | healthbot.py:79 | `schedule.clear(t)` (also at line 92) keeps only jobs that were in the table, none of them tagged `t` |
| Schedule.ClearTagged | healthbot.py:79 | after `schedule.clear(t)` (also at line 92) no job is tagged `t`, and every other tag's jobs are exactly the ones it had, in order |
| Schedule.TaggedIsSelection | healthbot.py:79 | the jobs selected by tag `t` are jobs of the table, each tagged `t` |
| Schedule.Every | healthbot.py:80 | `every(n).seconds.do(a).tag(t)`: every job stays where it was, and one job tagged `t` with interval `n` is registered after them (line 93 does the same for `report`) |
| Schedule.EveryTagged | healthbot.py:80 | after `every(n).seconds.do(a).tag(t)` the jobs tagged `t` gain the new job at the end; other tags' jobs are unchanged (line 93 likewise) |
| Schedule.Reschedule | healthbot.py:79-80 | `clear(t)` then `every(n)...tag(t)`: exactly one job tagged `t`, with interval `n`; the jobs of every other tag are unchanged (lines 92-93 likewise) |
| Schedule.InitialJobs | healthbot.py:180-181 | the start-up registrations: exactly one `check` job running `health_check` and one `report` job running `status_report`, with the configured intervals |
| Commands.Menu | healthbot.py:112 | the menu has one entry per member; member `k` is listed under number `k + 1`; every number it shows, minus one, is the position of the member it names |
| Commands.CheckIntervalCommand | healthbot.py:73-84 | exactly one message is sent and earlier ones are kept. The domains, the report interval, the flag and the offset are unchanged. A confirmation carries the new interval; any other reply leaves everything else unchanged |
| Commands.ReportIntervalCommand | healthbot.py:86-97 | the same for the report interval |
| Commands.AddDomainCommand | healthbot.py:99-106 | exactly one message is sent; only the domains and the outbox change; with an argument the members become the old ones plus that word, without one they stay; no duplicates arise |
| Commands.RemoveDomainCommand | healthbot.py:108-115 | exactly one message is sent and the set is kept. The flag becomes set exactly when the set is non-empty, unless it already was. For a non-empty set the message is a menu with one entry per member |
| Commands.StatusCommand | healthbot.py:117-120 | exactly two messages are sent and nothing else changes: first the notice, then one report with a line per member |
| Commands.Command | healthbot.py:65-147 | `handle_command` sends exactly one reply, or two for `/status`. It keeps every earlier message and never touches the offset or the listening thread |
| Commands.RemovalReply | healthbot.py:164-172 | a removal reply sends exactly one message: "invalid choice", with nothing else changed, or "removed". A removal shrinks the set by one, names a former member and ends the removal; on a duplicate-free set exactly the named member leaves and every other member stays |
| Commands.Receive | healthbot.py:160-162 | after any update, `offset` is its `update_id + 1`; earlier messages are kept; the thread stops exactly when the update has no `message`, and then nothing but the offset and the thread change; a message without `text` changes the offset and nothing else |
| Commands.Batch | healthbot.py:160-174 | a batch only ever appends messages; once the thread has stopped nothing changes; a non-empty batch handled by a listening thread leaves an offset |
| Commands.InitialValid | healthbot.py:180-181 | the start-up state satisfies the invariant (no duplicates, job table matches intervals, removal pending only on a non-empty set), and no removal is pending |
| Commands.CommandValid | healthbot.py:65-147 | every command line preserves the invariant |
| Commands.RemovalReplyValid | healthbot.py:164-172 | every removal reply preserves the invariant |
| Commands.ReceiveValid | healthbot.py:160-174 | handling any update preserves the invariant |
| Commands.BatchValid | healthbot.py:160-174 | handling any batch of updates preserves the invariant |
| Commands.SetCheckIntervalEffect | healthbot.py:73-81 | `/set_check_interval N` with an integer `N`: the interval becomes `N`; exactly one `check` job remains, with interval `N`; the `report` jobs, the other interval, the domains, the flag and the offset are unchanged; exactly one confirmation carrying `N` is sent |
| Commands.SetReportIntervalEffect | healthbot.py:86-94 | the same for `/set_report_interval` and the `report` job |
| Commands.IntervalRejected | healthbot.py:74-96 | a missing argument to `/set_check_interval` appends exactly the check-interval error, one to `/set_report_interval` exactly the report-interval error, and a non-integer argument exactly the "valid number" error; nothing else changes |
| Commands.CheckIntervalAcceptsAnyInteger | healthbot.py:78-81 | zero and negative intervals are accepted too: `/set_check_interval` followed by the decimal text of any integer `n` sets the interval and the `check` job to `n`. In the model this holds for every `n`; the source has limits, listed under Left out |
| Commands.ReportIntervalAcceptsAnyInteger | healthbot.py:91-94 | likewise `/set_report_interval` followed by the decimal text of any integer `n`, zero and negatives included, sets the report interval and the `report` job to `n` |
| Commands.AddDomainEffect | healthbot.py:99-106 | `/add_domain D ...`: `D` becomes a member and nothing else does; no duplicates; a present `D` leaves the set unchanged; repeating the command leaves the set unchanged; extra words are ignored; one confirmation is sent |
| Commands.AddDomainMissing | healthbot.py:100-102 | `/add_domain` alone sends one error and changes nothing |
| Commands.RemoveDomainEffect | healthbot.py:108-115 | `/remove_domain` never changes the set. On an empty set it sends one "nothing to remove" message and the flag stays false. Otherwise it sends the members numbered from 1 in iteration order and sets the flag |
| Commands.RemovalReplyEffect | healthbot.py:164-172 | a reply is accepted exactly when `int(text)` gives an `n` with `-len <= n - 1 < len`. An accepted reply removes exactly the member at Python index `n - 1`, keeps every other member and clears the flag. Any other reply sends one error and changes nothing else |
| Commands.RemovalMatchesMenu | healthbot.py:166-170 | replying `n`, for `1 <= n <= len`, removes the member the `/remove_domain` menu (line 112) listed as `n` and keeps the rest |
| Commands.ZeroRemovesLast | healthbot.py:166-168 | the reply `"0"` removes the last member of the enumeration |
| Commands.BlankLineEffect | healthbot.py:67-71 | an empty or all-whitespace line sends one error and changes nothing else |
| Commands.UnknownWordEffect | healthbot.py:146-147 | a line whose first word is not a command name sends one error and changes nothing else |
| Commands.QueriesKeepConfiguration | healthbot.py:117-144 | `/config` sends the current intervals and domains; `/help` sends the help text; `/status` sends a notice and then one report with a line per member, even for an empty set. None of them changes anything else |
| Commands.ConfigAfterSetInterval | healthbot.py:122-129 | after `/set_check_interval N` (lines 73-81), `/config` reports `N`, the report interval as it was, and the same domains |
| Commands.PendingReplyIsNotACommand | healthbot.py:164-172 | while a removal is pending, a text is never run as a command: its only replies are "removed" or "invalid choice", and the intervals, jobs and listening state stay as they were |
| Commands.BatchConcat | healthbot.py:160 | updates are handled in receipt order: handling `a` and then `b` is the same as handling `a + b` |
| Commands.BatchOffset | healthbot.py:160-162 | after a batch whose updates all carry a message, texted or not, `offset` is the last `update_id + 1` and the thread is still listening |
| Commands.BatchStopsAtMissingMessage | healthbot.py:161-162 | an update without a `message` still advances `offset`, then ends the listening thread; no later update is handled |
| HealthBot.Bot.constructor | healthbot.py:9-16 | the globals as read at start-up, `offset = None` (line 152) and the two registrations (lines 180-181): the new bot is in the start-up state and satisfies the invariant |
| HealthBot.Bot.HealthCheck | healthbot.py:39-48 | the loop appends exactly the alerts `Probes.HealthAlerts` lists and changes nothing else; a bot that satisfied the invariant still does |
| HealthBot.Bot.StatusReport | healthbot.py:51-62 | keeps the invariant; the loop builds the report line by line and sends exactly one report, with `Probes.ReportLines` as its lines |
| HealthBot.Bot.SetCheckInterval | healthbot.py:73-84 | keeps the invariant, and changes the fields exactly as `Commands.CheckIntervalCommand` says |
| HealthBot.Bot.SetReportInterval | healthbot.py:86-97 | keeps the invariant, and changes the fields exactly as `Commands.ReportIntervalCommand` says |
| HealthBot.Bot.AddDomain | healthbot.py:99-106 | keeps the invariant, and changes the fields exactly as `Commands.AddDomainCommand` says |
| HealthBot.Bot.RemoveDomain | healthbot.py:108-115 | keeps the invariant, and changes the fields exactly as `Commands.RemoveDomainCommand` says |
| HealthBot.Bot.HandleCommand | healthbot.py:65-147 | keeps the invariant, and changes the fields exactly as `Commands.Command` says |
| HealthBot.Bot.HandleRemovalReply | healthbot.py:164-172 | keeps the invariant, and changes the fields exactly as `Commands.RemovalReply` says |
| HealthBot.Bot.HandleUpdate | healthbot.py:161-174 | keeps the invariant, and changes the fields exactly as `Commands.Receive` says |
| HealthBot.Bot.ProcessBatch | healthbot.py:160-174 | the loop stops at the end of the batch or when the thread ends; it keeps the invariant and changes the fields exactly as `Commands.Batch` says |

## Left out

- Real HTTP and Telegram calls (healthbot.py:19-27, 33, 154-159) are network I/O. Sending is an append to `outbox`. Probing is the `probe` parameter.
- A `getUpdates` request that raises `RequestException` is only logged and retried (healthbot.py:175-177). It changes no state, so the model has no step for it.
- When `schedule` jobs fire (`run_pending`, healthbot.py:205-207) depends on an unseen library and the wall clock. Only the job list that `clear` and `every(...).tag(...)` produce is modelled.
- The two threads and their unsynchronised sharing of the globals (healthbot.py:201-205) are left out. The model handles one message at a time.
- Left out at start-up: reading the environment variables (healthbot.py:9-13), the welcome message (healthbot.py:185-198), `print` logging and `time.sleep`. The bot starts from domains and intervals that have already been read.
- The wording, emoji and layout of the messages are not modelled. Each message is a constructor carrying the values it interpolates.
- The domain set is a sequence without duplicates. Its order stands for the set's iteration order. Python does not specify that order at all. An `add` may place the new member anywhere, and when it resizes the table it may also reorder the members already there. `DomainSet.Add` keeps the old members in order and puts the new one last. So the lemmas that speak of positions (the menu, the Python index of a removal reply) hold for the order the sequence records, but do not say how that order relates to the order before an `add`.
- The probe outcomes of one update are one function of the domain: a domain probed twice while one update is handled would get the same answer both times. The source probes each domain once per `health_check` or `status_report`, so no single update's handling asks twice.
- The job table is the `schedule` library's job list, not a map from tag to interval, because `clear` and `every` work on that list. `JobTable` states the map-like view: exactly one job per tag.
- Text.ParseInt: does not accept the non-ASCII Unicode decimal digits that Python's `int()` also reads, and has no limit on the number of digits. CPython 3.11 and later raise `ValueError` for more than 4300 digits. It reads ASCII digits with an optional sign and single underscores between digits. Before that it strips the whitespace CPython strips: space, `\t\n\v\f\r` and non-ASCII whitespace, but not U+001C to U+001F.
- CheckIntervalCommand: accepts and confirms every integer interval. In the source, `schedule.every(N).seconds.do(...)` (healthbot.py:80) raises `OverflowError` when now plus `N` seconds falls outside `datetime`'s range (roughly `N` beyond 2.5e11 seconds, or a large negative `N`). That error is not caught (healthbot.py:82, 175). By then `check_interval` is set and the `check` job removed (lines 78-79); no confirmation is sent and the listening thread ends. The bound depends on the wall clock, which the model does not have.
- ReportIntervalCommand: the same overflow as above, at healthbot.py:91-93.
- The `user_id` argument of `handle_command` (healthbot.py:163, 174) is never used by the function, so the model drops it.
- An update without a `message` key makes `result["message"]` raise `KeyError`, which nothing catches (healthbot.py:162). The model ends the listening thread at that point. An update whose `message` lacks a `from` key raises the same way at healthbot.py:163; the model does not separate that case from a message with text.
