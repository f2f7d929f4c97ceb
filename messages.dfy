/**
 * The chat messages the bot sends, one constructor per distinct
 * `send_telegram_message` call in healthbot.py. Each carries the values the
 * message interpolates; the wording and emoji of the text are not modelled.
 */
module Messages {

  /** One line of the composite status report (healthbot.py:55-61). */
  datatype ReportLine =
    | Active(domain: string)                         // the probe succeeded
    | FailedWithError(domain: string, detail: string) // the probe raised; the exception text
    | FailedWithStatus(domain: string, shown: bool)   // the probe answered non-200; shows result[1]

  datatype MenuEntry = MenuEntry(number: int, domain: string)

  datatype Message =
    | EmptyCommand                                    // healthbot.py:70
    | CheckIntervalMissing                            // healthbot.py:75
    | CheckIntervalSet(seconds: int)                  // healthbot.py:81
    | InvalidInterval                                 // healthbot.py:83 and 96
    | ReportIntervalMissing                           // healthbot.py:88
    | ReportIntervalSet(seconds: int)                 // healthbot.py:94
    | DomainMissing                                   // healthbot.py:101
    | DomainAdded(domain: string)                     // healthbot.py:105
    | NothingToRemove                                 // healthbot.py:110
    | RemovalMenu(entries: seq<MenuEntry>)            // healthbot.py:112-113
    | GeneratingReport                                // healthbot.py:118
    | Report(lines: seq<ReportLine>)                  // healthbot.py:52-62
    | Configuration(checkInterval: int, reportInterval: int, domains: seq<string>) // healthbot.py:123-129
    | Help                                            // healthbot.py:133-143
    | NotUnderstood                                   // healthbot.py:147
    | DomainRemoved(domain: string)                   // healthbot.py:169
    | InvalidSelection                                // healthbot.py:172
    | ConnectionFailed(domain: string, detail: string) // healthbot.py:46
    | StatusFailed(domain: string, shown: bool)       // healthbot.py:48
}
