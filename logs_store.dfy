/** The web front end's log store: a list of log lines that never holds
    more than the newest fifty. */
module LogsStore {
  import opened Common

  const MaxLogs: nat := 50

  class Logs {
    var logs: seq<string>

    /** The store never holds more than `MaxLogs` lines. */
    predicate Valid()
      reads this
    {
      |logs| <= MaxLogs
    }

    constructor ()
      ensures Valid() && logs == []
    {
      logs := [];
    }

    /** `addLog`: the line is appended and, past the limit, the oldest
        lines are dropped. */
    method AddLog(log: string)
      requires Valid()
      modifies this
      ensures Valid()
      ensures logs == AppendCapped(old(logs), log, MaxLogs)
      ensures logs[|logs| - 1] == log
      ensures logs[..|logs| - 1] == old(logs)[|old(logs)| + 1 - |logs|..]
    {
      AppendCappedKeepsNewest(logs, log, MaxLogs);
      logs := logs + [log];
      if |logs| > MaxLogs {
        logs := logs[|logs| - MaxLogs..];
      }
    }

    /** `setLogs`: only the newest `MaxLogs` of the given lines are kept. */
    method SetLogs(newLogs: seq<string>)
      modifies this
      ensures Valid()
      ensures logs == KeepLast(newLogs, MaxLogs)
    {
      logs := if |newLogs| > MaxLogs then newLogs[|newLogs| - MaxLogs..] else newLogs;
    }

    /** `clearLogs`. */
    method ClearLogs()
      modifies this
      ensures Valid() && logs == []
    {
      logs := [];
    }
  }

  /** Setting a history and then adding lines one by one leaves exactly the
      newest `MaxLogs` lines of the whole history, oldest first. */
  lemma SetThenAddKeepsNewest(history: seq<string>, added: seq<string>)
    ensures AppendAllCapped(KeepLast(history, MaxLogs), added, MaxLogs) == KeepLast(history + added, MaxLogs)
    ensures |KeepLast(history + added, MaxLogs)| == if |history + added| > MaxLogs then MaxLogs else |history + added|
  {
    AppendAllCappedIsSuffix(history, added, MaxLogs);
  }
}
