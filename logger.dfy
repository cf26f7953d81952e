/** The logger shared by the pipeline: a severity filter over the four
    level names, the line layout of a log entry, and an optional log file
    the entries are appended to. The clock is a parameter: each call is
    given the ISO timestamp `new Date().toISOString()` would produce. */
module Logging {
  import opened Wrappers
  import opened Catalog

  /** The `levels` table: `error` 0, `warn` 1, `info` 2, `debug` 3, and
      `undefined` for every other name. */
  function Rank(name: string): Option<nat> {
    if name == "error" then Some(0)
    else if name == "warn" then Some(1)
    else if name == "info" then Some(2)
    else if name == "debug" then Some(3)
    else None
  }

  /** `shouldLog(level)` under the threshold `logLevel`. A comparison with
      `undefined` is false, so an unknown name on either side logs nothing. */
  predicate ShouldLog(logLevel: string, level: string) {
    Rank(level).Some? && Rank(logLevel).Some? && Rank(level).value <= Rank(logLevel).value
  }

  /** The four names are the whole table, and it orders them by severity. */
  lemma RankTable(name: string)
    ensures Rank(name).Some? <==> name in ["error", "warn", "info", "debug"]
    ensures Rank(name).Some? ==> Rank(name).value < 4
    ensures Rank("error") == Some(0) && Rank("debug") == Some(3)
    ensures Rank("warn").value < Rank("info").value
  {
  }

  /** A level logged under a threshold is logged under every more verbose
      threshold, and every more severe level is logged too. */
  lemma ShouldLogMonotone(t1: string, t2: string, a: string, b: string)
    requires ShouldLog(t1, b)
    ensures Rank(t2).Some? && Rank(t1).value <= Rank(t2).value ==> ShouldLog(t2, b)
    ensures Rank(a).Some? && Rank(a).value <= Rank(b).value ==> ShouldLog(t1, a)
  {
  }

  /** Under a valid threshold errors are always logged, and debug entries only
      under `debug`; an unknown threshold silences every level. */
  lemma ThresholdExtremes(t: string, level: string)
    ensures Rank(t).Some? ==> ShouldLog(t, "error")
    ensures ShouldLog(t, "debug") <==> t == "debug"
    ensures Rank(t).None? ==> !ShouldLog(t, level)
  {
  }

  /** The default threshold `info` logs everything but debug entries. */
  lemma DefaultThreshold(level: string)
    ensures ShouldLog("info", level) <==> level in ["error", "warn", "info"]
  {
  }

  /** `options.logLevel || process.env.LOG_LEVEL || 'info'`. */
  function ChosenLevel(option: Option<string>, envLevel: Option<string>): (r: string)
    ensures Truthy(option) ==> r == option.value
    ensures !Truthy(option) && Truthy(envLevel) ==> r == envLevel.value
    ensures !Truthy(option) && !Truthy(envLevel) ==> r == "info"
    ensures r != ""
  {
    if Truthy(option) then option.value
    else if Truthy(envLevel) then envLevel.value
    else "info"
  }

  /** `toUpperCase` on one character, for the ASCII letters the level
      names are made of. */
  function UpperChar(c: char): char {
    if 'a' <= c <= 'z' then (c as int - 32) as char else c
  }

  /** `toUpperCase` over a string of such characters. */
  function Upper(s: string): (r: string)
    ensures |r| == |s| && forall i | 0 <= i < |s| :: r[i] == UpperChar(s[i])
  {
    seq(|s|, i requires 0 <= i < |s| => UpperChar(s[i]))
  }

  /** The labels the four levels are printed with. */
  lemma UpperNames()
    ensures Upper("error") == "ERROR" && Upper("warn") == "WARN"
    ensures Upper("info") == "INFO" && Upper("debug") == "DEBUG"
  {
    assert UpperChar('e') == 'E' && UpperChar('r') == 'R' && UpperChar('o') == 'O';
    assert UpperChar('w') == 'W' && UpperChar('a') == 'A' && UpperChar('n') == 'N';
    assert UpperChar('i') == 'I' && UpperChar('f') == 'F';
    assert UpperChar('d') == 'D' && UpperChar('b') == 'B' && UpperChar('u') == 'U' && UpperChar('g') == 'G';
  }

  /** `data ? ' ' + JSON.stringify(data) : ''`, given the serialised data of
      a truthy value, or `None`. */
  function DataSuffix(data: Option<string>): string {
    match data
    case Some(json) => " " + json
    case None => ""
  }

  /** `formatMessage(level, message, data)` at time `ts`. */
  function FormatMessage(ts: string, level: string, message: string, data: Option<string>): string {
    "[" + ts + "] [" + Upper(level) + "] " + message + DataSuffix(data)
  }

  /** The line is `[ts]`, then the upper-cased level in brackets, then the
      message, then the data only when there is some. */
  lemma FormatLayout(ts: string, level: string, message: string, data: Option<string>)
    ensures var line := FormatMessage(ts, level, message, data);
            var head := |ts| + |level| + 6;
            && |line| == head + |message| + |DataSuffix(data)|
            && line[..|ts| + 2] == "[" + ts + "]"
            && line[|ts| + 3..|ts| + 4 + |level|] == "[" + Upper(level)
            && line[head..head + |message|] == message
            && line[head + |message|..] == DataSuffix(data)
            && (data.None? ==> line[head..] == message)
  {
    var line := FormatMessage(ts, level, message, data);
    var head := |ts| + |level| + 6;
    var pre := "[" + ts + "] [" + Upper(level) + "] ";
    assert |pre| == head;
    assert line == pre + message + DataSuffix(data);
    assert line[..|ts| + 2] == pre[..|ts| + 2];
    assert pre[..|ts| + 2] == "[" + ts + "]";
    assert line[|ts| + 3..|ts| + 4 + |level|] == pre[|ts| + 3..|ts| + 4 + |level|];
  }

  /** Entries with the same time, level and data differ exactly when their
      messages do. */
  lemma FormatDistinguishesMessages(ts: string, level: string, m1: string, m2: string, data: Option<string>)
    ensures FormatMessage(ts, level, m1, data) == FormatMessage(ts, level, m2, data) <==> m1 == m2
  {
    if FormatMessage(ts, level, m1, data) == FormatMessage(ts, level, m2, data) {
      FormatLayout(ts, level, m1, data);
      FormatLayout(ts, level, m2, data);
    }
  }

  /** `Logger`. The console output is left out; the log file is its text,
      and `appendFails` stands for an `appendFileSync` that raises. */
  class Logger {
    const logLevel: string
    const logToFile: bool
    const appendFails: bool
    var fileText: string

    /** `new Logger({ logLevel, logToFile })` with `LOG_LEVEL` read from the
        environment as `envLevel`. */
    constructor (option: Option<string>, envLevel: Option<string>, toFile: bool, appendFails0: bool)
      ensures logLevel == ChosenLevel(option, envLevel) && logToFile == toFile
      ensures appendFails == appendFails0 && fileText == ""
    {
      logLevel := ChosenLevel(option, envLevel);
      logToFile := toFile;
      appendFails := appendFails0;
      fileText := "";
    }

    /** `writeToFile(message)`: appends the line when file logging is on; a
        failing append is reported on the console and dropped. */
    method WriteToFile(message: string)
      modifies this
      ensures fileText == if logToFile && !appendFails then old(fileText) + message + "\n" else old(fileText)
    {
      if logToFile && !appendFails {
        fileText := fileText + message + "\n";
      }
    }

    /** The body the five level methods share: gated on `gate`, written with
        the label `gate`. */
    method Emit(gate: string, ts: string, message: string, data: Option<string>)
      modifies this
      ensures fileText == old(fileText) + Entry(gate, ts, message, data)
    {
      if ShouldLog(logLevel, gate) {
        var formatted := FormatMessage(ts, gate, message, data);
        WriteToFile(formatted);
      }
    }

    /** What one call gated on `gate` adds to the log file. */
    function Entry(gate: string, ts: string, message: string, data: Option<string>): (r: string)
      reads this
      ensures r != "" <==> logToFile && !appendFails && ShouldLog(logLevel, gate)
    {
      if logToFile && !appendFails && ShouldLog(logLevel, gate)
      then FormatMessage(ts, gate, message, data) + "\n"
      else ""
    }

    method Error(ts: string, message: string, data: Option<string>)
      modifies this
      ensures fileText == old(fileText) + Entry("error", ts, message, data)
    {
      Emit("error", ts, message, data);
    }

    method Warn(ts: string, message: string, data: Option<string>)
      modifies this
      ensures fileText == old(fileText) + Entry("warn", ts, message, data)
    {
      Emit("warn", ts, message, data);
    }

    method Info(ts: string, message: string, data: Option<string>)
      modifies this
      ensures fileText == old(fileText) + Entry("info", ts, message, data)
    {
      Emit("info", ts, message, data);
    }

    method Debug(ts: string, message: string, data: Option<string>)
      modifies this
      ensures fileText == old(fileText) + Entry("debug", ts, message, data)
    {
      Emit("debug", ts, message, data);
    }

    /** `success` is gated like `info` and its entries are labelled `INFO`. */
    method Success(ts: string, message: string, data: Option<string>)
      modifies this
      ensures fileText == old(fileText) + Entry("info", ts, message, data)
    {
      Emit("info", ts, message, data);
    }
  }

  /** Under a valid threshold with file logging on and working, an error
      entry is always written, as its formatted line. */
  lemma ErrorsReachTheFile(l: Logger, ts: string, message: string, data: Option<string>)
    requires l.logToFile && !l.appendFails && Rank(l.logLevel).Some?
    ensures l.Entry("error", ts, message, data) == FormatMessage(ts, "error", message, data) + "\n"
  {
  }
}
