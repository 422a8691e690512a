/** `Log::LogManager`: the registry of loggers every log call fans out to.
    A logger is identified by its address. */
module LogManager {
  import opened LoggerBase

  type LoggerId = nat

  predicate NoDuplicates(ls: seq<LoggerId>) {
    forall i, j :: 0 <= i < j < |ls| ==> ls[i] != ls[j]
  }

  /** `registerLogger`: appends a logger not yet registered; registering
      one twice changes nothing. */
  function RegisterLogger(ls: seq<LoggerId>, l: LoggerId): (r: seq<LoggerId>)
    ensures l in r
    ensures l in ls ==> r == ls
    ensures l !in ls ==> r == ls + [l]
    ensures NoDuplicates(ls) ==> NoDuplicates(r)
  {
    if l in ls then ls else ls + [l]
  }

  function RegisterAll(ls: seq<LoggerId>, xs: seq<LoggerId>): seq<LoggerId>
    decreases |xs|
  {
    if xs == [] then ls else RegisterAll(RegisterLogger(ls, xs[0]), xs[1..])
  }

  /** Registering any sequence of loggers yields each of them, and each
      earlier one, exactly once. */
  lemma {:induction false} RegisterAllIsASet(ls: seq<LoggerId>, xs: seq<LoggerId>)
    requires NoDuplicates(ls)
    ensures NoDuplicates(RegisterAll(ls, xs))
    ensures forall l :: l in RegisterAll(ls, xs) <==> l in ls || l in xs
    ensures |RegisterAll(ls, xs)| >= |ls| && RegisterAll(ls, xs)[..|ls|] == ls
    decreases |xs|
  {
    if xs != [] {
      var ls1 := RegisterLogger(ls, xs[0]);
      RegisterAllIsASet(ls1, xs[1..]);
      assert forall l :: l in xs <==> l == xs[0] || l in xs[1..];
      assert ls1[..|ls|] == ls;
    }
  }

  /** `logMessage`: every registered logger receives the call once, in
      registration order. */
  function LogMessage(ls: seq<LoggerId>, call: LogCall): (r: seq<(LoggerId, LogCall)>)
    ensures |r| == |ls|
    ensures forall i :: 0 <= i < |r| ==> r[i].1 == call
    ensures forall i :: 0 <= i < |r| ==> r[i].0 == ls[i]
    decreases |ls|
  {
    if ls == [] then [] else [(ls[0], call)] + LogMessage(ls[1..], call)
  }

  /** Once loggers are registered through `RegisterLogger`, each of them
      receives a call exactly once. */
  lemma DeliveredOnce(xs: seq<LoggerId>, call: LogCall, l: LoggerId, i: nat, j: nat)
    requires var d := LogMessage(RegisterAll([], xs), call);
      i < |d| && j < |d| && d[i].0 == l && d[j].0 == l
    ensures i == j
  {
    RegisterAllIsASet([], xs);
  }
}

/** `Log::LogFilterBase` and `Log::LogFilterByFile`: a logger that passes a
    call on to the logger it wraps only when its test accepts the call. */
module LogFilter {
  import opened Wrappers
  import opened LoggerBase
  import Text
  import LogManager

  type LoggerId = LogManager.LoggerId

  /** `LogFilterBase::logMessage`: forwards the call unchanged to the
      wrapped logger when there is one and the test accepts the call. */
  function FilterLog(inner: Option<LoggerId>, accepted: bool, call: LogCall): (r: seq<(LoggerId, LogCall)>)
    ensures |r| <= 1
    ensures r != [] <==> inner.Some? && accepted
    ensures r != [] ==> r[0] == (inner.value, call)
  {
    if inner.None? || !accepted then [] else [(inner.value, call)]
  }

  /** `LogFilterByFile::canLogMessage`: the call's file path contains the
      filter's file name; the other arguments play no part. */
  function CanLogByFile(fileName: string, call: LogCall): (r: bool)
    ensures r <==> Text.IsSubstring(fileName, call.file)
  {
    Text.Contains(call.file, fileName)
  }

  /** A file filter in front of a logger. */
  function LogByFile(fileName: string, inner: Option<LoggerId>, call: LogCall): (r: seq<(LoggerId, LogCall)>)
    ensures r != [] <==> inner.Some? && Text.IsSubstring(fileName, call.file)
    ensures |r| <= 1
    ensures r != [] ==> r == [(inner.value, call)]
  {
    FilterLog(inner, CanLogByFile(fileName, call), call)
  }

  /** The file filter decides on the file path alone: two calls from the
      same file fare alike, whatever their method, line, type and text. */
  lemma FileFilterIgnoresTheRest(fileName: string, a: LogCall, b: LogCall)
    requires a.file == b.file
    ensures CanLogByFile(fileName, a) == CanLogByFile(fileName, b)
  {
  }

  /** An empty file name lets every call through; a file name longer than
      the path lets none through. */
  lemma FileFilterExtremes(fileName: string, call: LogCall)
    ensures fileName == [] ==> CanLogByFile(fileName, call)
    ensures |fileName| > |call.file| ==> !CanLogByFile(fileName, call)
  {
    if fileName == [] {
      assert Text.OccursAt(call.file, fileName, 0);
    }
  }
}
