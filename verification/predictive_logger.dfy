/** `Log::PredictiveLogger`: a file logger that holds back the most recent
    lines and writes them out only once an error is signalled, then writes
    straight through for five minutes. Each operation returns the new state
    together with the lines it wrote, in order; the clock is a parameter in
    milliseconds and the formatted timestamp of the line is another. */
module PredictiveLogger {
  import opened CarbonData
  import opened LoggerBase

  /** How many lines are held back. */
  const Capacity: nat := 100

  /** How long error mode lasts, in milliseconds. */
  const ErrorModeSpan: int := 1000 * 60 * 5

  datatype State = State(buffer: seq<string>, errorMode: bool, until: DateTime)

  /** A fresh logger: nothing held back, not in error mode. */
  function Init(): (s: State)
    ensures s.buffer == [] && !s.errorMode
  {
    State([], false, NullDate)
  }

  /** The last `n` elements of `s` (all of them when there are fewer). */
  function LastN(s: seq<string>, n: nat): (r: seq<string>)
    ensures |r| == if |s| <= n then |s| else n
    ensures r == s[|s| - |r|..]
  {
    if |s| <= n then s else s[|s| - n..]
  }

  /** `storeMessage`: appends the line and drops the oldest one once more
      than `Capacity` are held. */
  function StoreMessage(s: State, line: string): (r: State)
    ensures r.errorMode == s.errorMode && r.until == s.until
    ensures |s.buffer| <= Capacity ==> r.buffer == LastN(s.buffer + [line], Capacity)
    ensures |r.buffer| > 0 && r.buffer[|r.buffer| - 1] == line
  {
    var appended := s.buffer + [line];
    if |appended| > Capacity then s.(buffer := appended[1..]) else s.(buffer := appended)
  }

  /** Storing several lines one after another. */
  function StoreAll(s: State, lines: seq<string>): State
    decreases |lines|
  {
    if lines == [] then s else StoreAll(StoreMessage(s, lines[0]), lines[1..])
  }

  /** Whatever is stored, the buffer holds exactly the most recent
      `Capacity` lines in their original order. */
  lemma {:induction false} StoreAllKeepsMostRecent(s: State, lines: seq<string>)
    requires |s.buffer| <= Capacity
    ensures StoreAll(s, lines).buffer == LastN(s.buffer + lines, Capacity)
    ensures StoreAll(s, lines).errorMode == s.errorMode
    decreases |lines|
  {
    if lines == [] {
      assert s.buffer + lines == s.buffer;
    } else {
      var s1 := StoreMessage(s, lines[0]);
      assert StoreAll(s, lines) == StoreAll(s1, lines[1..]);
      StoreAllKeepsMostRecent(s1, lines[1..]);
      AppendAfterStore(s.buffer, lines);
    }
  }

  /** One store followed by the rest of the lines sees the same last
      `Capacity` lines as the whole input. */
  lemma AppendAfterStore(buffer: seq<string>, lines: seq<string>)
    requires |buffer| <= Capacity && lines != []
    ensures LastN(LastN(buffer + [lines[0]], Capacity) + lines[1..], Capacity)
         == LastN(buffer + lines, Capacity)
  {
    var all := buffer + lines;
    var mid := buffer + [lines[0]];
    assert all == mid + lines[1..];
    var kept := LastN(mid, Capacity);
    var k := |mid| - |kept|;
    assert kept + lines[1..] == all[k..];
    LastNOfSuffix(all, k, Capacity);
  }

  /** Dropping a prefix that the last `n` elements do not reach changes
      nothing about them. */
  lemma LastNOfSuffix(a: seq<string>, k: nat, n: nat)
    requires k <= |a|
    requires k == 0 || |a| - k >= n
    ensures LastN(a[k..], n) == LastN(a, n)
  {
    if k > 0 {
      assert a[k..][|a| - k - n..] == a[|a| - n..];
    }
  }

  /** `onError`: enters error mode until five minutes from now and writes
      out every held-back line, oldest first. */
  function OnError(s: State, now: int): (r: (State, seq<string>))
    ensures r.0.errorMode && r.0.until == At(now + ErrorModeSpan)
    ensures r.0.buffer == []
    ensures r.1 == s.buffer
  {
    (State([], true, At(now + ErrorModeSpan)), s.buffer)
  }

  /** `checkErrorMode`: error mode ends once its deadline is not after the
      current time. */
  function CheckErrorMode(s: State, now: int): (r: State)
    ensures r.buffer == s.buffer && r.until == s.until
    ensures r.errorMode <==> s.errorMode && After(s.until, At(now))
  {
    if s.errorMode && !After(s.until, At(now)) then s.(errorMode := false) else s
  }

  /** `logMessage`: in error mode the line is written at once; otherwise
      it is held back. */
  function LogMessage(s: State, now: int, timestamp: string, call: LogCall): (r: (State, seq<string>))
    ensures var line := MakeMessage(timestamp, call);
      && (s.errorMode && After(s.until, At(now)) ==> r.1 == [line] && r.0 == s)
      && (!(s.errorMode && After(s.until, At(now))) ==>
            r.1 == [] && !r.0.errorMode &&
            (|s.buffer| <= Capacity ==> r.0.buffer == LastN(s.buffer + [line], Capacity)))
  {
    var checked := CheckErrorMode(s, now);
    var line := MakeMessage(timestamp, call);
    if checked.errorMode then (checked, [line])
    else (StoreMessage(checked, line), [])
  }

  /** A sequence of log calls, each with its time and timestamp; returns the
      final state and every line written. */
  function LogAll(s: State, calls: seq<(int, string, LogCall)>): (State, seq<string>)
    decreases |calls|
  {
    if calls == [] then (s, [])
    else
      var (now, timestamp, call) := calls[0];
      var (s1, out1) := LogMessage(s, now, timestamp, call);
      var (s2, out2) := LogAll(s1, calls[1..]);
      (s2, out1 + out2)
  }

  /** Without an error signal nothing is ever written: a logger outside
      error mode only holds back lines, never more than `Capacity`. */
  lemma {:induction false} QuietWithoutError(s: State, calls: seq<(int, string, LogCall)>)
    requires !s.errorMode && |s.buffer| <= Capacity
    ensures LogAll(s, calls).1 == []
    ensures !LogAll(s, calls).0.errorMode && |LogAll(s, calls).0.buffer| <= Capacity
    decreases |calls|
  {
    if calls != [] {
      var (now, timestamp, call) := calls[0];
      var s1 := LogMessage(s, now, timestamp, call).0;
      QuietWithoutError(s1, calls[1..]);
    }
  }

  /** After an error, a line logged before the five minutes are up goes
      straight out; one logged at or after the deadline is held back. */
  lemma ErrorModeWindow(s: State, t: int, now: int, timestamp: string, call: LogCall)
    ensures var e := OnError(s, t).0;
      var line := MakeMessage(timestamp, call);
      && (now < t + ErrorModeSpan ==> LogMessage(e, now, timestamp, call).1 == [line])
      && (now >= t + ErrorModeSpan ==>
            (LogMessage(e, now, timestamp, call).1 == [] && LogMessage(e, now, timestamp, call).0.buffer == [line]))
  {
  }
}
