/** The bounded short-form log (`logEvent`). */
module EventLog {
  import opened SimState

  function Min(a: int, b: int): int {
    if a <= b then a else b
  }

  /** The newest entries of `xs`, as many as the log holds, in their order. */
  function Newest(xs: seq<LogEntry>): seq<LogEntry> {
    xs[|xs| - Min(|xs|, LogCapacity)..]
  }

  /** `push` the entry, then `shift` once if the log grew past its capacity. */
  function AppendCapped(log: seq<LogEntry>, e: LogEntry): (r: seq<LogEntry>)
    ensures |r| > 0 && r[|r| - 1] == e
    ensures |r| <= |log| + 1
    ensures |log| <= LogCapacity ==> |r| == Min(|log| + 1, LogCapacity)
  {
    var grown := log + [e];
    if |grown| > LogCapacity then grown[1..] else grown
  }

  /**
   * On a log within capacity, appending keeps exactly the newest entries:
   * when it is full, the oldest entry is the one that goes.
   */
  lemma AppendCappedKeepsNewest(log: seq<LogEntry>, e: LogEntry)
    requires |log| <= LogCapacity
    ensures AppendCapped(log, e) == Newest(log + [e])
    ensures |log| == LogCapacity ==> AppendCapped(log, e) == log[1..] + [e]
  {
  }

  /** Appending to the newest entries of `xs` gives the newest entries of `xs + [e]`. */
  lemma NewestStep(xs: seq<LogEntry>, e: LogEntry)
    ensures AppendCapped(Newest(xs), e) == Newest(xs + [e])
  {
  }

  /** `logEvent(text)`: records the text under the current day and slot. */
  function LogEvent(s: State, text: string): (r: State)
    ensures r.(log := s.log) == s
    ensures r.log == AppendCapped(s.log, LogEntry(s.day, s.slot, text))
    ensures Invariant(s) ==> Invariant(r)
  {
    s.(log := AppendCapped(s.log, LogEntry(s.day, s.slot, text)))
  }

  /** Logging several entries one after another. */
  function LogAll(log: seq<LogEntry>, es: seq<LogEntry>): seq<LogEntry>
    decreases |es|
  {
    if es == [] then log else AppendCapped(LogAll(log, es[..|es| - 1]), es[|es| - 1])
  }

  /**
   * However many entries are logged, the log holds exactly the newest ones,
   * up to its capacity, in order: the oldest are the first to go.
   */
  lemma {:induction false} LogKeepsNewest(log: seq<LogEntry>, es: seq<LogEntry>)
    requires |log| <= LogCapacity
    ensures LogAll(log, es) == Newest(log + es)
    decreases |es|
  {
    if es == [] {
      assert log + es == log;
      assert Newest(log) == log[0..] == log;
    } else {
      var front, e := es[..|es| - 1], es[|es| - 1];
      assert LogAll(log, es) == AppendCapped(LogAll(log, front), e);
      LogKeepsNewest(log, front);
      NewestStep(log + front, e);
      assert es == front + [e];
      assert log + front + [e] == log + es;
    }
  }
}
