/** debugLog (app.js): a log of the most recent debug messages, kept by
    pushing each entry and then shifting the oldest out past 20. */
module DebugLog {
  import opened Js

  const MaxEntries: nat := 20

  /** `[<timestamp>] <message>`; the timestamp comes from the clock. */
  function LogEntry(timestamp: string, message: string): string {
    "[" + timestamp + "] " + message
  }

  /** The last `MaxEntries` elements of `s`, in order. */
  function Recent(s: seq<string>): (r: seq<string>)
    ensures |r| == if |s| <= MaxEntries then |s| else MaxEntries
  {
    if |s| <= MaxEntries then s else s[|s| - MaxEntries..]
  }

  /** Push the entry, then shift one out if the log is over the cap. */
  function Append(logs: seq<string>, entry: string): (r: seq<string>)
    ensures |logs| <= MaxEntries ==> |r| <= MaxEntries && r == Recent(logs + [entry])
  {
    var pushed := logs + [entry];
    if |pushed| > MaxEntries then pushed[1..] else pushed
  }

  /** The log after a series of debugLog calls. */
  function AppendAll(logs: seq<string>, entries: seq<string>): seq<string>
    decreases |entries|
  {
    if entries == [] then logs else AppendAll(Append(logs, entries[0]), entries[1..])
  }

  /** However many entries arrive, the log holds at most 20 of them: the most
      recent ones, in arrival order. */
  lemma {:induction false} AppendAllKeepsRecent(logs: seq<string>, entries: seq<string>)
    requires |logs| <= MaxEntries
    ensures |AppendAll(logs, entries)| <= MaxEntries
    ensures AppendAll(logs, entries) == Recent(logs + entries)
    decreases |entries|
  {
    if entries == [] {
      assert logs + entries == logs;
    } else {
      var next := Append(logs, entries[0]);
      AppendAllKeepsRecent(next, entries[1..]);
      RecentOfRecent(logs + [entries[0]], entries[1..]);
      assert logs + [entries[0]] + entries[1..] == logs + entries;
    }
  }

  /** Forgetting old entries early does not change which entries are the
      most recent ones later. */
  lemma RecentOfRecent(s: seq<string>, t: seq<string>)
    ensures Recent(Recent(s) + t) == Recent(s + t)
  {
    if |s| > MaxEntries {
      var k := |s| - MaxEntries;
      assert s + t == s[..k] + (s[k..] + t);
      assert (s + t)[k..] == s[k..] + t;
    }
  }

  /** Messages that also raise a toast. */
  predicate ShowsToast(message: string) {
    Includes(message, "share-target") || Includes(message, "Shared")
  }
}
