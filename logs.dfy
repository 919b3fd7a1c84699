// The logs a card keeps of its charges (TreeMap<LocalDateTime, Double>):
// entries in increasing order of time, at most one per instant, amounts in
// cents.

module Logs {
  import opened Wrappers
  import opened Clock

  datatype Entry = Entry(time: DateTime, amount: int)

  type Log = seq<Entry>

  /** Strictly increasing times: the iteration order of the TreeMap, and one entry per key. */
  predicate Sorted(log: Log)
  {
    forall i, j :: 0 <= i < j < |log| ==> log[i].time < log[j].time
  }

  /** Map.get. */
  function Get(log: Log, time: DateTime): Option<int>
  {
    if log == [] then None
    else if log[0].time == time then Some(log[0].amount)
    else Get(log[1..], time)
  }

  /** Map.put: a new instant is inserted in order; an instant already present has its amount replaced. */
  function Put(log: Log, time: DateTime, amount: int): (r: Log)
  {
    if log == [] then [Entry(time, amount)]
    else if log[0].time == time then [Entry(time, amount)] + log[1..]
    else if time < log[0].time then [Entry(time, amount)] + log
    else [log[0]] + Put(log[1..], time, amount)
  }

  /** Every entry Put leaves is the new one or one of the old ones. */
  lemma {:induction false} PutFrom(log: Log, time: DateTime, amount: int)
    ensures forall k :: 0 <= k < |Put(log, time, amount)| ==>
      Put(log, time, amount)[k] == Entry(time, amount) || Put(log, time, amount)[k] in log
  {
    if log != [] && log[0].time != time && time >= log[0].time {
      PutFrom(log[1..], time, amount);
    }
  }

  /** put keeps the log in order of time. */
  lemma {:induction false} PutSorted(log: Log, time: DateTime, amount: int)
    ensures Sorted(log) ==> Sorted(Put(log, time, amount))
  {
    if Sorted(log) && log != [] && log[0].time != time && time >= log[0].time {
      var rest := Put(log[1..], time, amount);
      PutSorted(log[1..], time, amount);
      PutFrom(log[1..], time, amount);
      forall k | 0 <= k < |rest| ensures log[0].time < rest[k].time {
        if rest[k] != Entry(time, amount) {
          var i :| 0 <= i < |log[1..]| && log[1..][i] == rest[k];
          assert log[i + 1] == rest[k];
        }
      }
      var r := [log[0]] + rest;
      assert r[1..] == rest;
    }
  }

  /**
   * get after put: the new amount at that instant, the old amounts at every
   * other instant.
   */
  lemma {:induction false} PutGet(log: Log, time: DateTime, amount: int, u: DateTime)
    ensures Get(Put(log, time, amount), u) == if u == time then Some(amount) else Get(log, u)
  {
    if log != [] && log[0].time != time && time >= log[0].time {
      PutGet(log[1..], time, amount, u);
    }
  }

  /** The log grows by one entry exactly when the instant is new. */
  lemma {:induction false} PutLength(log: Log, time: DateTime, amount: int)
    requires Sorted(log)
    ensures |Put(log, time, amount)| == |log| + (if Get(log, time).Some? then 0 else 1)
  {
    if log != [] && log[0].time != time {
      if time < log[0].time {
        assert Get(log, time).None? by {
          GetAbove(log, time);
        }
      } else {
        PutLength(log[1..], time, amount);
      }
    }
  }

  /** An instant before the first entry has no entry. */
  lemma {:induction false} GetAbove(log: Log, time: DateTime)
    requires Sorted(log) && (log == [] || time < log[0].time)
    ensures Get(log, time).None?
  {
    if log != [] {
      GetAbove(log[1..], time);
    }
  }

  /** The total of the amounts whose instant satisfies the filter. */
  function SumWhere(log: Log, keep: DateTime -> bool): int
  {
    if log == [] then 0
    else SumWhere(log[..|log| - 1], keep) + (if keep(log[|log| - 1].time) then log[|log| - 1].amount else 0)
  }
}
