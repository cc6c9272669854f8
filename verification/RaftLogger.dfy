/**
 `raft_logger.cpp`: the log vector with 1-based access.  A lookup that throws
 "No Such Log" answers `None`.  Index 0 passes the source's guard on a non-empty
 log and reads before the vector, so callers must not ask for it.
 */
module RaftLog {
  import opened RaftTypes

  predicate Addressable(log: seq<Entry>, idx: int) {
    idx != 0 || log == []
  }

  function LogGet(log: seq<Entry>, idx: int): (r: Option<Entry>)
    requires Addressable(log, idx)
    ensures r.Some? <==> 1 <= idx <= |log|
    ensures r.Some? ==> r.value == log[idx - 1]
  {
    if log == [] || idx < 0 || idx > |log| then None else Some(log[idx - 1])
  }

  function Acked(log: seq<Entry>, idx: int): seq<Entry>
    requires 1 <= idx <= |log|
  {
    log[idx - 1 := log[idx - 1].(acks := log[idx - 1].acks + 1)]
  }

  class RaftLogger {
    var entries: seq<Entry>

    constructor ()
      ensures entries == []
    {
      entries := [];
    }

    /** `log_append_entry`: id 0 is refused, the counter restarts at 0. */
    method Append(c: Entry) returns (ok: bool)
      modifies this
      ensures ok <==> c.id != 0
      ensures entries == if ok then old(entries) + [c.(acks := 0)] else old(entries)
    {
      if c.id == 0 { return false; }
      entries := entries + [c];
      entries := entries[|entries| - 1 := entries[|entries| - 1].(acks := 0)];
      return true;
    }

    method GetFromIdx(idx: int) returns (r: Option<Entry>)
      requires Addressable(entries, idx)
      ensures r == LogGet(entries, idx)
    {
      if entries == [] || idx < 0 || idx > |entries| {
        r := None;
      } else {
        r := Some(entries[idx - 1]);
      }
    }

    /** `log_delete`: entry `idx` and everything after it. */
    method DeleteFrom(idx: int)
      requires 1 <= idx <= |entries| + 1
      modifies this
      ensures entries == old(entries)[..idx - 1]
    {
      entries := entries[..idx - 1];
    }

    method PeekTail() returns (r: Option<Entry>)
      ensures r == LogGet(entries, if entries == [] then 1 else |entries|)
    {
      r := if entries != [] then Some(entries[|entries| - 1]) else None;
    }

    /** `log_mark_node_has_committed` */
    method MarkNodeHasCommitted(idx: int) returns (found: bool)
      requires Addressable(entries, idx)
      modifies this
      ensures found <==> 1 <= idx <= |old(entries)|
      ensures entries == if found then Acked(old(entries), idx) else old(entries)
    {
      var e := GetFromIdx(idx);
      if e.None? { return false; }
      entries := entries[idx - 1 := e.value.(acks := e.value.acks + 1)];
      return true;
    }
  }
}
