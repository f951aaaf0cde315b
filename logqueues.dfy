/** The per-session log channel (app/utils/log_handler.py): a registry from session id to a
    first-in first-out queue of log entries, filled by a logging handler bound to one session and
    drained by the progress stream. */
module SessionLogs {
  import opened Wrappers

  /** The record `emit` puts on a queue: the level name, the formatted message and the
      record's creation time. */
  datatype LogEntry = LogEntry(level: string, message: string, timestamp: real)

  /** `queue.Queue` as used here: `put` at the back, `get` from the front. */
  class LogQueue {
    var entries: seq<LogEntry>

    constructor ()
      ensures entries == []
    {
      entries := [];
    }

    /** `put`: the entry goes to the back. */
    method Put(entry: LogEntry)
      modifies this
      ensures entries == old(entries) + [entry]
    {
      entries := entries + [entry];
    }

    /** `get` with a timeout: the front entry, or `None` (`queue.Empty`) when there is none. */
    method Get() returns (entry: Option<LogEntry>)
      modifies this
      ensures old(entries) == [] ==> entry == None && entries == []
      ensures old(entries) != [] ==> entry == Some(old(entries)[0]) && entries == old(entries)[1..]
    {
      if entries == [] {
        entry := None;
      } else {
        entry := Some(entries[0]);
        entries := entries[1..];
      }
    }

    /** Calling `get` until it reports the queue empty yields the entries in the order they were
        put. */
    method Drain() returns (taken: seq<LogEntry>)
      modifies this
      ensures taken == old(entries) && entries == []
    {
      taken := [];
      var next := Get();
      while next.Some?
        invariant taken + (if next.Some? then [next.value] else []) + entries == old(entries)
        invariant next.None? ==> entries == []
        decreases |entries| + (if next.Some? then 1 else 0)
      {
        taken := taken + [next.value];
        next := Get();
      }
    }
  }

  /** `log_queues` with `create_session`, `get_log_queue` and `cleanup_session`. */
  class LogRegistry {
    var queues: map<string, LogQueue>

    constructor ()
      ensures queues == map[]
    {
      queues := map[];
    }

    /** `create_session`: register a new id with an empty queue. The id is `str(uuid.uuid4())`
        in the code; here it is the caller's `uuid`. */
    method CreateSession(uuid: string) returns (sessionId: string)
      modifies this
      ensures sessionId == uuid && sessionId in queues
      ensures fresh(queues[sessionId]) && queues[sessionId].entries == []
      ensures queues == old(queues)[sessionId := queues[sessionId]]
    {
      sessionId := uuid;
      var q := new LogQueue();
      queues := queues[sessionId := q];
    }

    /** `get_log_queue`: the session's queue, or `None` for an unknown id. */
    method GetLogQueue(sessionId: string) returns (q: Option<LogQueue>)
      ensures sessionId in queues ==> q == Some(queues[sessionId])
      ensures sessionId !in queues ==> q == None
    {
      if sessionId in queues {
        q := Some(queues[sessionId]);
      } else {
        q := None;
      }
    }

    /** `cleanup_session`: forget the session's queue, if it has one. */
    method CleanupSession(sessionId: string)
      modifies this
      ensures queues == old(queues) - {sessionId}
    {
      if sessionId in queues {
        queues := queues - {sessionId};
      }
    }
  }

  /** `SSELogHandler`: a logging handler that forwards records to one session's queue. */
  class SessionHandler {
    const sessionId: string
    const registry: LogRegistry

    /** The handler creates the session's queue only when there is none; an existing queue and
        the entries it holds are kept. */
    constructor (registry: LogRegistry, sessionId: string)
      modifies registry
      ensures this.registry == registry && this.sessionId == sessionId
      ensures sessionId in old(registry.queues) ==> registry.queues == old(registry.queues)
      ensures sessionId !in old(registry.queues) ==>
        && sessionId in registry.queues
        && registry.queues == old(registry.queues)[sessionId := registry.queues[sessionId]]
        && fresh(registry.queues[sessionId]) && registry.queues[sessionId].entries == []
    {
      this.registry := registry;
      this.sessionId := sessionId;
      if sessionId !in registry.queues {
        var q := new LogQueue();
        registry.queues := registry.queues[sessionId := q];
      }
    }

    /** `emit`: append one entry to the session's queue while the session is registered; after
        `cleanup_session` the record is dropped. Nothing but that one queue changes. */
    method Emit(level: string, message: string, timestamp: real)
      modifies if sessionId in registry.queues then {registry.queues[sessionId]} else {}
      ensures sessionId in registry.queues ==>
        registry.queues[sessionId].entries == old(registry.queues[sessionId].entries) + [LogEntry(level, message, timestamp)]
    {
      if sessionId in registry.queues {
        registry.queues[sessionId].Put(LogEntry(level, message, timestamp));
      }
    }
  }
}
