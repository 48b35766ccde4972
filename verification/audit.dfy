/** The audit trail (apps/backend/src/modules/audit/audit.service.ts),
    local branch: events are appended to an in-memory log and listed newest
    first. Whether the remote insert succeeds is a parameter; the local log
    does not depend on it. */
module Audit {
  import opened Wrappers
  import opened Js
  import opened HttpTypes

  /** The closed set of audited actions. */
  datatype Action = LoginSuccess | LoginFailed | AccessDenied | ViewSecret | Create | Update | Delete

  function ActionName(a: Action): string {
    match a
    case LoginSuccess => "login_success"
    case LoginFailed => "login_failed"
    case AccessDenied => "access_denied"
    case ViewSecret => "view_secret"
    case Create => "create"
    case Update => "update"
    case Delete => "delete"
  }

  /** Distinct actions are recorded under distinct names. */
  lemma ActionNamesDistinct(a: Action, b: Action)
    requires a != b
    ensures ActionName(a) != ActionName(b)
  {
  }

  /** The context of an `access_denied` event: the roles the route admits
      and the role that was refused. */
  datatype DeniedContext = DeniedContext(required: seq<Role>, role: Role)

  /** What a caller hands to `record`. `resourceId` is whatever value the
      route passes, `undefined` when it passes none. */
  datatype AuditInput = AuditInput(
    actorId: Option<string>,
    actorEmail: Option<string>,
    action: Action,
    resource: string,
    resourceId: JsValue,
    context: Option<DeniedContext>)

  datatype AuditEvent = AuditEvent(input: AuditInput, timestamp: string)

  type Log = seq<AuditEvent>

  /** What became of the attempt to persist the event remotely: no service
      client is configured, the insert succeeded, or it threw. */
  datatype Persistence = NoClient | Stored | Failed

  /** `record`: stamp the event, append it to the local log, insert it into
      the remote table when a client is configured, swallow a failed
      insert, and return the stamped event. The result is the new local
      log, the new remote table and the event. */
  function Record(log: Log, table: seq<AuditEvent>, input: AuditInput, timestamp: string, remote: Persistence)
    : (r: (Log, seq<AuditEvent>, AuditEvent))
    ensures |r.0| == |log| + 1 && r.0[..|log|] == log
    ensures r.0[|log|] == r.2
    ensures r.2.input == input && r.2.timestamp == timestamp
    ensures remote == Stored ==> r.1 == table + [r.2]
    ensures remote != Stored ==> r.1 == table
  {
    var event := AuditEvent(input, timestamp);
    var table' := match remote
      case Stored => table + [event]
      case NoClient => table
      case Failed => table;
    (log + [event], table', event)
  }

  /** A failed or absent remote store changes neither the local log nor
      the returned event; only a successful insert reaches the table. */
  lemma RecordIgnoresRemote(log: Log, table: seq<AuditEvent>, input: AuditInput, timestamp: string,
                            p: Persistence, q: Persistence)
    ensures Record(log, table, input, timestamp, p).0 == Record(log, table, input, timestamp, q).0
    ensures Record(log, table, input, timestamp, p).2 == Record(log, table, input, timestamp, q).2
    ensures Record(log, table, input, timestamp, Failed).1 == Record(log, table, input, timestamp, NoClient).1 == table
  {
  }

  /** Append every input a route emitted, all with one timestamp. */
  function RecordAll(log: Log, inputs: seq<AuditInput>, timestamp: string): (r: Log)
    ensures |r| == |log| + |inputs|
    ensures r[..|log|] == log
    ensures forall i :: 0 <= i < |inputs| ==> r[|log| + i] == AuditEvent(inputs[i], timestamp)
    decreases |inputs|
  {
    if |inputs| == 0 then log
    else RecordAll(Record(log, [], inputs[0], timestamp, NoClient).0, inputs[1..], timestamp)
  }

  /** `list`, local branch: the log reversed, newest first. */
  function List(log: Log): (r: seq<AuditEvent>)
    ensures |r| == |log|
    ensures forall i :: 0 <= i < |log| ==> r[i] == log[|log| - 1 - i]
  {
    seq(|log|, i requires 0 <= i < |log| => log[|log| - 1 - i])
  }

  /** The event just recorded heads the listing, followed by the earlier
      listing unchanged. */
  lemma ListAfterRecord(log: Log, table: seq<AuditEvent>, input: AuditInput, timestamp: string, remote: Persistence)
    ensures List(Record(log, table, input, timestamp, remote).0) == [AuditEvent(input, timestamp)] + List(log)
  {
    var r := List(Record(log, table, input, timestamp, remote).0);
    var e := [AuditEvent(input, timestamp)] + List(log);
    assert |r| == |e|;
    forall i | 0 <= i < |r|
      ensures r[i] == e[i]
    {
      if i > 0 {
        assert e[i] == List(log)[i - 1];
      }
    }
  }

  /** Listing twice restores the recording order. */
  lemma ListTwice(log: Log)
    ensures List(List(log)) == log
  {
  }
}
