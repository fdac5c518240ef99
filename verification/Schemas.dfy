/** The core data objects shared by every component: tasks, statuses, results, runs and
    the events a run publishes. */
module Schemas {

  datatype Option<+T> = None | Some(value: T)

  /** The characters that stripping a string removes. */
  predicate Whitespace(c: char) {
    var n := c as int;
    9 <= n <= 13 || 28 <= n <= 32 || 0x2000 <= n <= 0x200A
    || n in {0x85, 0xA0, 0x1680, 0x2028, 0x2029, 0x202F, 0x205F, 0x3000}
  }

  /** The same characters, one by one: the control characters from tab to carriage return and from file
      separator to unit separator, the next line, and every space, line and paragraph separator. */
  lemma WhitespaceSays(c: char)
    ensures var listed := {0x09, 0x0A, 0x0B, 0x0C, 0x0D, 0x1C, 0x1D, 0x1E, 0x1F, 0x20, 0x85, 0xA0, 0x1680,
                           0x2000, 0x2001, 0x2002, 0x2003, 0x2004, 0x2005, 0x2006, 0x2007, 0x2008, 0x2009,
                           0x200A, 0x2028, 0x2029, 0x202F, 0x205F, 0x3000};
            Whitespace(c) <==> c as int in listed
  {}

  /** Nothing is left of the string when it is stripped. */
  predicate Blank(s: string) {
    forall i :: 0 <= i < |s| ==> Whitespace(s[i])
  }

  /** A task identifier. The planner's three id formats are kept apart as constructors;
      every other string is `Named`. */
  datatype TaskId = Gather | Goal(index: nat) | Verify | Named(name: string)

  datatype TaskStatus = PENDING | READY | RUNNING | COMPLETED | FAILED | BLOCKED | CANCELLED
  {
    predicate Terminal() {
      this == COMPLETED || this == FAILED || this == BLOCKED || this == CANCELLED
    }
  }

  datatype RunStatus = RunRunning | RunCompleted | RunFailed | RunPartial | RunCancelled

  /** A node of a plan. The payload is opaque content carried along. */
  datatype Task = Task(
    id: TaskId,
    capabilityType: string,
    payload: string,
    dependsOn: seq<TaskId>,
    priority: int,
    binding: Option<string>,
    status: TaskStatus)

  /** What a handler hands back; its content is opaque. */
  datatype Value = NoValue | Value(repr: string)

  datatype TaskError = HandlerError(message: string) | BlockedBySecurity | NoHandler

  /** What one invocation of a handler gives back. */
  datatype Outcome = Returned(output: Value) | Raised(message: string)

  datatype TaskResult = TaskResult(
    status: TaskStatus,
    output: Value,
    error: Option<TaskError>,
    attempts: nat)

  /** Events a run publishes, in the order of the bus log. */
  datatype Event =
    | EvRunResumed(restored: set<TaskId>)
    | EvRunStarted
    | EvTaskStarted(task: TaskId)
    | EvSecurityBlocked(task: TaskId)
    | EvTaskRetried(task: TaskId, attempt: nat)
    | EvTaskFailed(task: TaskId)
    | EvTaskCompleted(task: TaskId)
    | EvCheckpointed(completedCount: nat)
    | EvRunCompleted
    | EvRunFailed
    | EvRunCancelled

  /** The record of one run. */
  datatype Run = Run(
    status: RunStatus,
    results: map<TaskId, TaskResult>,
    trace: seq<Event>)
}
