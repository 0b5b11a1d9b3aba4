/** The background workers of the interaction phase: one `run_backend` task
    per roster user, later cancelled and awaited by
    `cleanup_backend_processes`. */
module Supervisor {

  /** How a worker responds when it is awaited after a cancellation request:
      it ends with `CancelledError`, it raises another error, or it had
      already returned normally. */
  datatype Reaction = EndsCancelled | RaisesError | AlreadyReturned

  /** What cleanup reports for the worker at a 1-based position. */
  datatype CleanupNote = Cancelled(position: nat) | CleanupError(position: nat) | Quiet

  /** A task handle created by `asyncio.create_task`. */
  class Task {
    const userId: string
    const agentId: string
    /** The worker's response to being awaited after cancellation. */
    const reaction: Reaction
    /** How many times cancellation was requested on this handle. */
    var cancelRequests: nat

    constructor (userId: string, agentId: string, reaction: Reaction)
      ensures this.userId == userId && this.agentId == agentId && this.reaction == reaction
      ensures cancelRequests == 0
    {
      this.userId := userId;
      this.agentId := agentId;
      this.reaction := reaction;
      cancelRequests := 0;
    }

    /** Requests cancellation of the worker. */
    method Cancel()
      modifies this
      ensures cancelRequests == old(cancelRequests) + 1
    {
      cancelRequests := cancelRequests + 1;
    }
  }

  /** The note for awaiting a cancelled worker: the `CancelledError` branch,
      the `except Exception` branch, or nothing when the await returns. */
  function NoteFor(reaction: Reaction, position: nat): (n: CleanupNote)
    ensures n.Quiet? <==> reaction == AlreadyReturned
    ensures n.Cancelled? <==> reaction == EndsCancelled
    ensures !n.Quiet? ==> n.position == position
  {
    match reaction
    case EndsCancelled => Cancelled(position)
    case RaisesError => CleanupError(position)
    case AlreadyReturned => Quiet
  }

  /** The notes cleanup produces for a list of reactions, positions from `first` on. */
  function Notes(reactions: seq<Reaction>, first: nat): (ns: seq<CleanupNote>)
    ensures |ns| == |reactions|
    ensures forall k :: 0 <= k < |reactions| ==> ns[k] == NoteFor(reactions[k], first + k)
  {
    if reactions == [] then [] else [NoteFor(reactions[0], first)] + Notes(reactions[1..], first + 1)
  }

  /** The reactions of a list of handles, in order. */
  function Reactions(tasks: seq<Task>): (rs: seq<Reaction>)
    ensures |rs| == |tasks|
    ensures forall k :: 0 <= k < |tasks| ==> rs[k] == tasks[k].reaction
  {
    if tasks == [] then [] else [tasks[0].reaction] + Reactions(tasks[1..])
  }

  /** Pairwise distinct handles. */
  predicate DistinctTasks(tasks: seq<Task>)
  {
    forall i, j :: 0 <= i < j < |tasks| ==> tasks[i] != tasks[j]
  }
}
