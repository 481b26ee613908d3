/** How a runtime is asked about a task. */
module Polling {
  /** Return only when the task has completed, start deferred work but never block,
      or only look. */
  datatype Mode = BLOCK | PROGRESS | CHECK

  /** A runtime asked about one of its tasks. */
  datatype Poll = Poll(task: nat, mode: Mode)
}
