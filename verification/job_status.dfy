/** The Batch service's job states, `JobStatus.State`, as ordered integer
    ranks. The scheduler compares them as numbers (`status < 4`, `min`). */
module JobStatus {

  /** A job state rank, UNSPECIFIED (0) to DELETION_IN_PROGRESS (6). */
  type Rank = r: int | 0 <= r <= 6

  const Unspecified: Rank := 0
  const Queued: Rank := 1
  const Scheduled: Rank := 2
  const Running: Rank := 3
  const Succeeded: Rank := 4
  const Failed: Rank := 5
  const DeletionInProgress: Rank := 6

  /** State names, indexed by rank. */
  const StateNames: seq<string> :=
    ["UNSPECIFIED", "QUEUED", "SCHEDULED", "RUNNING",
     "SUCCEEDED", "FAILED", "DELETION_IN_PROGRESS"]

  function StateName(r: Rank): string {
    StateNames[r]
  }

  /** A state from which the scheduler no longer polls the job. */
  predicate IsTerminal(r: Rank) {
    r >= Succeeded
  }
}
