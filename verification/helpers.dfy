/** The dashboard's status tables (helpers.py): a coloured label and a help
    sentence per job state rank. */
module Helpers {
  import opened JobStatus

  /** The colour the dashboard gives each rank. */
  function Colour(r: Rank): string {
    if r <= Scheduled then "gray"
    else if r == Running then "orange"
    else if r == Succeeded then "green"
    else "red"
  }

  const StatusLabels: seq<string> :=
    [":gray[UNSPECIFIED]", ":gray[QUEUED]", ":gray[SCHEDULED]", ":orange[RUNNING]",
     ":green[SUCCEEDED]", ":red[FAILED]", ":red[DELETION_IN_PROGRESS]"]

  /** What the SUCCEEDED help sentence promises is available. */
  const OutputsPhrase := "results and metrics"

  const SucceededHelp := "The job has succeeded. The " + OutputsPhrase + " should be available."

  const RunningHelp := "The job is running."

  const StatusHelp: seq<string> := [
    "The status is unspecified. If it won't change in a few minutes it means that there are some technical issues.",
    "The job is waiting to be allocated on a machine.",
    "The job is currently being allocated on a machine.",
    RunningHelp,
    SucceededHelp,
    "The job couldn't succeeded. Please check the logs to identify the issue.",
    "The job is being deleted."
  ]

  /** `sub` occurs in `s` at index `k`. */
  predicate OccursAt(s: string, sub: string, k: int) {
    0 <= k <= |s| - |sub| && s[k..k + |sub|] == sub
  }

  /** `sub` occurs somewhere in `s`. */
  predicate Contains(s: string, sub: string) {
    exists k | 0 <= k <= |s| - |sub| :: OccursAt(s, sub, k)
  }

  /** `map_job_status_to_text`: the label names the rank's state in the
      rank's colour, in the `:colour[TEXT]` markup. */
  function MapJobStatusToText(status: Rank): (text: string)
    ensures text == ":" + Colour(status) + "[" + StateName(status) + "]"
  {
    LabelsNameStateInColour(status);
    StatusLabels[status]
  }

  /** `map_job_status_to_help`: one sentence per rank; the SUCCEEDED one
      announces the results and metrics. */
  function MapJobStatusToHelp(status: Rank): (help: string)
    ensures |help| > 0
    ensures status == Succeeded ==> Contains(help, OutputsPhrase)
    ensures status == Running ==> Contains(help, "running")
  {
    SucceededHelpMentionsOutputs();
    RunningHelpMentionsRunning();
    StatusHelp[status]
  }

  /** Witness for the phrase the SUCCEEDED help sentence promises. */
  lemma SucceededHelpMentionsOutputs()
    ensures Contains(StatusHelp[Succeeded], OutputsPhrase)
  {
    OccursInMiddle("The job has succeeded. The ", OutputsPhrase, " should be available.");
  }

  /** Witness for the word the RUNNING help sentence uses. */
  lemma RunningHelpMentionsRunning()
    ensures Contains(StatusHelp[Running], "running")
  {
    var before, after := "The job is ", ".";
    assert RunningHelp == before + "running" + after;
    OccursInMiddle(before, "running", after);
  }

  /** A string occurs in any text that has it in the middle. */
  lemma OccursInMiddle(before: string, sub: string, after: string)
    ensures Contains(before + sub + after, sub)
  {
    assert (before + sub + after)[|before|..|before| + |sub|] == sub;
    assert OccursAt(before + sub + after, sub, |before|);
  }

  /** The label table spells out, rank by rank, the markup built from the
      colour and the state name. */
  lemma LabelsNameStateInColour(r: Rank)
    ensures StatusLabels[r] == ":" + Colour(r) + "[" + StateName(r) + "]"
  {
    if r <= Scheduled {
      GrayLabels(r);
    } else if r <= Succeeded {
      ColouredLabels(r);
    } else {
      RedLabels(r);
    }
  }

  /** The ranks before a job runs are labelled in gray. */
  lemma GrayLabels(r: Rank)
    requires r <= Scheduled
    ensures StatusLabels[r] == ":" + Colour(r) + "[" + StateName(r) + "]"
  {
    match r
    case 0 => assert StatusLabels[0] == ":" + "gray" + "[" + "UNSPECIFIED" + "]";
    case 1 => assert StatusLabels[1] == ":" + "gray" + "[" + "QUEUED" + "]";
    case 2 => assert StatusLabels[2] == ":" + "gray" + "[" + "SCHEDULED" + "]";
  }

  /** Running is orange and success green. */
  lemma ColouredLabels(r: Rank)
    requires Scheduled < r <= Succeeded
    ensures StatusLabels[r] == ":" + Colour(r) + "[" + StateName(r) + "]"
  {
    match r
    case 3 => assert StatusLabels[3] == ":" + "orange" + "[" + "RUNNING" + "]";
    case 4 => assert StatusLabels[4] == ":" + "green" + "[" + "SUCCEEDED" + "]";
  }

  /** Failure and deletion are red. */
  lemma RedLabels(r: Rank)
    requires r > Succeeded
    ensures StatusLabels[r] == ":" + Colour(r) + "[" + StateName(r) + "]"
  {
    match r
    case 5 => assert StatusLabels[5] == ":" + "red" + "[" + "FAILED" + "]";
    case 6 => assert StatusLabels[6] == ":" + "red" + "[" + "DELETION_IN_PROGRESS" + "]";
  }
}
