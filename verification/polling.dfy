/** One pass of `update_jobs_state` with `loop=False`
    (scheduler/scheduler.py): every scenario that is not finished gets the
    status Batch reports, a scenario that has just succeeded gets its metrics
    and results, and every experiment gets the lowest rank of its scenarios.
    Batch's status lookup and the download of a JSON file are parameters; the
    calls made to them are returned in order, so that what is and is not
    asked can be stated. */
module Polling {
  import opened JobStatus
  import opened DataStructures

  /** A call to a remote service during a cycle. */
  datatype Call =
    | GetJobStatus(jobName: string)
    | DownloadContent(path: string)

  function MetricsPath(s: Scenario): string {
    s.remoteDataPath + "/metrics.json"
  }

  function ResultsPath(s: Scenario): string {
    s.remoteDataPath + "/results.json"
  }

  /** The scenario is still running and Batch now reports it SUCCEEDED: a
      rank below 4 is never SUCCEEDED, so this is the first time. */
  predicate JustSucceeded(s: Scenario, jobStatus: string -> Rank) {
    !IsTerminal(s.status) && jobStatus(s.batchJobName) == Succeeded
  }

  /** `path` is one of the two files fetched for `s`. */
  predicate Fetches(s: Scenario, path: string) {
    path == MetricsPath(s) || path == ResultsPath(s)
  }

  datatype PolledScenario = PolledScenario(scenario: Scenario, calls: seq<Call>)

  /** The body of the inner loop for one scenario. A finished scenario is
      neither asked about nor changed. Any other one takes the reported
      status; on its first SUCCEEDED the metrics and results are downloaded,
      otherwise they stay as they were. Name, job, parameters and folder never
      change. */
  function UpdateScenario(s: Scenario, jobStatus: string -> Rank, download: string -> Json): (p: PolledScenario)
    ensures IsTerminal(s.status) ==> p.scenario == s && p.calls == []
    ensures !IsTerminal(s.status) ==> p.scenario.status == jobStatus(s.batchJobName)
    ensures !IsTerminal(s.status) ==> |p.calls| > 0 && p.calls[0] == GetJobStatus(s.batchJobName)
    ensures JustSucceeded(s, jobStatus) ==>
      && p.scenario.metrics == download(MetricsPath(s))
      && p.scenario.results == download(ResultsPath(s))
      && p.calls == [GetJobStatus(s.batchJobName), DownloadContent(MetricsPath(s)), DownloadContent(ResultsPath(s))]
    ensures !JustSucceeded(s, jobStatus) ==>
      && p.scenario.metrics == s.metrics
      && p.scenario.results == s.results
      && p.calls == (if IsTerminal(s.status) then [] else [GetJobStatus(s.batchJobName)])
    ensures p.scenario == s.(status := p.scenario.status, metrics := p.scenario.metrics, results := p.scenario.results)
  {
    var queried := s.status < 4;
    var status := if queried then jobStatus(s.batchJobName) else s.status;
    var hasChangedItsStatus := queried && s.status != status;
    var asked := if queried then [GetJobStatus(s.batchJobName)] else [];
    var refreshed := s.(status := status);
    if status == Succeeded && hasChangedItsStatus then
      PolledScenario(
        refreshed.(metrics := download(MetricsPath(s)), results := download(ResultsPath(s))),
        asked + [DownloadContent(MetricsPath(s)), DownloadContent(ResultsPath(s))])
    else
      PolledScenario(refreshed, asked)
  }

  /** `min(experiment_new_status)`: the lowest rank among the scenarios. */
  function MinStatus(scenarios: seq<Scenario>): (m: Rank)
    requires |scenarios| > 0
    ensures forall i :: 0 <= i < |scenarios| ==> m <= scenarios[i].status
    ensures exists i :: 0 <= i < |scenarios| && scenarios[i].status == m
  {
    if |scenarios| == 1 then scenarios[0].status
    else
      var rest := MinStatus(scenarios[1..]);
      assert forall i :: 1 <= i < |scenarios| ==> scenarios[i] == scenarios[1..][i - 1];
      if scenarios[0].status <= rest then scenarios[0].status else rest
  }

  datatype PolledScenarios = PolledScenarios(scenarios: seq<Scenario>, calls: seq<Call>)

  /** The inner loop: the scenarios one after another, their calls in the
      same order. Only unfinished scenarios are asked about, each of them is,
      and only the ones that have just succeeded are downloaded. */
  function UpdateScenarios(ss: seq<Scenario>, jobStatus: string -> Rank, download: string -> Json): (p: PolledScenarios)
    ensures |p.scenarios| == |ss|
    ensures forall i :: 0 <= i < |ss| ==> p.scenarios[i] == UpdateScenario(ss[i], jobStatus, download).scenario
    ensures forall c :: c in p.calls && c.GetJobStatus? ==>
      exists i :: 0 <= i < |ss| && !IsTerminal(ss[i].status) && ss[i].batchJobName == c.jobName
    ensures forall i :: 0 <= i < |ss| && !IsTerminal(ss[i].status) ==> GetJobStatus(ss[i].batchJobName) in p.calls
    ensures forall c :: c in p.calls && c.DownloadContent? ==>
      exists i :: 0 <= i < |ss| && JustSucceeded(ss[i], jobStatus) && Fetches(ss[i], c.path)
    ensures JobsAsked(p.calls) == UnfinishedJobs(ss)
    ensures |p.calls| == |UnfinishedJobs(ss)| + 2 * NewlySucceeded(ss, jobStatus)
  {
    if |ss| == 0 then PolledScenarios([], [])
    else
      var first := UpdateScenario(ss[0], jobStatus, download);
      var rest := UpdateScenarios(ss[1..], jobStatus, download);
      var p := PolledScenarios([first.scenario] + rest.scenarios, first.calls + rest.calls);
      ShiftedCalls(ss, jobStatus, download, first.calls, rest.calls);
      JobsAskedAppend(first.calls, rest.calls);
      JobsAskedOfScenario(ss[0], jobStatus, download);
      p
  }

  /** The jobs asked about by the status calls among `calls`, in order. */
  function JobsAsked(calls: seq<Call>): seq<string> {
    if |calls| == 0 then []
    else (if calls[0].GetJobStatus? then [calls[0].jobName] else []) + JobsAsked(calls[1..])
  }

  /** The job names of the unfinished scenarios, in order. */
  function UnfinishedJobs(ss: seq<Scenario>): seq<string> {
    if |ss| == 0 then []
    else (if IsTerminal(ss[0].status) then [] else [ss[0].batchJobName]) + UnfinishedJobs(ss[1..])
  }

  /** How many scenarios have just succeeded. */
  function NewlySucceeded(ss: seq<Scenario>, jobStatus: string -> Rank): nat {
    if |ss| == 0 then 0
    else (if JustSucceeded(ss[0], jobStatus) then 1 else 0) + NewlySucceeded(ss[1..], jobStatus)
  }

  lemma {:induction false} JobsAskedAppend(a: seq<Call>, b: seq<Call>)
    ensures JobsAsked(a + b) == JobsAsked(a) + JobsAsked(b)
  {
    if |a| > 0 {
      var head := if a[0].GetJobStatus? then [a[0].jobName] else [];
      assert (a + b)[0] == a[0] && (a + b)[1..] == a[1..] + b;
      JobsAskedAppend(a[1..], b);
      assert JobsAsked(a + b) == head + (JobsAsked(a[1..]) + JobsAsked(b));
      assert head + (JobsAsked(a[1..]) + JobsAsked(b)) == (head + JobsAsked(a[1..])) + JobsAsked(b);
    } else {
      assert a + b == b;
    }
  }

  /** One scenario asks about its own job exactly when it is unfinished. */
  lemma JobsAskedOfScenario(s: Scenario, jobStatus: string -> Rank, download: string -> Json)
    ensures JobsAsked(UpdateScenario(s, jobStatus, download).calls)
      == (if IsTerminal(s.status) then [] else [s.batchJobName])
  {
    var calls := UpdateScenario(s, jobStatus, download).calls;
    if JustSucceeded(s, jobStatus) {
      assert calls[1..][1..][1..] == [];
      assert JobsAsked(calls[1..][1..]) == [];
      assert JobsAsked(calls[1..]) == [];
    } else if !IsTerminal(s.status) {
      assert calls[1..] == [];
    }
  }

  /** The facts about the calls of the inner loop carry over from the tail
      of the scenario list to the whole list. */
  lemma {:induction false} ShiftedCalls(ss: seq<Scenario>, jobStatus: string -> Rank, download: string -> Json,
                                        firstCalls: seq<Call>, restCalls: seq<Call>)
    requires |ss| > 0
    requires firstCalls == UpdateScenario(ss[0], jobStatus, download).calls
    requires forall c :: c in restCalls && c.GetJobStatus? ==>
      exists i :: 0 <= i < |ss[1..]| && !IsTerminal(ss[1..][i].status) && ss[1..][i].batchJobName == c.jobName
    requires forall i :: 0 <= i < |ss[1..]| && !IsTerminal(ss[1..][i].status) ==> GetJobStatus(ss[1..][i].batchJobName) in restCalls
    requires forall c :: c in restCalls && c.DownloadContent? ==>
      exists i :: 0 <= i < |ss[1..]| && JustSucceeded(ss[1..][i], jobStatus) && Fetches(ss[1..][i], c.path)
    ensures forall c :: c in firstCalls + restCalls && c.GetJobStatus? ==>
      exists i :: 0 <= i < |ss| && !IsTerminal(ss[i].status) && ss[i].batchJobName == c.jobName
    ensures forall i :: 0 <= i < |ss| && !IsTerminal(ss[i].status) ==> GetJobStatus(ss[i].batchJobName) in firstCalls + restCalls
    ensures forall c :: c in firstCalls + restCalls && c.DownloadContent? ==>
      exists i :: 0 <= i < |ss| && JustSucceeded(ss[i], jobStatus) && Fetches(ss[i], c.path)
  {
    var calls := firstCalls + restCalls;
    forall c | c in calls && c.GetJobStatus?
      ensures exists i :: 0 <= i < |ss| && !IsTerminal(ss[i].status) && ss[i].batchJobName == c.jobName
    {
      if c in firstCalls {
        assert !IsTerminal(ss[0].status) && ss[0].batchJobName == c.jobName;
      } else {
        var i :| 0 <= i < |ss[1..]| && !IsTerminal(ss[1..][i].status) && ss[1..][i].batchJobName == c.jobName;
        assert ss[i + 1] == ss[1..][i];
      }
    }
    forall i | 0 <= i < |ss| && !IsTerminal(ss[i].status)
      ensures GetJobStatus(ss[i].batchJobName) in calls
    {
      if i == 0 {
        assert firstCalls[0] == GetJobStatus(ss[0].batchJobName);
      } else {
        assert ss[1..][i - 1] == ss[i];
      }
    }
    forall c | c in calls && c.DownloadContent?
      ensures exists i :: 0 <= i < |ss| && JustSucceeded(ss[i], jobStatus) && Fetches(ss[i], c.path)
    {
      if c in firstCalls {
        assert JustSucceeded(ss[0], jobStatus);
      } else {
        var i :| 0 <= i < |ss[1..]| && JustSucceeded(ss[1..][i], jobStatus) && Fetches(ss[1..][i], c.path);
        assert ss[i + 1] == ss[1..][i];
      }
    }
  }

  datatype PolledExperiment = PolledExperiment(experiment: Experiment, calls: seq<Call>)

  /** One experiment: its scenarios are refreshed in order, then its status
      becomes the lowest rank among them; without scenarios it keeps its
      status. */
  function UpdateExperiment(e: Experiment, jobStatus: string -> Rank, download: string -> Json): (p: PolledExperiment)
    ensures p.experiment.experimentName == e.experimentName
    ensures |p.experiment.scenarios| == |e.scenarios|
    ensures forall i :: 0 <= i < |e.scenarios| ==>
      p.experiment.scenarios[i] == UpdateScenario(e.scenarios[i], jobStatus, download).scenario
    ensures |e.scenarios| == 0 ==> p.experiment.status == e.status && p.calls == []
    ensures |e.scenarios| > 0 ==>
      && (forall i :: 0 <= i < |e.scenarios| ==> p.experiment.status <= p.experiment.scenarios[i].status)
      && (exists i :: 0 <= i < |e.scenarios| && p.experiment.scenarios[i].status == p.experiment.status)
    ensures p.calls == UpdateScenarios(e.scenarios, jobStatus, download).calls
  {
    var polled := UpdateScenarios(e.scenarios, jobStatus, download);
    var status := if |polled.scenarios| > 0 then MinStatus(polled.scenarios) else e.status;
    PolledExperiment(e.(scenarios := polled.scenarios, status := status), polled.calls)
  }

  datatype Polled = Polled(experiments: seq<Experiment>, calls: seq<Call>)

  /** The scenarios of all experiments, in list order. */
  function AllScenarios(experiments: seq<Experiment>): seq<Scenario> {
    if |experiments| == 0 then [] else experiments[0].scenarios + AllScenarios(experiments[1..])
  }

  /** `update_jobs_state(loop=False)`: every experiment in turn. The list
      keeps its length and order, and the calls are those of refreshing all
      scenarios of all experiments one after another, so only unfinished
      scenarios are asked about. */
  function UpdateJobsState(experiments: seq<Experiment>, jobStatus: string -> Rank, download: string -> Json): (p: Polled)
    ensures |p.experiments| == |experiments|
    ensures forall i :: 0 <= i < |experiments| ==>
      p.experiments[i] == UpdateExperiment(experiments[i], jobStatus, download).experiment
    ensures p.calls == UpdateScenarios(AllScenarios(experiments), jobStatus, download).calls
  {
    if |experiments| == 0 then Polled([], [])
    else
      var first := UpdateExperiment(experiments[0], jobStatus, download);
      var rest := UpdateJobsState(experiments[1..], jobStatus, download);
      var p := Polled([first.experiment] + rest.experiments, first.calls + rest.calls);
      JobsStateCons(experiments, jobStatus, download, first, rest.experiments, rest.calls, p);
      p
  }

  /** The facts about a cycle carry over from the tail of the experiment
      list to the whole list. */
  lemma {:induction false} JobsStateCons(experiments: seq<Experiment>, jobStatus: string -> Rank, download: string -> Json,
                                         first: PolledExperiment, restExperiments: seq<Experiment>, restCalls: seq<Call>, p: Polled)
    requires |experiments| > 0
    requires first == UpdateExperiment(experiments[0], jobStatus, download)
    requires |restExperiments| == |experiments| - 1
    requires forall i :: 0 <= i < |restExperiments| ==>
      restExperiments[i] == UpdateExperiment(experiments[1..][i], jobStatus, download).experiment
    requires restCalls == UpdateScenarios(AllScenarios(experiments[1..]), jobStatus, download).calls
    requires p == Polled([first.experiment] + restExperiments, first.calls + restCalls)
    ensures |p.experiments| == |experiments|
    ensures forall i :: 0 <= i < |experiments| ==>
      p.experiments[i] == UpdateExperiment(experiments[i], jobStatus, download).experiment
    ensures p.calls == UpdateScenarios(AllScenarios(experiments), jobStatus, download).calls
  {
    UpdateScenariosAppend(experiments[0].scenarios, AllScenarios(experiments[1..]), jobStatus, download);
    MapCons(experiments, first.experiment, restExperiments, e => UpdateExperiment(e, jobStatus, download).experiment);
  }

  /** A list that maps its head and whose tail maps the tail maps the whole
      list. */
  lemma {:induction false} MapCons<A, B>(xs: seq<A>, head: B, rest: seq<B>, f: A -> B)
    requires |xs| > 0 && head == f(xs[0])
    requires |rest| == |xs| - 1 && forall i :: 0 <= i < |rest| ==> rest[i] == f(xs[1..][i])
    ensures forall i :: 0 <= i < |xs| ==> ([head] + rest)[i] == f(xs[i])
  {
    forall i | 1 <= i < |xs|
      ensures ([head] + rest)[i] == f(xs[i])
    {
      assert xs[i] == xs[1..][i - 1];
    }
  }

  /** Refreshing two lists of scenarios one after the other makes the calls
      of the first, then those of the second. */
  lemma {:induction false} UpdateScenariosAppend(a: seq<Scenario>, b: seq<Scenario>, jobStatus: string -> Rank, download: string -> Json)
    ensures UpdateScenarios(a + b, jobStatus, download).calls
      == UpdateScenarios(a, jobStatus, download).calls + UpdateScenarios(b, jobStatus, download).calls
  {
    if |a| == 0 {
      assert a + b == b;
    } else {
      assert (a + b)[0] == a[0];
      assert (a + b)[1..] == a[1..] + b;
      UpdateScenariosAppend(a[1..], b, jobStatus, download);
    }
  }

  /** A refreshed scenario is settled: a second refresh with the same
      answers changes nothing and downloads nothing. */
  lemma UpdateScenarioTwice(s: Scenario, jobStatus: string -> Rank, download: string -> Json)
    ensures var once := UpdateScenario(s, jobStatus, download).scenario;
      && !JustSucceeded(once, jobStatus)
      && UpdateScenario(once, jobStatus, download).scenario == once
      && forall c :: c in UpdateScenario(once, jobStatus, download).calls ==> c.GetJobStatus?
  {
  }

  /** The lowest rank of a list is the one rank that is at most every
      element and is attained. */
  lemma MinStatusUnique(scenarios: seq<Scenario>, m: Rank)
    requires |scenarios| > 0
    requires forall i :: 0 <= i < |scenarios| ==> m <= scenarios[i].status
    requires exists i :: 0 <= i < |scenarios| && scenarios[i].status == m
    ensures m == MinStatus(scenarios)
  {
  }

  /** A second cycle with the same answers leaves an experiment as the first
      one left it and downloads nothing. */
  lemma {:induction false} UpdateExperimentTwice(e: Experiment, jobStatus: string -> Rank, download: string -> Json)
    ensures var once := UpdateExperiment(e, jobStatus, download).experiment;
      && UpdateExperiment(once, jobStatus, download).experiment == once
      && forall c :: c in UpdateExperiment(once, jobStatus, download).calls ==> c.GetJobStatus?
    ensures Settled(UpdateExperiment(e, jobStatus, download).experiment, jobStatus)
  {
    var once := UpdateExperiment(e, jobStatus, download).experiment;
    RefreshedScenariosSettle(e, jobStatus, download);
    RefreshedStatusSettles(once, jobStatus, download);
    NoDownloadWhenSettled(once.scenarios, jobStatus, download);
  }

  /** An experiment whose scenarios a refresh leaves alone also keeps its
      status, since that status is already their lowest rank. */
  lemma {:induction false} RefreshedStatusSettles(once: Experiment, jobStatus: string -> Rank, download: string -> Json)
    requires UpdateExperiment(once, jobStatus, download).experiment.scenarios == once.scenarios
    requires |once.scenarios| > 0 ==>
      && (forall i :: 0 <= i < |once.scenarios| ==> once.status <= once.scenarios[i].status)
      && (exists i :: 0 <= i < |once.scenarios| && once.scenarios[i].status == once.status)
    ensures UpdateExperiment(once, jobStatus, download).experiment == once
  {
    var twice := UpdateExperiment(once, jobStatus, download).experiment;
    if |once.scenarios| > 0 {
      MinStatusUnique(once.scenarios, once.status);
      MinStatusUnique(once.scenarios, twice.status);
    }
  }

  /** After one refresh, the scenarios of an experiment are settled and a
      second refresh leaves them as they are. */
  lemma {:induction false} RefreshedScenariosSettle(e: Experiment, jobStatus: string -> Rank, download: string -> Json)
    ensures var once := UpdateExperiment(e, jobStatus, download).experiment;
      && UpdateExperiment(once, jobStatus, download).experiment.scenarios == once.scenarios
      && Settled(once, jobStatus)
  {
    RefreshedScenariosStay(e, jobStatus, download);
    RefreshedScenariosSettled(e, jobStatus, download);
  }

  /** A second refresh leaves refreshed scenarios as they are. */
  lemma {:induction false} RefreshedScenariosStay(e: Experiment, jobStatus: string -> Rank, download: string -> Json)
    ensures var once := UpdateExperiment(e, jobStatus, download).experiment;
      UpdateExperiment(once, jobStatus, download).experiment.scenarios == once.scenarios
  {
    var once := UpdateExperiment(e, jobStatus, download).experiment;
    var twice := UpdateExperiment(once, jobStatus, download);
    forall i | 0 <= i < |once.scenarios|
      ensures twice.experiment.scenarios[i] == once.scenarios[i]
    {
      UpdateScenarioTwice(e.scenarios[i], jobStatus, download);
    }
  }

  /** No refreshed scenario is still waiting for its first SUCCEEDED. */
  lemma {:induction false} RefreshedScenariosSettled(e: Experiment, jobStatus: string -> Rank, download: string -> Json)
    ensures Settled(UpdateExperiment(e, jobStatus, download).experiment, jobStatus)
  {
    var once := UpdateExperiment(e, jobStatus, download).experiment;
    forall i | 0 <= i < |once.scenarios|
      ensures !JustSucceeded(once.scenarios[i], jobStatus)
    {
      UpdateScenarioTwice(e.scenarios[i], jobStatus, download);
    }
  }

  /** A second cycle with the same answers leaves every experiment as the
      first one left it, and fetches no metrics or results: downloads happen
      only on the first cycle that sees SUCCEEDED. */
  lemma {:induction false} UpdateJobsStateTwice(experiments: seq<Experiment>, jobStatus: string -> Rank, download: string -> Json)
    ensures var once := UpdateJobsState(experiments, jobStatus, download).experiments;
      && UpdateJobsState(once, jobStatus, download).experiments == once
      && forall c :: c in UpdateJobsState(once, jobStatus, download).calls ==> c.GetJobStatus?
  {
    var once := UpdateJobsState(experiments, jobStatus, download).experiments;
    var twice := UpdateJobsState(once, jobStatus, download);
    SecondCycleSettled(experiments, jobStatus, download);
    assert twice.experiments == once;
    NoDownloadWhenAllSettled(once, jobStatus, download);
  }

  /** Experiment by experiment, the second cycle keeps what the first one
      produced, and nothing is left waiting for its first SUCCEEDED. */
  lemma SecondCycleSettled(experiments: seq<Experiment>, jobStatus: string -> Rank, download: string -> Json)
    ensures var once := UpdateJobsState(experiments, jobStatus, download).experiments;
      var twice := UpdateJobsState(once, jobStatus, download).experiments;
      && |twice| == |once|
      && forall i :: 0 <= i < |once| ==> twice[i] == once[i] && Settled(once[i], jobStatus)
  {
    var once := UpdateJobsState(experiments, jobStatus, download).experiments;
    var twice := UpdateJobsState(once, jobStatus, download);
    forall i | 0 <= i < |once|
      ensures twice.experiments[i] == once[i]
      ensures Settled(once[i], jobStatus)
    {
      UpdateExperimentTwice(experiments[i], jobStatus, download);
    }
  }

  /** A cycle over settled experiments only asks for statuses. */
  lemma NoDownloadWhenAllSettled(experiments: seq<Experiment>, jobStatus: string -> Rank, download: string -> Json)
    requires forall i :: 0 <= i < |experiments| ==> Settled(experiments[i], jobStatus)
    ensures forall c :: c in UpdateJobsState(experiments, jobStatus, download).calls ==> c.GetJobStatus?
  {
    var all := AllScenarios(experiments);
    SettledAll(experiments, jobStatus);
    assert forall k :: 0 <= k < |all| ==> !JustSucceeded(all[k], jobStatus);
    NoDownloadWhenSettled(all, jobStatus, download);
  }

  /** Refreshing scenarios none of which is waiting for its first SUCCEEDED
      only asks for statuses. */
  lemma NoDownloadWhenSettled(ss: seq<Scenario>, jobStatus: string -> Rank, download: string -> Json)
    requires forall k :: 0 <= k < |ss| ==> !JustSucceeded(ss[k], jobStatus)
    ensures forall c :: c in UpdateScenarios(ss, jobStatus, download).calls ==> c.GetJobStatus?
  {
  }

  /** No scenario of the experiment is waiting for its first SUCCEEDED. */
  predicate Settled(e: Experiment, jobStatus: string -> Rank) {
    forall j :: 0 <= j < |e.scenarios| ==> !JustSucceeded(e.scenarios[j], jobStatus)
  }

  /** Settled experiments have only settled scenarios between them. */
  lemma {:induction false} SettledAll(experiments: seq<Experiment>, jobStatus: string -> Rank)
    requires forall i :: 0 <= i < |experiments| ==> Settled(experiments[i], jobStatus)
    ensures forall k :: 0 <= k < |AllScenarios(experiments)| ==> !JustSucceeded(AllScenarios(experiments)[k], jobStatus)
  {
    if |experiments| > 0 {
      SettledAll(experiments[1..], jobStatus);
      var head := experiments[0].scenarios;
      var all := AllScenarios(experiments);
      forall k | 0 <= k < |all|
        ensures !JustSucceeded(all[k], jobStatus)
      {
        if k < |head| {
          assert all[k] == head[k];
        } else {
          assert all[k] == AllScenarios(experiments[1..])[k - |head|];
        }
      }
    }
  }

  /** The lowest rank puts SUCCEEDED (4) before FAILED (5): once every
      scenario has finished, one that succeeded makes the whole experiment
      SUCCEEDED, whatever the others report. */
  lemma SucceededMasksFailed(e: Experiment, jobStatus: string -> Rank, download: string -> Json)
    requires forall i :: 0 <= i < |e.scenarios| ==> IsTerminal(e.scenarios[i].status)
    requires exists i :: 0 <= i < |e.scenarios| && e.scenarios[i].status == Succeeded
    ensures UpdateExperiment(e, jobStatus, download).experiment.status == Succeeded
  {
  }
}
