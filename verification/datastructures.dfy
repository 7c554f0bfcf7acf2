/** The `Scenario` and `Experiment` records of the scheduler
    (scheduler/datastructures.py), as immutable datatypes. */
module DataStructures {
  import opened JobStatus

  /** A value produced by `json.loads`. Numbers are kept as integers. */
  datatype Json =
    | JNull
    | JBool(b: bool)
    | JNumber(n: int)
    | JString(s: string)
    | JArray(items: seq<Json>)
    | JObject(fields: map<string, Json>)

  /** One row of the scenario table: column name to cell value. */
  type Params = map<string, string>

  /** One solver run, mapped to exactly one Batch job. */
  datatype Scenario = Scenario(
    scenarioName: string,
    batchJobName: string,
    params: Params,
    remoteDataPath: string,
    metrics: Json,
    results: Json,
    status: Rank)

  /** A named group of scenarios submitted together. */
  datatype Experiment = Experiment(
    experimentName: string,
    scenarios: seq<Scenario>,
    status: Rank)

  /** `Scenario(...)` with the dataclass defaults for the last three fields. */
  function NewScenario(name: string, jobName: string, params: Params, path: string): (s: Scenario)
    ensures s.scenarioName == name && s.batchJobName == jobName
    ensures s.params == params && s.remoteDataPath == path
    ensures s.metrics == JObject(map[])
    ensures s.results == JArray([])
    ensures s.status == Queued
  {
    Scenario(name, jobName, params, path, JObject(map[]), JArray([]), Queued)
  }

  /** `Experiment(experiment_name=...)` with the dataclass defaults. */
  function NewExperiment(name: string): (e: Experiment)
    ensures e.experimentName == name
    ensures e.scenarios == []
    ensures e.status == Queued
  {
    Experiment(name, [], Queued)
  }

  /** Dataclass equality compares the fields in order; datatype equality is
      the same relation. `list.remove` relies on it. */
  lemma ScenarioEqualityIsFieldwise(a: Scenario, b: Scenario)
    ensures a == b <==>
      && a.scenarioName == b.scenarioName
      && a.batchJobName == b.batchJobName
      && a.params == b.params
      && a.remoteDataPath == b.remoteDataPath
      && a.metrics == b.metrics
      && a.results == b.results
      && a.status == b.status
  {
  }

  lemma ExperimentEqualityIsFieldwise(a: Experiment, b: Experiment)
    ensures a == b <==>
      && a.experimentName == b.experimentName
      && a.scenarios == b.scenarios
      && a.status == b.status
  {
  }
}
