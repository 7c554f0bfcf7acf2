/** The `Scheduler` class (scheduler/scheduler.py) apart from its polling
    cycle: the URLs and paths it builds, `run`, `run_experiment` and
    `delete_experiment`. The cloud it talks to is a blob store and the list
    of job requests Batch has received; the machine-types service, the
    registry's tag lookup, `json.dumps` and the random suffixes are
    parameters. */
module Scheduler {
  import opened Wrappers
  import opened Strings
  import opened JobStatus
  import opened DataStructures
  import Storage
  import Batch
  import Naming
  import ArtifactsRegistry

  /** The image name and the tag in `container_uri`. */
  const SchedulerImage := "scheduler"

  /** The folders of `_generate_bucket_path` below the bucket. */
  const DataRoot := "f33-solution-factory-scheduler"
  const ExperimentsFolder := "experiments"

  /** `SCHEDULER_ZIP_REMOTE`, relative to the bucket. */
  const SchedulerZipRemote := "f33-solutions/files/scheduler.zip"

  /** The arguments every solver job is started with. */
  const SolverArgs: seq<string> := ["--jobs", "jobs.json", "--parameters", "params.json"]

  /** The constructor arguments `run_experiment` and the URL builders read. */
  datatype Config = Config(
    projectId: string,
    region: string,
    serviceAccount: string,
    bucketName: string,
    artifactsRepositoryName: string,
    batchMachineType: string)

  /** The remote services: blobs per bucket, and every create request Batch
      has received, oldest first. */
  datatype Cloud = Cloud(store: Storage.Store, sent: seq<Batch.CreateJobRequest>)

  /** The services whose answers the model does not compute. */
  datatype Oracles = Oracles(
    machines: string -> Batch.MachineParams,
    dumps: Params -> Storage.Content,
    randomIds: nat -> string)

  /** The scheduler's Batch client: it is built from the project, the region
      and, as the third positional argument, the service account, so no
      network is named and the network and subnetwork are the defaults of the
      configured region. */
  function BatchClientOf(c: Config): (client: Batch.BatchClient)
    ensures client.parent == "projects/" + c.projectId + "/locations/" + c.region
    ensures client.serviceAccount == c.serviceAccount
    ensures client.networkName == Batch.DefaultNetwork
    ensures client.subNetworkName == "regions/" + c.region + "/subnetworks/default"
  {
    Batch.NewBatchClient(c.projectId, c.region, c.serviceAccount, "", "")
  }

  /** The `container_uri` property:
      `{region}-docker.pkg.dev/{project}/{repo}/scheduler:latest`. Whatever
      the configuration holds, the registry client reads the container name
      "scheduler" back from it; when the region, project and repository hold
      no `/` or `:`, the URI's pieces are exactly the registry host, the
      project, the repository, "scheduler" and "latest". */
  function ContainerUri(c: Config): (uri: string)
    ensures ArtifactsRegistry.ContainerName(uri) == Success(SchedulerImage)
    ensures var pieces := ArtifactsRegistry.SplitDockerUri(uri);
      pieces[|pieces| - 1] == ArtifactsRegistry.DefaultTag
    ensures var seps := ArtifactsRegistry.DockerSeparators;
      NoneIn(c.region, seps) && NoneIn(c.projectId, seps) && NoneIn(c.artifactsRepositoryName, seps) ==>
        ArtifactsRegistry.SplitDockerUri(uri) ==
          [c.region + RegistryHostSuffix, c.projectId, c.artifactsRepositoryName, SchedulerImage, ArtifactsRegistry.DefaultTag]
  {
    var host := c.region + RegistryHostSuffix;
    var uri := host + "/" + c.projectId + "/" + c.artifactsRepositoryName + "/" + SchedulerImage + ":" + ArtifactsRegistry.DefaultTag;
    ContainerNameOfTail(host + "/" + c.projectId + "/" + c.artifactsRepositoryName, SchedulerImage, ArtifactsRegistry.DefaultTag);
    RegistryHostPieces(c.region);
    DockerUriPieces(host, c.projectId, c.artifactsRepositoryName, SchedulerImage, ArtifactsRegistry.DefaultTag);
    uri
  }

  /** The Artifact Registry host of a region is `{region}-docker.pkg.dev`. */
  const RegistryHostSuffix := "-docker.pkg.dev"

  /** The registry host holds a `/` or `:` only if the region does. */
  lemma RegistryHostPieces(region: string)
    ensures NoneIn(region, ArtifactsRegistry.DockerSeparators) ==>
      NoneIn(region + RegistryHostSuffix, ArtifactsRegistry.DockerSeparators)
  {
    assert NoneIn(RegistryHostSuffix, ArtifactsRegistry.DockerSeparators);
  }

  /** `host/project/repo/name:tag` splits back into its five parts when none
      of them holds a separator. */
  lemma DockerUriPieces(host: string, project: string, repo: string, name: string, tag: string)
    ensures var seps := ArtifactsRegistry.DockerSeparators;
      NoneIn(host, seps) && NoneIn(project, seps) && NoneIn(repo, seps) && NoneIn(name, seps) && NoneIn(tag, seps) ==>
        ArtifactsRegistry.SplitDockerUri(host + "/" + project + "/" + repo + "/" + name + ":" + tag) == [host, project, repo, name, tag]
  {
    var seps := ArtifactsRegistry.DockerSeparators;
    if NoneIn(host, seps) && NoneIn(project, seps) && NoneIn(repo, seps) && NoneIn(name, seps) && NoneIn(tag, seps) {
      var t1 := name + [':'] + tag;
      SplitOnTwo(name, ':', tag, seps);
      var t2 := repo + ['/'] + t1;
      SplitOnCons(repo, '/', t1, seps);
      var t3 := project + ['/'] + t2;
      SplitOnCons(project, '/', t2, seps);
      var t4 := host + ['/'] + t3;
      SplitOnCons(host, '/', t3, seps);
      assert SplitOn(t4, seps) == [host, project, repo, name, tag];
      assert host + "/" + project + "/" + repo + "/" + name + ":" + tag == t4;
    }
  }

  /** `a` followed by a separator and `b`, neither holding a separator,
      splits into `a` and `b`. */
  lemma SplitOnTwo(a: string, c: char, b: string, seps: set<char>)
    requires c in seps && NoneIn(a, seps) && NoneIn(b, seps)
    ensures SplitOn(a + [c] + b, seps) == [a, b]
  {
    SplitOnConcat(a, c, b, seps);
    SplitOnNoSeparator(a, seps);
    SplitOnNoSeparator(b, seps);
  }

  /** A separator-free `a` in front of a separator adds one piece. */
  lemma SplitOnCons(a: string, c: char, b: string, seps: set<char>)
    requires c in seps && NoneIn(a, seps)
    ensures SplitOn(a + [c] + b, seps) == [a] + SplitOn(b, seps)
  {
    SplitOnConcat(a, c, b, seps);
    SplitOnNoSeparator(a, seps);
  }

  /** The second-to-last and last pieces of `prefix/name:tag` are the name
      and the tag, whatever the prefix holds. */
  lemma {:induction false} ContainerNameOfTail(prefix: string, name: string, tag: string)
    requires NoneIn(name, ArtifactsRegistry.DockerSeparators)
    requires NoneIn(tag, ArtifactsRegistry.DockerSeparators)
    ensures ArtifactsRegistry.ContainerName(prefix + "/" + name + ":" + tag) == Success(name)
    ensures var pieces := ArtifactsRegistry.SplitDockerUri(prefix + "/" + name + ":" + tag);
      pieces[|pieces| - 1] == tag
  {
    var seps := ArtifactsRegistry.DockerSeparators;
    var uri := prefix + "/" + name + ":" + tag;
    assert uri == prefix + ['/'] + (name + [':'] + tag);
    SplitOnConcat(prefix, '/', name + [':'] + tag, seps);
    SplitOnConcat(name, ':', tag, seps);
    SplitOnNoSeparator(name, seps);
    SplitOnNoSeparator(tag, seps);
    var pieces := SplitOn(uri, seps);
    assert pieces == SplitOn(prefix, seps) + [name] + [tag];
  }

  /** `check_if_scheduler_image_exists`: looks up the tag "latest" of the
      package "scheduler"; the URI always has enough pieces, so no unpack
      error can arise. */
  function CheckIfSchedulerImageExists(c: Config, tagExists: string -> bool): (r: Result<bool, ArtifactsRegistry.UnpackError>)
    ensures r.Success?
    ensures var client := ArtifactsRegistry.ArtifactsRegistryClient(c.projectId, c.region, c.artifactsRepositoryName);
      r.value == tagExists(ArtifactsRegistry.TagPath(client, SchedulerImage, ArtifactsRegistry.DefaultTag))
  {
    var client := ArtifactsRegistry.ArtifactsRegistryClient(c.projectId, c.region, c.artifactsRepositoryName);
    ArtifactsRegistry.CheckIfContainerExists(client, ContainerUri(c), ArtifactsRegistry.DefaultTag, tagExists)
  }

  /** The upload step of `build_scheduler_container`: the archive goes to
      `{bucket}/f33-solutions/files/scheduler.zip`, replacing any earlier one,
      so it fails only when the bucket does not exist. The Cloud Build step
      that follows is not part of this model. */
  function UploadSchedulerArchive(c: Config, store: Storage.Store, archive: Storage.Content)
    : (r: Result<Storage.Store, Storage.StorageError>)
    ensures var key := Storage.BlobKey(c.bucketName + "/" + SchedulerZipRemote);
      && (r.Success? <==> key.0 in store)
      && (r.Success? ==> Storage.Get(r.value, key.0, key.1) == Some(archive))
      && (r.Success? ==> forall b, n :: (b, n) != key ==> Storage.Get(r.value, b, n) == Storage.Get(store, b, n))
  {
    Storage.Upload(store, c.bucketName + "/" + SchedulerZipRemote, archive, true)
  }

  /** `_generate_bucket_path`:
      `{bucket}/f33-solution-factory-scheduler/experiments/{experiment}/{scenario}`,
      the five components joined with `/`. When none of the three names
      holds a `/`, the path splits back into them. */
  function GenerateBucketPath(bucket: string, experimentName: string, scenarioName: string): (path: string)
    ensures '/' !in bucket && '/' !in experimentName && '/' !in scenarioName ==>
      SplitOn(path, {'/'}) == [bucket, DataRoot, ExperimentsFolder, experimentName, scenarioName]
    ensures |path| > |bucket| && path[..|bucket| + 1] == bucket + "/"
  {
    var parts := [bucket, DataRoot, ExperimentsFolder, experimentName, scenarioName];
    JoinFive(parts, '/');
    SplitsBack(parts, '/');
    bucket + "/" + DataRoot + "/" + ExperimentsFolder + "/" + experimentName + "/" + scenarioName
  }

  /** `Join` on five pieces, written out. */
  lemma {:induction false} JoinFive(parts: seq<string>, sep: char)
    requires |parts| == 5
    ensures Join(parts, sep) == parts[0] + [sep] + parts[1] + [sep] + parts[2] + [sep] + parts[3] + [sep] + parts[4]
  {
    var t := parts;
    assert t[3..][1..] == [t[4]];
    assert Join(t[3..], sep) == t[3] + [sep] + t[4];
    assert t[2..][1..] == t[3..];
    assert Join(t[2..], sep) == t[2] + [sep] + Join(t[3..], sep);
    assert t[1..][1..] == t[2..];
    assert Join(t[1..], sep) == t[1] + [sep] + Join(t[2..], sep);
    assert Join(t, sep) == t[0] + [sep] + Join(t[1..], sep);
  }

  /** The components of a joined path come back when none holds the
      separator. */
  lemma {:induction false} SplitsBack(parts: seq<string>, sep: char)
    requires |parts| > 0
    ensures (forall i :: 0 <= i < |parts| ==> sep !in parts[i]) ==> SplitOn(Join(parts, sep), {sep}) == parts
  {
    if forall i :: 0 <= i < |parts| ==> sep !in parts[i] {
      forall i | 0 <= i < |parts|
        ensures NoneIn(parts[i], {sep})
      {
      }
      SplitOnJoin(parts, sep);
    }
  }

  /** `get_logs_url`: the Cloud Console page of the scenario's Batch job.
      When the region, the job name and the project hold no `/`, the region
      and the job name are the seventh and ninth components of the URL. */
  function GetLogsUrl(c: Config, scenario: Scenario): (url: string)
    ensures var parts := SplitOn(url, {'/'});
      '/' !in c.region && '/' !in scenario.batchJobName && '/' !in c.projectId ==>
        && |parts| == 10
        && parts[..6] == ["https:", "", "console.cloud.google.com", "batch", "jobsDetail", "regions"]
        && parts[6] == c.region && parts[7] == "jobs" && parts[8] == scenario.batchJobName
        && parts[9] == "logs?project=" + c.projectId
  {
    var parts := ["https:", "", "console.cloud.google.com", "batch", "jobsDetail", "regions",
                  c.region, "jobs", scenario.batchJobName, "logs?project=" + c.projectId];
    SplitsBack(parts, '/');
    Join(parts, '/')
  }

  /** The Cloud Console address that `get_artifacts_url` builds. */
  const StorageBrowser := "https://console.cloud.google.com/storage/browser/"

  /** `get_artifacts_url`: the storage browser page of the scenario's data
      folder; the folder is what follows the fixed address. */
  function GetArtifactsUrl(scenario: Scenario): (url: string)
    ensures StorageBrowser <= url
    ensures url[|StorageBrowser|..] == scenario.remoteDataPath
  {
    StorageBrowser + scenario.remoteDataPath
  }

  /** The artifacts link of a recorded scenario leads back to it: after the
      fixed address, the path splits into the bucket, the scheduler's two
      folders, the experiment name and the scenario name. */
  lemma ArtifactsUrlOfScenario(c: Config, oracles: Oracles, experimentName: string, row: Params, index: nat)
    requires "name" in row
    requires '/' !in c.bucketName && '/' !in experimentName && '/' !in row["name"]
    ensures var url := GetArtifactsUrl(ScenarioOf(c, oracles, experimentName, row, index));
      && StorageBrowser <= url
      && SplitOn(url[|StorageBrowser|..], {'/'}) == [c.bucketName, DataRoot, ExperimentsFolder, experimentName, row["name"]]
  {
  }

  /** The `run_container` options `run` passes: the solver arguments, the
      scenario folder mounted, the whole machine for one task. */
  function RunOptionsOf(c: Config, machine: Batch.MachineParams, jobName: string, cloudDataDir: string, args: seq<string>)
    : Batch.RunOptions
  {
    Batch.DefaultRunOptions.(
      customJobName := jobName,
      containerArgs := args,
      bucketPathToMount := cloudDataDir,
      vcpuPerTask := machine.guestCpus,
      memoryPerTask := machine.memoryMb,
      machineType := c.batchMachineType)
  }

  /** `run`: starts the scheduler image on Batch with the machine's full
      vCPU count and memory for a single task, so the capacity check always
      passes and exactly one request is sent. `generatedId` stands for the
      id `run_container` would draw when the job name is empty. */
  function Run(c: Config, oracles: Oracles, jobName: string, cloudDataDir: string, args: seq<string>,
               generatedId: string, sent: seq<Batch.CreateJobRequest>)
    : (r: Batch.Submission)
    ensures r.result == Success(Batch.JobNameOrGenerated(jobName, generatedId))
    ensures |r.sent| == |sent| + 1 && r.sent[..|sent|] == sent
    ensures var request := r.sent[|sent|];
      var machine := oracles.machines(c.batchMachineType);
      && request.jobId == r.result.value
      && request.parent == BatchClientOf(c).parent
      && request.job.machineType == c.batchMachineType
      && request.job.taskCount == 1
      && request.job.network == Batch.DefaultNetwork
      && request.job.subnetwork == "regions/" + c.region + "/subnetworks/default"
      && request.job.taskSpec.runnables == [Batch.Runnable(ContainerUri(c), args, "")]
      && request.job.taskSpec.computeResource == Batch.ComputeResource(1000 * machine.guestCpus, machine.memoryMb)
      && request.job.taskSpec.maxRetryCount == 2
      && request.job.taskSpec.maxRunDuration == "3600s"
      && (cloudDataDir != "" ==> request.job.taskSpec.volumes == [Batch.Volume(cloudDataDir, Batch.MountPath)])
      && (cloudDataDir == "" ==> request.job.taskSpec.volumes == [])
  {
    var machine := oracles.machines(c.batchMachineType);
    var opts := RunOptionsOf(c, machine, jobName, cloudDataDir, args);
    Batch.ExactFitIsSilent(machine, machine.guestCpus, machine.memoryMb, 1);
    Batch.RunContainer(BatchClientOf(c), ContainerUri(c), opts, generatedId, oracles.machines, sent)
  }

  /** The error `delete_experiment` raises: `list.remove` found no equal
      element. */
  datatype DeleteError = NotInList

  /** The index of the first element equal to `x`, or `|xs|`. */
  function IndexOf<T(==)>(xs: seq<T>, x: T): (i: nat)
    ensures i <= |xs|
    ensures i < |xs| ==> xs[i] == x
    ensures x !in xs[..i]
  {
    if |xs| == 0 then 0
    else if xs[0] == x then 0
    else
      var k := IndexOf(xs[1..], x);
      assert xs[1..][..k] == xs[1..k + 1];
      assert xs[..k + 1] == [xs[0]] + xs[1..k + 1];
      k + 1
  }

  /** `delete_experiment`: `list.remove` drops the first experiment equal to
      the argument, keeping the others in order, and raises when there is
      none. */
  function DeleteExperiment(experiments: seq<Experiment>, toDelete: Experiment): (r: Result<seq<Experiment>, DeleteError>)
    ensures r.Failure? <==> toDelete !in experiments
    ensures r.Success? ==>
      var i := IndexOf(experiments, toDelete);
      && i < |experiments| && experiments[i] == toDelete
      && toDelete !in experiments[..i]
      && r.value == experiments[..i] + experiments[i + 1..]
  {
    var i := IndexOf(experiments, toDelete);
    if i == |experiments| then
      assert experiments[..i] == experiments;
      Failure(NotInList)
    else Success(experiments[..i] + experiments[i + 1..])
  }

  /** Deleting and putting the experiment back at its old place restores the
      list, so exactly one occurrence goes. */
  lemma {:induction false} DeleteExperimentRemovesOne(experiments: seq<Experiment>, toDelete: Experiment)
    requires toDelete in experiments
    ensures DeleteExperiment(experiments, toDelete).Success?
    ensures var rest := DeleteExperiment(experiments, toDelete).value;
      var i := IndexOf(experiments, toDelete);
      && |rest| == |experiments| - 1
      && rest[..i] + [toDelete] + rest[i..] == experiments
      && multiset(rest) + multiset{toDelete} == multiset(experiments)
  {
    var i := IndexOf(experiments, toDelete);
    var rest := DeleteExperiment(experiments, toDelete).value;
    assert rest[..i] == experiments[..i];
    assert rest[i..] == experiments[i + 1..];
    assert experiments == experiments[..i] + [toDelete] + experiments[i + 1..];
    assert multiset(experiments) == multiset(experiments[..i]) + multiset{toDelete} + multiset(experiments[i + 1..]);
  }

  /** What `run_experiment` raises, with the index of the row it stopped at:
      a row without a "name" column (`KeyError`), or a failed upload
      (`FileExistsError`, missing bucket). */
  datatype RunError =
    | MissingName(row: nat)
    | StorageFailed(row: nat, error: Storage.StorageError)

  /** The store after an operation that only adds blobs: the same buckets,
      and every blob that existed before still holds its old content. */
  ghost predicate Keeps(before: Storage.Store, after: Storage.Store) {
    && before.Keys == after.Keys
    && forall b, n :: Storage.Get(before, b, n).Some? ==> Storage.Get(after, b, n) == Storage.Get(before, b, n)
  }

  /** The scenario folder of the named scenario, and the blobs of its two
      input files. */
  function ScenarioFolder(c: Config, experimentName: string, scenarioName: string): string {
    GenerateBucketPath(c.bucketName, experimentName, scenarioName)
  }

  function JobsBlob(c: Config, experimentName: string, scenarioName: string): (string, string) {
    Storage.BlobKey(ScenarioFolder(c, experimentName, scenarioName) + "/jobs.json")
  }

  function ParamsBlob(c: Config, experimentName: string, scenarioName: string): (string, string) {
    Storage.BlobKey(ScenarioFolder(c, experimentName, scenarioName) + "/params.json")
  }

  /** The part of an experiment's scenario folders before the scenario name. */
  function ExperimentFolder(c: Config, experimentName: string): string {
    c.bucketName + "/" + DataRoot + "/" + ExperimentsFolder + "/" + experimentName + "/"
  }

  lemma ScenarioFolderLayout(c: Config, experimentName: string, scenarioName: string)
    ensures ScenarioFolder(c, experimentName, scenarioName) == ExperimentFolder(c, experimentName) + scenarioName
    ensures |ExperimentFolder(c, experimentName)| > |Storage.Scheme|
    ensures ExperimentFolder(c, experimentName)[|ExperimentFolder(c, experimentName)| - 1] == '/'
  {
    assert |DataRoot| > |Storage.Scheme|;
  }

  /** The input files of an experiment's scenarios are distinct blobs: a
      `jobs.json` is never a `params.json`, and different scenario names give
      different blobs. */
  lemma InputBlobsDistinct(c: Config, experimentName: string, a: string, b: string)
    ensures JobsBlob(c, experimentName, a) != ParamsBlob(c, experimentName, b)
    ensures JobsBlob(c, experimentName, a) == JobsBlob(c, experimentName, b) ==> a == b
    ensures ParamsBlob(c, experimentName, a) == ParamsBlob(c, experimentName, b) ==> a == b
  {
    JobsBlobNotParamsBlob(c, experimentName, a, b);
    SameFileBlobs(c, experimentName, a, b, "/jobs.json");
    SameFileBlobs(c, experimentName, a, b, "/params.json");
  }

  lemma {:induction false} JobsBlobNotParamsBlob(c: Config, experimentName: string, a: string, b: string)
    ensures JobsBlob(c, experimentName, a) != ParamsBlob(c, experimentName, b)
  {
    InputFileNamesDiffer();
    DifferentFileBlobs(c, experimentName, a, "/jobs.json", b, "/params.json", 9);
  }

  /** The two input file names differ nine characters before their end. */
  lemma InputFileNamesDiffer()
    ensures var jobsFile, paramsFile := "/jobs.json", "/params.json";
      9 <= |jobsFile| && 9 <= |paramsFile| && jobsFile[|jobsFile| - 9] != paramsFile[|paramsFile| - 9]
  {
  }

  /** Files whose names differ at the same distance from their end are
      different blobs, whatever the scenario names. */
  lemma {:induction false} DifferentFileBlobs(c: Config, experimentName: string, a: string, fileA: string, b: string,
                                              fileB: string, d: nat)
    requires 0 < d <= |fileA| && d <= |fileB| && fileA[|fileA| - d] != fileB[|fileB| - d]
    ensures Storage.BlobKey(ScenarioFolder(c, experimentName, a) + fileA) != Storage.BlobKey(ScenarioFolder(c, experimentName, b) + fileB)
  {
    FileBlobs(c, experimentName, a, fileA, b, fileB);
    DifferentEndings(a, fileA, b, fileB, d);
  }

  /** The same file of two scenarios is one blob only for one scenario name. */
  lemma {:induction false} SameFileBlobs(c: Config, experimentName: string, a: string, b: string, file: string)
    ensures Storage.BlobKey(ScenarioFolder(c, experimentName, a) + file) == Storage.BlobKey(ScenarioFolder(c, experimentName, b) + file)
      ==> a == b
  {
    FileBlobs(c, experimentName, a, file, b, file);
    SameEnding(a, b, file);
  }

  /** Files of an experiment's scenarios are one blob only when the scenario
      names followed by the file names are equal. */
  lemma {:induction false} FileBlobs(c: Config, experimentName: string, a: string, fileA: string, b: string, fileB: string)
    ensures Storage.BlobKey(ScenarioFolder(c, experimentName, a) + fileA) == Storage.BlobKey(ScenarioFolder(c, experimentName, b) + fileB)
      ==> a + fileA == b + fileB
  {
    BlobUnderFolder(c, experimentName, a, fileA);
    BlobUnderFolder(c, experimentName, b, fileB);
    FolderKeyInjective(ExperimentFolder(c, experimentName), a + fileA, b + fileB);
  }

  /** A scenario's file as a path under the experiment's folder. */
  lemma BlobUnderFolder(c: Config, experimentName: string, scenarioName: string, file: string)
    ensures ScenarioFolder(c, experimentName, scenarioName) + file == ExperimentFolder(c, experimentName) + (scenarioName + file)
    ensures |ExperimentFolder(c, experimentName)| > |Storage.Scheme|
    ensures ExperimentFolder(c, experimentName)[|ExperimentFolder(c, experimentName)| - 1] == '/'
  {
    ScenarioFolderLayout(c, experimentName, scenarioName);
  }

  /** Paths under one folder name the same blob only when they are equal. */
  lemma {:induction false} FolderKeyInjective(folder: string, x: string, y: string)
    requires |folder| > |Storage.Scheme| && folder[|folder| - 1] == '/'
    ensures Storage.BlobKey(folder + x) == Storage.BlobKey(folder + y) ==> x == y
  {
    assert (folder + x)[..|folder|] == folder && (folder + y)[..|folder|] == folder;
    Storage.BlobKeyInjective(folder + x, folder + y, folder);
    if folder + x == folder + y {
      assert x == (folder + x)[|folder|..];
    }
  }

  lemma {:induction false} SameEnding(a: string, b: string, file: string)
    ensures a + file == b + file ==> a == b
  {
    if a + file == b + file {
      assert a == (a + file)[..|a|];
      assert b == (b + file)[..|b|];
    }
  }

  lemma {:induction false} DifferentEndings(a: string, fileA: string, b: string, fileB: string, d: nat)
    requires 0 < d <= |fileA| && d <= |fileB| && fileA[|fileA| - d] != fileB[|fileB| - d]
    ensures a + fileA != b + fileB
  {
    assert (a + fileA)[|a + fileA| - d] == fileA[|fileA| - d];
    assert (b + fileB)[|b + fileB| - d] == fileB[|fileB| - d];
  }

  /** The scenario `run_experiment` records for a row that has a name. */
  function ScenarioOf(c: Config, oracles: Oracles, experimentName: string, row: Params, index: nat): (s: Scenario)
    requires "name" in row
    ensures s.scenarioName == row["name"] && s.params == row && s.status == Queued
    ensures s.metrics == JObject(map[]) && s.results == JArray([])
    ensures s.remoteDataPath == ScenarioFolder(c, experimentName, row["name"])
    ensures s.batchJobName == Naming.JobName(experimentName, row["name"], oracles.randomIds(index))
  {
    var name := row["name"];
    NewScenario(name, Naming.JobName(experimentName, name, oracles.randomIds(index)), row,
                ScenarioFolder(c, experimentName, name))
  }

  /** The request `run` sends for a recorded scenario: the job is named
      after the scenario and mounts its folder. */
  predicate SubmitsScenario(c: Config, oracles: Oracles, request: Batch.CreateJobRequest, s: Scenario) {
    var machine := oracles.machines(c.batchMachineType);
    && request.jobId == s.batchJobName
    && request.parent == BatchClientOf(c).parent
    && request.job.machineType == c.batchMachineType
    && request.job.taskCount == 1
    && request.job.network == Batch.DefaultNetwork
    && request.job.subnetwork == "regions/" + c.region + "/subnetworks/default"
    && request.job.taskSpec.runnables == [Batch.Runnable(ContainerUri(c), SolverArgs, "")]
    && request.job.taskSpec.volumes == [Batch.Volume(s.remoteDataPath, Batch.MountPath)]
    && request.job.taskSpec.computeResource == Batch.ComputeResource(1000 * machine.guestCpus, machine.memoryMb)
    && request.job.taskSpec.maxRetryCount == 2
    && request.job.taskSpec.maxRunDuration == "3600s"
  }

  /** The cloud after one row, and the scenario or the error. */
  datatype RowOutcome = RowOutcome(cloud: Cloud, result: Result<Scenario, RunError>)

  /** What a row that goes through has done: its scenario is recorded, its
      two files were new and now hold the uploaded content, no other blob
      changed, and exactly one request for its job was appended. */
  ghost predicate RowWent(c: Config, oracles: Oracles, cloud: Cloud, experimentName: string, jobs: Storage.Content,
                          row: Params, index: nat, out: RowOutcome)
  {
    && out.result.Success?
    && "name" in row
    && var jobsBlob := JobsBlob(c, experimentName, row["name"]);
    && var paramsBlob := ParamsBlob(c, experimentName, row["name"]);
    && out.result.value == ScenarioOf(c, oracles, experimentName, row, index)
    && Storage.Get(cloud.store, jobsBlob.0, jobsBlob.1).None?
    && Storage.Get(cloud.store, paramsBlob.0, paramsBlob.1).None?
    && Storage.Get(out.cloud.store, jobsBlob.0, jobsBlob.1) == Some(jobs)
    && Storage.Get(out.cloud.store, paramsBlob.0, paramsBlob.1) == Some(oracles.dumps(row))
    && (forall b, n :: (b, n) != jobsBlob && (b, n) != paramsBlob ==>
          Storage.Get(out.cloud.store, b, n) == Storage.Get(cloud.store, b, n))
    && |out.cloud.sent| == |cloud.sent| + 1 && out.cloud.sent[..|cloud.sent|] == cloud.sent
    && SubmitsScenario(c, oracles, out.cloud.sent[|cloud.sent|], out.result.value)
  }

  /** One iteration of `run_experiment`'s row loop: read the name, upload
      `jobs.json` and `params.json` without overwriting, start the job, and
      build the scenario. An upload that fails stops the row; the uploads
      done before it stay. */
  function RunRow(c: Config, oracles: Oracles, cloud: Cloud, experimentName: string, jobs: Storage.Content,
                  row: Params, index: nat)
    : (out: RowOutcome)
    ensures "name" !in row ==> out == RowOutcome(cloud, Failure(MissingName(index)))
    ensures "name" in row ==>
      (out.result.Success? <==>
         && Storage.Vacant(cloud.store, JobsBlob(c, experimentName, row["name"]))
         && Storage.Vacant(cloud.store, ParamsBlob(c, experimentName, row["name"])))
    ensures "name" in row && out.result.Failure? ==>
      out.result.error.StorageFailed? && out.result.error.row == index && out.cloud.sent == cloud.sent
    ensures "name" in row && out.result.Failure? ==>
      forall b, n :: (b, n) != JobsBlob(c, experimentName, row["name"]) ==>
        Storage.Get(out.cloud.store, b, n) == Storage.Get(cloud.store, b, n)
    ensures Keeps(cloud.store, out.cloud.store)
    ensures out.result.Success? ==> RowWent(c, oracles, cloud, experimentName, jobs, row, index, out)
  {
    if "name" !in row then RowOutcome(cloud, Failure(MissingName(index)))
    else
      var name := row["name"];
      var path := ScenarioFolder(c, experimentName, name);
      InputBlobsDistinct(c, experimentName, name, name);
      Storage.TwoUploads(cloud.store, path + "/jobs.json", jobs, path + "/params.json", oracles.dumps(row));
      match Storage.Upload(cloud.store, path + "/jobs.json", jobs, false)
      case Failure(e) => RowOutcome(cloud, Failure(StorageFailed(index, e)))
      case Success(withJobs) =>
        match Storage.Upload(withJobs, path + "/params.json", oracles.dumps(row), false)
        case Failure(e) => RowOutcome(Cloud(withJobs, cloud.sent), Failure(StorageFailed(index, e)))
        case Success(withParams) =>
          var jobName := Naming.JobName(experimentName, name, oracles.randomIds(index));
          assert jobName != "" by { assert CountIn("", {'-'}) == 0; }
          var submission := Run(c, oracles, jobName, path, SolverArgs, "", cloud.sent);
          RowOutcome(Cloud(withParams, submission.sent), Success(NewScenario(name, jobName, row, path)))
  }

  /** `run_experiment`: one scenario per row, in row order. Each row's two
      input files are uploaded without overwriting and its job is started
      before the next row is read; the experiment is appended to the list
      only when every row has gone through, which happens exactly when every
      row has a distinct name and all input files are vacant. A failing row
      leaves the list as it was, while the uploads and jobs of the rows before
      it remain. */
  method RunExperiment(c: Config, oracles: Oracles, experiments: seq<Experiment>, cloud: Cloud,
                       experimentName: string, jobs: Storage.Content, rows: seq<Params>)
    returns (newExperiments: seq<Experiment>, newCloud: Cloud, error: Option<RunError>)
    ensures Keeps(cloud.store, newCloud.store)
    ensures error.None? <==> RowsFit(c, cloud.store, experimentName, rows)
    ensures RowsWent(c, oracles, cloud, newCloud, experimentName, jobs, rows, RowsDone(rows, error))
    ensures forall b, n :: Storage.Get(newCloud.store, b, n) != Storage.Get(cloud.store, b, n) ==>
      WrittenByRun(c, experimentName, rows, error, (b, n))
    ensures error.Some? ==>
      && newExperiments == experiments
      && error.value.row < |rows|
      && (error.value.MissingName? <==> "name" !in rows[error.value.row])
    ensures error.None? ==>
      && |newExperiments| == |experiments| + 1
      && newExperiments[..|experiments|] == experiments
      && newExperiments[|experiments|].experimentName == experimentName
      && newExperiments[|experiments|].status == Queued
      && |newExperiments[|experiments|].scenarios| == |rows|
      && forall k :: 0 <= k < |rows| ==>
           "name" in rows[k] && newExperiments[|experiments|].scenarios[k] == ScenarioOf(c, oracles, experimentName, rows[k], k)
  {
    var scenarios: seq<Scenario> := [];
    newCloud := cloud;
    ProgressStart(c, oracles, cloud, experimentName, jobs, rows);
    while |scenarios| < |rows|
      invariant Progress(c, oracles, cloud, newCloud, experimentName, jobs, rows, scenarios)
      decreases |rows| - |scenarios|
    {
      var out := RunRow(c, oracles, newCloud, experimentName, jobs, rows[|scenarios|], |scenarios|);
      if out.result.Failure? {
        ProgressFailure(c, oracles, cloud, newCloud, experimentName, jobs, rows, scenarios, out);
        newCloud := out.cloud;
        newExperiments := experiments;
        error := Some(out.result.error);
        return;
      }
      ProgressStep(c, oracles, cloud, newCloud, experimentName, jobs, rows, scenarios, out);
      newCloud := out.cloud;
      scenarios := scenarios + [out.result.value];
    }
    newExperiments := experiments + [NewExperiment(experimentName).(scenarios := scenarios)];
    error := None;
    ProgressDone(c, oracles, experiments, cloud, newCloud, experimentName, jobs, rows, scenarios, newExperiments);
  }

  /** How many rows went through: all of them, or those before the row the
      error names. */
  function RowsDone(rows: seq<Params>, error: Option<RunError>): nat {
    if error.Some? then error.value.row else |rows|
  }

  /** The blob is an input file of a row that went through, or the
      `jobs.json` a failing row uploaded before its `params.json` upload
      failed. */
  ghost predicate WrittenByRun(c: Config, experimentName: string, rows: seq<Params>, error: Option<RunError>,
                               key: (string, string))
  {
    || (RowsDone(rows, error) <= |rows| &&
          InputOfRows(JobsBlobOf(c, experimentName), ParamsBlobOf(c, experimentName), rows, RowsDone(rows, error), key))
    || (error.Some? && error.value.row < |rows| && "name" in rows[error.value.row] &&
          key == JobsBlob(c, experimentName, rows[error.value.row]["name"]))
  }

  /** What the rows ask of the store: every row has a name, no two names are
      equal, and each row's two input files are vacant. */
  ghost predicate RowsFit(c: Config, store: Storage.Store, experimentName: string, rows: seq<Params>) {
    && (forall k :: 0 <= k < |rows| ==> "name" in rows[k])
    && NamesDistinct(rows, |rows|)
    && forall k :: 0 <= k < |rows| && "name" in rows[k] ==>
         && Storage.Vacant(store, JobsBlob(c, experimentName, rows[k]["name"]))
         && Storage.Vacant(store, ParamsBlob(c, experimentName, rows[k]["name"]))
  }

  /** The first `done` rows went through: each has a name distinct from the
      others, its job request sits at its place after the initial ones, and
      its two input files were absent before and now hold their content. */
  ghost predicate RowsWent(c: Config, oracles: Oracles, cloud: Cloud, now: Cloud, experimentName: string,
                           jobs: Storage.Content, rows: seq<Params>, done: nat)
  {
    && done <= |rows|
    && |now.sent| == |cloud.sent| + done && now.sent[..|cloud.sent|] == cloud.sent
    && (forall k :: 0 <= k < done ==>
          && "name" in rows[k]
          && SubmitsScenario(c, oracles, now.sent[|cloud.sent| + k], ScenarioOf(c, oracles, experimentName, rows[k], k)))
    && (forall k :: 0 <= k < done && "name" in rows[k] ==>
          var jobsBlob := JobsBlob(c, experimentName, rows[k]["name"]);
          var paramsBlob := ParamsBlob(c, experimentName, rows[k]["name"]);
          && Storage.Get(cloud.store, jobsBlob.0, jobsBlob.1).None?
          && Storage.Get(cloud.store, paramsBlob.0, paramsBlob.1).None?
          && Storage.Get(now.store, jobsBlob.0, jobsBlob.1) == Some(jobs)
          && Storage.Get(now.store, paramsBlob.0, paramsBlob.1) == Some(oracles.dumps(rows[k])))
    && NamesDistinct(rows, done)
  }

  /** The loop invariant of `run_experiment`: the rows done so far have each
      recorded their scenario, uploaded their files and sent their job, no
      existing blob has changed, and every changed blob is an input file of
      one of them. */
  ghost predicate Progress(c: Config, oracles: Oracles, cloud: Cloud, now: Cloud, experimentName: string,
                           jobs: Storage.Content, rows: seq<Params>, scenarios: seq<Scenario>)
  {
    && |scenarios| <= |rows|
    && Keeps(cloud.store, now.store)
    && ScenariosDone(c, oracles, experimentName, rows, scenarios)
    && RequestsDone(c, oracles, cloud.sent, now.sent, scenarios)
    && BlobsDone(c, oracles, cloud.store, now.store, experimentName, jobs, rows, |scenarios|)
    && NamesDistinct(rows, |scenarios|)
    && Untouched(cloud.store, now.store, JobsBlobOf(c, experimentName), ParamsBlobOf(c, experimentName), rows, |scenarios|)
  }

  lemma ProgressStart(c: Config, oracles: Oracles, cloud: Cloud, experimentName: string,
                      jobs: Storage.Content, rows: seq<Params>)
    ensures Progress(c, oracles, cloud, cloud, experimentName, jobs, rows, [])
  {
    assert cloud.sent[..|cloud.sent|] == cloud.sent;
  }

  /** A row that goes through extends the invariant by one row. */
  lemma ProgressStep(c: Config, oracles: Oracles, cloud: Cloud, now: Cloud, experimentName: string,
                     jobs: Storage.Content, rows: seq<Params>, scenarios: seq<Scenario>, out: RowOutcome)
    requires Progress(c, oracles, cloud, now, experimentName, jobs, rows, scenarios) && |scenarios| < |rows|
    requires out == RunRow(c, oracles, now, experimentName, jobs, rows[|scenarios|], |scenarios|)
    requires out.result.Success?
    ensures Progress(c, oracles, cloud, out.cloud, experimentName, jobs, rows, scenarios + [out.result.value])
  {
    var i := |scenarios|;
    assert RowWent(c, oracles, now, experimentName, jobs, rows[i], i, out);
    KeepsTransitive(cloud.store, now.store, out.cloud.store);
    ScenariosStep(c, oracles, experimentName, rows, scenarios, out.result.value);
    RequestsStep(cloud.sent, now.sent, out.cloud.sent, scenarios, out.result.value, SubmitsOf(c, oracles));
    BlobsStep(cloud.store, now.store, out.cloud.store, JobsBlobOf(c, experimentName), ParamsBlobOf(c, experimentName),
              jobs, oracles.dumps, rows, i);
    NamesStep(c, now.store, experimentName, jobs, rows, i);
    UntouchedStep(cloud.store, now.store, out.cloud.store, JobsBlobOf(c, experimentName), ParamsBlobOf(c, experimentName),
                  rows, i);
  }

  /** A row that fails leaves the requests and blobs of the earlier rows in
      place and names itself; it cannot fail when the rows fit the store. */
  lemma ProgressFailure(c: Config, oracles: Oracles, cloud: Cloud, now: Cloud, experimentName: string,
                        jobs: Storage.Content, rows: seq<Params>, scenarios: seq<Scenario>, out: RowOutcome)
    requires Progress(c, oracles, cloud, now, experimentName, jobs, rows, scenarios) && |scenarios| < |rows|
    requires out == RunRow(c, oracles, now, experimentName, jobs, rows[|scenarios|], |scenarios|)
    requires out.result.Failure?
    ensures Keeps(cloud.store, out.cloud.store)
    ensures RowsWent(c, oracles, cloud, out.cloud, experimentName, jobs, rows, |scenarios|)
    ensures out.result.error.row == |scenarios|
    ensures out.result.error.MissingName? <==> "name" !in rows[|scenarios|]
    ensures !RowsFit(c, cloud.store, experimentName, rows)
    ensures forall b, n :: Storage.Get(out.cloud.store, b, n) != Storage.Get(cloud.store, b, n) ==>
      WrittenByRun(c, experimentName, rows, Some(out.result.error), (b, n))
  {
    var i := |scenarios|;
    var jobsOf, paramsOf := JobsBlobOf(c, experimentName), ParamsBlobOf(c, experimentName);
    assert forall b, n :: Storage.Get(out.cloud.store, b, n) != Storage.Get(now.store, b, n) ==>
      "name" in rows[i] && (b, n) == jobsOf(rows[i]["name"]);
    UntouchedFailStep(cloud.store, now.store, out.cloud.store, jobsOf, paramsOf, rows, i);
    assert RowsDone(rows, Some(out.result.error)) == i;
    ProgressMeans(c, oracles, cloud, now, experimentName, jobs, rows, scenarios);
    KeepsTransitive(cloud.store, now.store, out.cloud.store);
    RowsWentKeeps(c, oracles, cloud, now, out.cloud, experimentName, jobs, rows, |scenarios|);
    FitRowGoesThrough(c, oracles, cloud, now, experimentName, jobs, rows, scenarios);
  }

  /** Once every row has gone through, the appended experiment holds one
      scenario per row, in row order, and the rows fit the initial store. */
  lemma ProgressDone(c: Config, oracles: Oracles, experiments: seq<Experiment>, cloud: Cloud, now: Cloud,
                     experimentName: string, jobs: Storage.Content, rows: seq<Params>, scenarios: seq<Scenario>,
                     newExperiments: seq<Experiment>)
    requires Progress(c, oracles, cloud, now, experimentName, jobs, rows, scenarios) && |scenarios| == |rows|
    requires newExperiments == experiments + [NewExperiment(experimentName).(scenarios := scenarios)]
    ensures Keeps(cloud.store, now.store)
    ensures RowsWent(c, oracles, cloud, now, experimentName, jobs, rows, |rows|)
    ensures RowsFit(c, cloud.store, experimentName, rows)
    ensures
      && |newExperiments| == |experiments| + 1
      && newExperiments[..|experiments|] == experiments
      && newExperiments[|experiments|].experimentName == experimentName
      && newExperiments[|experiments|].status == Queued
      && |newExperiments[|experiments|].scenarios| == |rows|
      && forall k :: 0 <= k < |rows| ==>
           "name" in rows[k] && newExperiments[|experiments|].scenarios[k] == ScenarioOf(c, oracles, experimentName, rows[k], k)
    ensures forall b, n :: Storage.Get(now.store, b, n) != Storage.Get(cloud.store, b, n) ==>
      WrittenByRun(c, experimentName, rows, None, (b, n))
  {
    assert RowsDone(rows, None) == |rows|;
    ProgressMeans(c, oracles, cloud, now, experimentName, jobs, rows, scenarios);
    RowsWentFit(c, oracles, cloud, now, experimentName, jobs, rows);
    assert newExperiments[..|experiments|] == experiments;
  }

  /** The invariant, spelled out for the rows done so far. */
  lemma ProgressMeans(c: Config, oracles: Oracles, cloud: Cloud, now: Cloud, experimentName: string,
                      jobs: Storage.Content, rows: seq<Params>, scenarios: seq<Scenario>)
    requires Progress(c, oracles, cloud, now, experimentName, jobs, rows, scenarios)
    ensures RowsWent(c, oracles, cloud, now, experimentName, jobs, rows, |scenarios|)
  {
    RequestsDoneMeans(c, oracles, cloud.sent, now.sent, scenarios);
  }

  /** A step that only adds blobs and sends nothing keeps what the earlier
      rows did. */
  lemma RowsWentKeeps(c: Config, oracles: Oracles, cloud: Cloud, now: Cloud, after: Cloud, experimentName: string,
                      jobs: Storage.Content, rows: seq<Params>, done: nat)
    requires RowsWent(c, oracles, cloud, now, experimentName, jobs, rows, done)
    requires Keeps(now.store, after.store) && after.sent == now.sent
    ensures RowsWent(c, oracles, cloud, after, experimentName, jobs, rows, done)
  {
  }

  /** When every row went through, the rows fit the initial store. */
  lemma RowsWentFit(c: Config, oracles: Oracles, cloud: Cloud, now: Cloud, experimentName: string,
                    jobs: Storage.Content, rows: seq<Params>)
    requires Keeps(cloud.store, now.store)
    requires RowsWent(c, oracles, cloud, now, experimentName, jobs, rows, |rows|)
    ensures RowsFit(c, cloud.store, experimentName, rows)
  {
    forall k | 0 <= k < |rows| && "name" in rows[k]
      ensures Storage.Vacant(cloud.store, JobsBlob(c, experimentName, rows[k]["name"]))
      ensures Storage.Vacant(cloud.store, ParamsBlob(c, experimentName, rows[k]["name"]))
    {
      var jobsBlob := JobsBlob(c, experimentName, rows[k]["name"]);
      var paramsBlob := ParamsBlob(c, experimentName, rows[k]["name"]);
      assert Storage.Get(now.store, jobsBlob.0, jobsBlob.1).Some?;
      assert Storage.Get(now.store, paramsBlob.0, paramsBlob.1).Some?;
    }
  }

  /** When the rows fit the initial store, the next row goes through: its
      files are vacant, since every blob changed so far belongs to an earlier
      row, and those have other names. */
  lemma FitRowGoesThrough(c: Config, oracles: Oracles, cloud: Cloud, now: Cloud, experimentName: string,
                          jobs: Storage.Content, rows: seq<Params>, scenarios: seq<Scenario>)
    requires Progress(c, oracles, cloud, now, experimentName, jobs, rows, scenarios) && |scenarios| < |rows|
    ensures RowsFit(c, cloud.store, experimentName, rows) ==>
      RunRow(c, oracles, now, experimentName, jobs, rows[|scenarios|], |scenarios|).result.Success?
  {
    if RowsFit(c, cloud.store, experimentName, rows) {
      var i := |scenarios|;
      var name := rows[i]["name"];
      var jobsBlob, paramsBlob := JobsBlob(c, experimentName, name), ParamsBlob(c, experimentName, name);
      NotInputOfEarlierRows(c, experimentName, rows, i);
      assert Storage.Get(now.store, jobsBlob.0, jobsBlob.1) == Storage.Get(cloud.store, jobsBlob.0, jobsBlob.1);
      assert Storage.Get(now.store, paramsBlob.0, paramsBlob.1) == Storage.Get(cloud.store, paramsBlob.0, paramsBlob.1);
    }
  }

  /** The first rows have a name and their scenarios, in row order. */
  ghost predicate ScenariosDone(c: Config, oracles: Oracles, experimentName: string, rows: seq<Params>,
                                scenarios: seq<Scenario>) {
    && |scenarios| <= |rows|
    && forall k :: 0 <= k < |scenarios| ==>
         "name" in rows[k] && scenarios[k] == ScenarioOf(c, oracles, experimentName, rows[k], k)
  }

  /** One request per scenario was appended to the initial requests, in
      order. */
  ghost predicate RequestsDone(c: Config, oracles: Oracles, initial: seq<Batch.CreateJobRequest>,
                               now: seq<Batch.CreateJobRequest>, scenarios: seq<Scenario>) {
    AppendedInOrder(initial, now, scenarios, SubmitsOf(c, oracles))
  }

  /** What `RequestsDone` says, request by request. */
  lemma RequestsDoneMeans(c: Config, oracles: Oracles, initial: seq<Batch.CreateJobRequest>,
                          now: seq<Batch.CreateJobRequest>, scenarios: seq<Scenario>)
    requires RequestsDone(c, oracles, initial, now, scenarios)
    ensures |now| == |initial| + |scenarios| && now[..|initial|] == initial
    ensures forall k :: 0 <= k < |scenarios| ==> SubmitsScenario(c, oracles, now[|initial| + k], scenarios[k])
  {
  }

  function SubmitsOf(c: Config, oracles: Oracles): (Batch.CreateJobRequest, Scenario) -> bool {
    (request, s) => SubmitsScenario(c, oracles, request, s)
  }

  /** `now` is `initial` followed by one element per item, each related to
      its item. */
  ghost predicate AppendedInOrder<A, B>(initial: seq<A>, now: seq<A>, items: seq<B>, related: (A, B) -> bool) {
    && |now| == |initial| + |items| && now[..|initial|] == initial
    && forall k :: 0 <= k < |items| ==> related(now[|initial| + k], items[k])
  }

  /** The files of the first `i` rows are in place, and neither existed
      before. */
  ghost predicate BlobsDone(c: Config, oracles: Oracles, initial: Storage.Store, now: Storage.Store,
                            experimentName: string, jobs: Storage.Content, rows: seq<Params>, i: nat)
    requires i <= |rows|
  {
    BlobsHeld(initial, now, JobsBlobOf(c, experimentName), ParamsBlobOf(c, experimentName), jobs, oracles.dumps, rows, i)
  }

  function JobsBlobOf(c: Config, experimentName: string): string -> (string, string) {
    name => JobsBlob(c, experimentName, name)
  }

  function ParamsBlobOf(c: Config, experimentName: string): string -> (string, string) {
    name => ParamsBlob(c, experimentName, name)
  }

  /** `BlobsDone` for any placement of the two files. */
  ghost predicate BlobsHeld(initial: Storage.Store, now: Storage.Store,
                            jobsKey: string -> (string, string), paramsKey: string -> (string, string),
                            jobs: Storage.Content, dumps: Params -> Storage.Content, rows: seq<Params>, i: nat)
    requires i <= |rows|
  {
    forall k :: 0 <= k < i && "name" in rows[k] ==>
      && Storage.Get(initial, jobsKey(rows[k]["name"]).0, jobsKey(rows[k]["name"]).1).None?
      && Storage.Get(initial, paramsKey(rows[k]["name"]).0, paramsKey(rows[k]["name"]).1).None?
      && Storage.Get(now, jobsKey(rows[k]["name"]).0, jobsKey(rows[k]["name"]).1) == Some(jobs)
      && Storage.Get(now, paramsKey(rows[k]["name"]).0, paramsKey(rows[k]["name"]).1) == Some(dumps(rows[k]))
  }

  /** No two of the first `i` rows share a name. */
  ghost predicate NamesDistinct(rows: seq<Params>, i: nat)
    requires i <= |rows|
  {
    forall k, j :: 0 <= k < j < i && "name" in rows[k] && "name" in rows[j] ==> rows[k]["name"] != rows[j]["name"]
  }

  /** Adding blobs twice adds blobs. */
  lemma KeepsTransitive(a: Storage.Store, b: Storage.Store, c: Storage.Store)
    requires Keeps(a, b) && Keeps(b, c)
    ensures Keeps(a, c)
  {
  }

  /** The scenarios of the first rows, followed by the next row's. */
  lemma ScenariosStep(c: Config, oracles: Oracles, experimentName: string, rows: seq<Params>,
                      scenarios: seq<Scenario>, s: Scenario)
    requires ScenariosDone(c, oracles, experimentName, rows, scenarios) && |scenarios| < |rows|
    requires "name" in rows[|scenarios|] && s == ScenarioOf(c, oracles, experimentName, rows[|scenarios|], |scenarios|)
    ensures ScenariosDone(c, oracles, experimentName, rows, scenarios + [s])
  {
  }

  /** The requests of the first rows stay where they are when the next one
      is appended. */
  lemma RequestsStep<A, B>(initial: seq<A>, now: seq<A>, after: seq<A>, items: seq<B>, item: B, related: (A, B) -> bool)
    requires AppendedInOrder(initial, now, items, related)
    requires |after| == |now| + 1 && after[..|now|] == now
    requires related(after[|now|], item)
    ensures AppendedInOrder(initial, after, items + [item], related)
  {
    assert after[..|initial|] == now[..|initial|];
    forall k | 0 <= k < |items| + 1
      ensures related(after[|initial| + k], (items + [item])[k])
    {
      if k < |items| {
        assert after[|initial| + k] == now[|initial| + k];
      }
    }
  }

  /** The files of the first `i` rows survive the next row, whose own files
      were new. */
  lemma BlobsStep(initial: Storage.Store, now: Storage.Store, after: Storage.Store,
                  jobsKey: string -> (string, string), paramsKey: string -> (string, string),
                  jobs: Storage.Content, dumps: Params -> Storage.Content, rows: seq<Params>, i: nat)
    requires i < |rows| && "name" in rows[i]
    requires Keeps(initial, now) && Keeps(now, after)
    requires BlobsHeld(initial, now, jobsKey, paramsKey, jobs, dumps, rows, i)
    requires var name := rows[i]["name"];
      && Storage.Get(now, jobsKey(name).0, jobsKey(name).1).None?
      && Storage.Get(now, paramsKey(name).0, paramsKey(name).1).None?
      && Storage.Get(after, jobsKey(name).0, jobsKey(name).1) == Some(jobs)
      && Storage.Get(after, paramsKey(name).0, paramsKey(name).1) == Some(dumps(rows[i]))
    ensures BlobsHeld(initial, after, jobsKey, paramsKey, jobs, dumps, rows, i + 1)
  {
    var blob := jobsKey(rows[i]["name"]);
    assert Storage.Get(initial, blob.0, blob.1).Some? ==>
      Storage.Get(now, blob.0, blob.1) == Storage.Get(initial, blob.0, blob.1);
    var other := paramsKey(rows[i]["name"]);
    assert Storage.Get(initial, other.0, other.1).Some? ==>
      Storage.Get(now, other.0, other.1) == Storage.Get(initial, other.0, other.1);
  }

  /** A row whose `jobs.json` was new cannot share its name with an earlier
      row, whose `jobs.json` is already there. */
  lemma NamesStep(c: Config, now: Storage.Store, experimentName: string, jobs: Storage.Content,
                  rows: seq<Params>, i: nat)
    requires i < |rows| && "name" in rows[i]
    requires forall k :: 0 <= k < i && "name" in rows[k] ==>
      var jobsBlob := JobsBlob(c, experimentName, rows[k]["name"]);
      Storage.Get(now, jobsBlob.0, jobsBlob.1) == Some(jobs)
    requires var jobsBlob := JobsBlob(c, experimentName, rows[i]["name"]);
      Storage.Get(now, jobsBlob.0, jobsBlob.1).None?
    requires NamesDistinct(rows, i)
    ensures NamesDistinct(rows, i + 1)
  {
    forall k | 0 <= k < i && "name" in rows[k]
      ensures rows[k]["name"] != rows[i]["name"]
    {
      var other := JobsBlob(c, experimentName, rows[k]["name"]);
      assert Storage.Get(now, other.0, other.1) == Some(jobs);
    }
    NamesExtend(rows, i);
  }

  /** A name that differs from every earlier one keeps the names distinct. */
  lemma NamesExtend(rows: seq<Params>, i: nat)
    requires i < |rows| && "name" in rows[i]
    requires NamesDistinct(rows, i)
    requires forall k :: 0 <= k < i && "name" in rows[k] ==> rows[k]["name"] != rows[i]["name"]
    ensures NamesDistinct(rows, i + 1)
  {
    forall k, j | 0 <= k < j < i + 1 && "name" in rows[k] && "name" in rows[j]
      ensures rows[k]["name"] != rows[j]["name"]
    {
      if j == i {
        assert rows[k]["name"] != rows[i]["name"];
      }
    }
  }

  /** Every blob that differs from the initial store is an input file of one
      of the first `i` rows, the files of a row named `name` being
      `jobsOf(name)` and `paramsOf(name)`. */
  ghost predicate Untouched(initial: Storage.Store, now: Storage.Store, jobsOf: string -> (string, string),
                            paramsOf: string -> (string, string), rows: seq<Params>, i: nat)
    requires i <= |rows|
  {
    forall b, n :: Storage.Get(now, b, n) != Storage.Get(initial, b, n) ==> InputOfRows(jobsOf, paramsOf, rows, i, (b, n))
  }

  /** The blob is one of the two input files of one of the first `i` rows. */
  ghost predicate InputOfRows(jobsOf: string -> (string, string), paramsOf: string -> (string, string),
                              rows: seq<Params>, i: nat, key: (string, string))
    requires i <= |rows|
  {
    exists k :: 0 <= k < i && "name" in rows[k] && (key == jobsOf(rows[k]["name"]) || key == paramsOf(rows[k]["name"]))
  }

  /** A row that changes only its own two files keeps every change accounted
      for. */
  lemma UntouchedStep(initial: Storage.Store, now: Storage.Store, after: Storage.Store,
                      jobsOf: string -> (string, string), paramsOf: string -> (string, string), rows: seq<Params>, i: nat)
    requires i < |rows| && "name" in rows[i]
    requires Untouched(initial, now, jobsOf, paramsOf, rows, i)
    requires forall b, n ::
      (b, n) != jobsOf(rows[i]["name"]) && (b, n) != paramsOf(rows[i]["name"]) ==> Storage.Get(after, b, n) == Storage.Get(now, b, n)
    ensures Untouched(initial, after, jobsOf, paramsOf, rows, i + 1)
  {
    forall b, n | Storage.Get(after, b, n) != Storage.Get(initial, b, n)
      ensures InputOfRows(jobsOf, paramsOf, rows, i + 1, (b, n))
    {
      if Storage.Get(now, b, n) != Storage.Get(initial, b, n) {
        var k :| 0 <= k < i && "name" in rows[k] && ((b, n) == jobsOf(rows[k]["name"]) || (b, n) == paramsOf(rows[k]["name"]));
        assert 0 <= k < i + 1;
      } else {
        assert "name" in rows[i] && ((b, n) == jobsOf(rows[i]["name"]) || (b, n) == paramsOf(rows[i]["name"]));
      }
    }
  }

  /** A row that fails after changing at most its own `jobs.json` leaves every
      change an input file of an earlier row or that `jobs.json`. */
  lemma UntouchedFailStep(initial: Storage.Store, now: Storage.Store, after: Storage.Store,
                          jobsOf: string -> (string, string), paramsOf: string -> (string, string), rows: seq<Params>, i: nat)
    requires i < |rows|
    requires Untouched(initial, now, jobsOf, paramsOf, rows, i)
    requires forall b, n :: Storage.Get(after, b, n) != Storage.Get(now, b, n) ==>
      "name" in rows[i] && (b, n) == jobsOf(rows[i]["name"])
    ensures forall b, n :: Storage.Get(after, b, n) != Storage.Get(initial, b, n) ==>
      InputOfRows(jobsOf, paramsOf, rows, i, (b, n)) || ("name" in rows[i] && (b, n) == jobsOf(rows[i]["name"]))
  {
    forall b, n | Storage.Get(after, b, n) != Storage.Get(initial, b, n)
      ensures InputOfRows(jobsOf, paramsOf, rows, i, (b, n)) || ("name" in rows[i] && (b, n) == jobsOf(rows[i]["name"]))
    {
      if Storage.Get(now, b, n) == Storage.Get(initial, b, n) {
        assert Storage.Get(after, b, n) != Storage.Get(now, b, n);
      }
    }
  }

  /** A row whose name differs from those of the rows before it has input
      files that none of them wrote. */
  lemma NotInputOfEarlierRows(c: Config, experimentName: string, rows: seq<Params>, i: nat)
    requires i < |rows| && "name" in rows[i]
    requires forall k :: 0 <= k < i && "name" in rows[k] ==> rows[k]["name"] != rows[i]["name"]
    ensures !InputOfRows(JobsBlobOf(c, experimentName), ParamsBlobOf(c, experimentName), rows, i,
                         JobsBlob(c, experimentName, rows[i]["name"]))
    ensures !InputOfRows(JobsBlobOf(c, experimentName), ParamsBlobOf(c, experimentName), rows, i,
                         ParamsBlob(c, experimentName, rows[i]["name"]))
  {
    var name := rows[i]["name"];
    forall k | 0 <= k < i && "name" in rows[k]
      ensures JobsBlob(c, experimentName, name) != JobsBlob(c, experimentName, rows[k]["name"])
      ensures JobsBlob(c, experimentName, name) != ParamsBlob(c, experimentName, rows[k]["name"])
      ensures ParamsBlob(c, experimentName, name) != JobsBlob(c, experimentName, rows[k]["name"])
      ensures ParamsBlob(c, experimentName, name) != ParamsBlob(c, experimentName, rows[k]["name"])
    {
      InputBlobsDistinct(c, experimentName, name, rows[k]["name"]);
      InputBlobsDistinct(c, experimentName, rows[k]["name"], name);
    }
  }
}
