# Batch scheduler for solver experiments — a Dafny model

The scheduler runs optimisation-solver experiments on Google Cloud. An
*experiment* is a table of *scenarios*, one per row. For each row the
scheduler does three things:

- uploads the shared `jobs.json` and the row's `params.json` to a Cloud
  Storage folder;
- starts one Cloud Batch job running the scheduler container, with that
  folder mounted;
- records the scenario.

A polling cycle then moves every unfinished scenario to the state Batch
reports for it. It fetches a scenario's metrics and results the first time
the job is seen SUCCEEDED. It sets each experiment's state to the lowest
state rank among its scenarios.

This project models that core as pure Dafny functions over immutable data.
Cloud Storage is a map from bucket to blob name to bytes. Batch is the list
of create-job requests it has received. The parts whose answers are not
computed here are function parameters:

- Batch's job status;
- JSON download and parsing;
- the machine-types service;
- `json.dumps`;
- the random suffixes;
- the registry's tag lookup.

Modules, one per source concern:

- `Wrappers`: `Option` and `Result`.
- `Strings`: splitting at a set of separators, joining, and their round trips.
- `JobStatus`: the Batch state ranks 0–6.
- `DataStructures`: `Scenario` and `Experiment`.
- `Helpers`: the dashboard's status labels and help texts.
- `Naming`: `_remove_nonascii` and the job name.
- `Storage`: the Cloud Storage client.
- `Batch`: the Batch client.
- `ArtifactsRegistry`: the Artifact Registry client.
- `Scheduler`: URLs, `run`, `run_experiment` and `delete_experiment`.
- `Polling`: one pass of `update_jobs_state`.

Behaviours of the code that the model keeps:

- **Job names.** They are the sanitised experiment name, scenario name and
  random suffix joined with `-` (`trial1-fast-1a2b3c4d`). The parts are not
  run together.
- **Deleting an absent experiment.** This raises, because `list.remove`
  raises. It is not a silent no-op.
- **Duplicate experiment names.** Adding an experiment does not check for
  them. A repeated scenario name within one experiment does fail, because
  its `jobs.json` upload refuses to overwrite. `Scheduler.RunExperiment`
  states when a run goes through: every row has a name, no two names are
  equal, and every input file is absent from an existing bucket.
- **A failed run is not undone.** The rows before the failing one keep their
  uploaded files and their started jobs; only the experiment is not
  recorded.
- **A bucket-only storage path.** `_split_bucket_path` splits it wrongly (see
  Findings). The model's storage operations use the corrected split. Every
  path the scheduler builds has a `/` after the bucket, and for such paths
  both splits address the same blob (`Storage.BlobKeyAsWritten`).
- **A service account.** The Batch client's constructor looks the
  credentials up on its `str` argument, so any non-empty account makes it
  raise (see Findings). The model's client is built as intended and records
  the account; `Batch.NewBatchClientAsWritten` keeps the failing
  constructor.
- **Aggregate status.** It is the numeric minimum, so SUCCEEDED (4) wins over
  FAILED (5) once all scenarios have finished. This is the code's behaviour,
  and `Polling.SucceededMasksFailed` states it.

## Model

| member | source | states |
|---|---|---|
| DataStructures.NewScenario | scheduler/datastructures.py:5-13 | a new scenario keeps its name, job, parameters and folder, has empty metrics `{}` and results `[]`, and is QUEUED |
| DataStructures.NewExperiment | scheduler/datastructures.py:15-19 | a new experiment has its name, no scenarios, and is QUEUED |
| DataStructures.ScenarioEqualityIsFieldwise | scheduler/datastructures.py:5-13 | two scenarios are equal exactly when all seven fields are equal (dataclass equality) |
| DataStructures.ExperimentEqualityIsFieldwise | scheduler/datastructures.py:15-19 | two experiments are equal exactly when name, scenarios and status are equal |
| Helpers.MapJobStatusToText | helpers.py:87-90 | the label of every rank is `:colour[STATE]`: the rank's state name in gray (0–2), orange (3), green (4) or red (5–6) |
| Helpers.LabelsNameStateInColour | helpers.py:88-89 | the label table agrees rank by rank with colour plus state name |
| Helpers.MapJobStatusToHelp | helpers.py:93-104 | every rank has a non-empty help sentence; SUCCEEDED promises "results and metrics" and RUNNING says "running" |
| Naming.Sanitize | scheduler/scheduler.py:100-103 | the sanitised text holds only `[a-z0-9]` and is no longer than the input |
| Naming.KeptLetterOrDigit | scheduler/scheduler.py:101-103 | an ASCII letter or digit is kept, lower-cased; any other character is dropped |
| Naming.SanitizeAppend | scheduler/scheduler.py:100-103 | sanitising works character by character: the sanitisation of a concatenation is the concatenation of the sanitisations |
| Naming.SanitizeAt | scheduler/scheduler.py:100-103 | each input character contributes its kept form at its own place among the others |
| Naming.SanitizeIdentifier | scheduler/scheduler.py:100-103 | text already in `[a-z0-9]` is left unchanged |
| Naming.SanitizeDropsSeparator | scheduler/scheduler.py:100-103 | a character other than an ASCII letter or digit between two identifiers vanishes ("trial-1" becomes "trial1") |
| Naming.SanitizeIdempotent | scheduler/scheduler.py:100-103 | sanitising twice is sanitising once |
| Naming.RemoveNonAscii | scheduler/scheduler.py:100-103 | the loop that lowers and filters computes exactly the reference sanitisation |
| Naming.JobName | scheduler/scheduler.py:105-106 | splitting the job name at `-` gives back the three sanitised parts; the name has exactly two dashes and only `[a-z0-9-]` |
| Naming.JobNameLayout | scheduler/scheduler.py:105-106 | the job name is sanitised experiment, dash, sanitised scenario, dash, sanitised suffix |
| Naming.JobNameStartsWith | scheduler/scheduler.py:105-106 | the job name starts with the sanitised experiment and scenario names, each followed by a dash |
| Naming.JobNameExample | scheduler/scheduler.py:105-106 | experiment "trial-1" with scenario "fast" gets a job name starting "trial1-fast-" |
| Storage.AddGs | scheduler/googlecloudplatform/storage.py:15-18 | the result carries the `gs://` scheme, and is the input itself when the input already has it |
| Storage.RemoveGs | scheduler/googlecloudplatform/storage.py:20-23 | one leading `gs://` is removed; a path without it is unchanged |
| Storage.AddGsIdempotent | scheduler/googlecloudplatform/storage.py:15-18 | adding the scheme twice is adding it once |
| Storage.RemoveGsAddGs | scheduler/googlecloudplatform/storage.py:15-23 | removing the added scheme gives back a scheme-less path |
| Storage.AddGsRemoveGs | scheduler/googlecloudplatform/storage.py:15-23 | a path normalises to the same URI with or without its scheme |
| Storage.SplitBucketPathAsWrittenTruncates | scheduler/googlecloudplatform/storage.py:38-41 | as written, a bucket-only path loses the bucket's last character and repeats the whole name as the relative path |
| Storage.SplitBucketPathAsWrittenExample | scheduler/googlecloudplatform/storage.py:38-41 | as written, "gs://mybucket" splits into ("mybucke", "mybucket") |
| Storage.SplitBucketPath | scheduler/googlecloudplatform/storage.py:30-41 | the bucket has no `/`; bucket, `/` and relative path rebuild the scheme-less path; a bucket-only path gives (bucket, "") |
| Storage.SplitBucketPathAgrees | scheduler/googlecloudplatform/storage.py:38-41 | the corrected and the written split agree whenever the path has a `/` after the scheme |
| Storage.SplitBucketPathOfJoin | scheduler/googlecloudplatform/storage.py:30-41 | splitting `gs://bucket/relative` gives back bucket and relative path |
| Storage.SplitBucketPathExample | scheduler/googlecloudplatform/storage.py:33-36 | the docstring example: "gs://mytestbucket/my/test/path" gives ("mytestbucket", "my/test/path") |
| Storage.NormalisedPath | scheduler/googlecloudplatform/storage.py:15-23 | a path with a `/` beyond the scheme's length keeps a `/` once normalised, and normalising strips at most the scheme |
| Storage.BlobKeyInjective | scheduler/googlecloudplatform/storage.py:15-41 | two paths that share a prefix ending in `/` address the same blob only when they are the same path |
| Storage.BlobKeyAsWritten | scheduler/googlecloudplatform/storage.py:30-41 | for such paths the split as written addresses the same blob as the corrected split |
| Storage.PreUpload | scheduler/googlecloudplatform/storage.py:43-51 | the upload target is returned exactly when the bucket exists and either overwriting is allowed or the blob is absent; otherwise the error is a missing bucket or an existing file |
| Storage.Upload | scheduler/googlecloudplatform/storage.py:58-74 | an upload succeeds exactly when the guard does; it writes the target blob only, and without `overwrite` no existing blob changes |
| Storage.TwoUploads | scheduler/googlecloudplatform/storage.py:43-74 | two uploads without `overwrite` to different blobs both go through exactly when both blobs are absent from existing buckets beforehand |
| Storage.FileExists | scheduler/googlecloudplatform/storage.py:53-56 | the answer is whether the blob exists; a missing bucket is an error |
| Storage.DownloadContent | scheduler/googlecloudplatform/storage.py:81-84 | the result is the parsed content of the blob, and exists exactly when the blob does |
| Storage.ListingPrefix | scheduler/googlecloudplatform/storage.py:98-99 | a non-empty relative path is extended to end in `/`, one that already ends in `/` is kept as it is, and an empty one stays empty |
| Storage.FirstComponentShape | scheduler/googlecloudplatform/storage.py:104 | the first component of a name is a `/`-free prefix ending at the end of the name or at a `/` |
| Storage.ListFiles | scheduler/googlecloudplatform/storage.py:86-105 | a listing succeeds exactly when the bucket exists |
| Storage.ListFilesSound | scheduler/googlecloudplatform/storage.py:96-105 | every listed item is one path component that some blob under the prefix continues with |
| Storage.ListFilesComplete | scheduler/googlecloudplatform/storage.py:96-105 | every blob under the prefix is represented by the item naming its first component after the prefix |
| Batch.NewBatchClient | scheduler/googlecloudplatform/batch.py:13-25 | the parent is `projects/{p}/locations/{r}`; the service account is kept as given; empty network names fall back to the default network and the region's default subnetwork |
| Batch.NewBatchClientAnyAccount | scheduler/googlecloudplatform/batch.py:19-22 | the service account changes nothing but the client's own record of it: parent, network and subnetwork are those of a client built without one |
| Batch.NewBatchClientAsWritten | scheduler/googlecloudplatform/batch.py:13-26 | the constructor as written fails exactly when a service account is given, and otherwise builds the corrected client |
| Batch.NewBatchClientAsWrittenRejectsAccount | scheduler/googlecloudplatform/batch.py:24-25 | with the account `scheduler@my-project.iam.gserviceaccount.com` the constructor as written fails on the missing `Credentials` attribute, while the corrected client keeps the account |
| Batch.ValidateComputeParameters | scheduler/googlecloudplatform/batch.py:43-64 | validation fails exactly when the tasks need more vCPUs or memory than the machine has, reporting vCPUs first; otherwise it warns exactly for each resource left partly idle |
| Batch.ExactFitIsSilent | scheduler/googlecloudplatform/batch.py:50-64 | a request that uses the whole machine neither fails nor warns |
| Batch.CapacityExample | scheduler/googlecloudplatform/batch.py:47-52 | four one-vCPU tasks on a two-vCPU machine fail with "needs 4, has 2" |
| Batch.GenerateJobId | scheduler/googlecloudplatform/batch.py:33-35 | a generated id has 36 characters, starts with a lower-case letter, keeps the rest of the UUID, and holds only `[a-z0-9-]` |
| Batch.ComputeResources | scheduler/googlecloudplatform/batch.py:89-95 | the milli-CPU count is a whole multiple of 1000 that converts back to the vCPU count; memory is passed through |
| Batch.JobNameOrGenerated | scheduler/googlecloudplatform/batch.py:105 | a non-empty custom name is used, otherwise the generated id |
| Batch.JobNameOrGeneratedShape | scheduler/googlecloudplatform/batch.py:33-35 | the job name `run_container` uses is never empty; without a custom name it is a 36-character id that starts with a lower-case letter and keeps the rest of the UUID |
| Batch.RunContainer | scheduler/googlecloudplatform/batch.py:97-177 | nothing is sent when the capacity check fails; otherwise exactly one request is appended, named after the job, with the runnable, the mounted folder (if any), milli-CPUs, memory, retries, duration, task count and machine type asked for, on the client's network and subnetwork |
| Batch.HasFinished | scheduler/googlecloudplatform/batch.py:200-205 | a job has finished exactly when its state is terminal (rank 4 or more) |
| ArtifactsRegistry.SplitDockerUri | scheduler/googlecloudplatform/artifacts_registry.py:15-17 | the pieces hold no `/` or `:`, there is one more piece than separators, and putting the separators back restores the URI |
| ArtifactsRegistry.ContainerName | scheduler/googlecloudplatform/artifacts_registry.py:22 | the container name is the second-to-last piece; it exists exactly when the URI has a separator, and otherwise unpacking fails |
| ArtifactsRegistry.TagPath | scheduler/googlecloudplatform/artifacts_registry.py:23-25 | when no component holds `/`, the tag path splits at `/` back into its ten components |
| ArtifactsRegistry.CheckIfContainerExists | scheduler/googlecloudplatform/artifacts_registry.py:19-30 | the answer is the tag lookup of the container's tag path; it is an error exactly when the container name cannot be unpacked |
| Scheduler.BatchClientOf | scheduler/scheduler.py:22-38 | the scheduler's Batch client uses the configured project, region and service account with the default network and subnetwork |
| Scheduler.ContainerUri | scheduler/scheduler.py:57-60 | whatever the configuration, the registry reads back the container name "scheduler" and the tag "latest"; when the region, project and repository hold no `/` or `:`, the URI splits into exactly `{region}-docker.pkg.dev`, the project, the repository, `scheduler` and `latest` |
| Scheduler.DockerUriPieces | scheduler/scheduler.py:57-60 | `host/project/repo/name:tag` splits back into its five parts when none holds a `/` or `:` |
| Scheduler.ContainerNameOfTail | scheduler/scheduler.py:57-60 | the last two pieces of `prefix/name:tag` are the name and the tag, whatever the prefix |
| Scheduler.CheckIfSchedulerImageExists | scheduler/scheduler.py:128-130 | the lookup never fails to unpack and asks for tag "latest" of package "scheduler" |
| Scheduler.UploadSchedulerArchive | scheduler/scheduler.py:132-135 | the archive is written, replacing any earlier one, exactly when the bucket exists; no other blob changes |
| Scheduler.GenerateBucketPath | scheduler/scheduler.py:77-81 | the folder starts with the bucket and `/`, and splits back into bucket, fixed folders, experiment and scenario when the names are `/`-free |
| Scheduler.GetLogsUrl | scheduler/scheduler.py:121-126 | the logs URL splits at `/` into ten components: `https:`, an empty one, `console.cloud.google.com`, `batch`, `jobsDetail`, `regions`, the region, `jobs`, the job name and `logs?project=` followed by the project |
| Scheduler.GetArtifactsUrl | scheduler/scheduler.py:140-142 | the URL is the storage browser address followed by exactly the scenario folder |
| Scheduler.ArtifactsUrlOfScenario | scheduler/scheduler.py:140-142 | for a recorded scenario with `/`-free names, the path after the storage browser address splits back into bucket, fixed folders, experiment name and scenario name |
| Scheduler.Run | scheduler/scheduler.py:62-72 | running with the full machine always passes the capacity check, sends exactly one request for one task with the solver image, arguments, mounted folder (none without a data folder) and the machine's full CPU and memory, two retries, a run limit of `3600s`, the default network and the region's default subnetwork; the request is named with the given job name, which `run_container` returns and `run` discards |
| Scheduler.IndexOf | scheduler/scheduler.py:151 | the position found holds the element, and no earlier position does |
| Scheduler.DeleteExperiment | scheduler/scheduler.py:150-151 | deleting fails exactly when no equal experiment is listed; otherwise the first equal one is removed and the others keep their order |
| Scheduler.DeleteExperimentRemovesOne | scheduler/scheduler.py:150-151 | putting the deleted experiment back at its place restores the list; exactly one occurrence goes (multiset) |
| Scheduler.ScenarioOf | scheduler/scheduler.py:110-115 | the recorded scenario has the row's name and parameters, its folder, the sanitised job name, empty metrics and results, and is QUEUED |
| Scheduler.InputBlobsDistinct | scheduler/scheduler.py:77-97 | a scenario's `jobs.json` is never any scenario's `params.json`, and two scenarios share an input file only when their names are equal |
| Scheduler.RunRow | scheduler/scheduler.py:89-116 | a nameless row fails with nothing done; a named row goes through exactly when both its input files are absent from existing buckets; a failing upload sends no job, names the row and changes no blob other than the row's `jobs.json`; existing blobs are never changed; a row that goes through uploads its two new files, changes no other blob, and sends one request for its scenario |
| Scheduler.ProgressStep | scheduler/scheduler.py:89-116 | a row that goes through extends the loop invariant: its scenario is recorded, its files are stored, its job is sent, its name differs from every earlier row's, and every changed blob is an input file of a row done so far |
| Scheduler.FitRowGoesThrough | scheduler/scheduler.py:89-97 | when every row is named, the names are distinct and all input files are absent beforehand, the next row's uploads go through |
| Scheduler.ProgressFailure | scheduler/scheduler.py:89-116 | a row that fails names itself, leaves the earlier rows' files and jobs in place, changes no blob but the earlier rows' input files and its own `jobs.json`, and can only fail when the rows do not fit the store |
| Scheduler.RowsWentFit | scheduler/scheduler.py:89-97 | when every row went through, every row was named, the names were distinct and all input files were absent beforehand |
| Scheduler.RunExperiment | scheduler/scheduler.py:74-119 | the run goes through exactly when every row is named, the names are distinct and every input file is absent from an existing bucket; then one QUEUED experiment is appended with one scenario per row in row order; a failure names its row, leaves the experiment list unchanged, reports a missing name exactly for a nameless row, and keeps the files and jobs of every earlier row; in all cases the rows done sent one job each in row order, their input files were new and now hold their content, and no existing blob is changed; every blob that changed is an input file of a row done or the `jobs.json` of the failing row |
| Polling.UpdateScenario | scheduler/scheduler.py:161-180 | a finished scenario is neither asked about nor changed; otherwise it takes the reported status after exactly one status call, and metrics and results are downloaded exactly on the first SUCCEEDED, with the calls in source order |
| Polling.MinStatus | scheduler/scheduler.py:185-186 | the experiment status is at most every scenario's status and equals one of them |
| Polling.MinStatusUnique | scheduler/scheduler.py:185-186 | the lowest rank is the only rank that is a lower bound and is attained |
| Polling.UpdateScenarios | scheduler/scheduler.py:161-183 | each scenario is updated independently; the status calls ask about the unfinished scenarios' jobs, each once and in list order; only the ones that have just succeeded are downloaded, and the cycle makes one call per unfinished scenario plus two per newly succeeded one |
| Polling.UpdateExperiment | scheduler/scheduler.py:158-186 | an experiment keeps its name, its scenarios are updated one by one, its status becomes their lowest rank, and it keeps its status when it has no scenarios |
| Polling.UpdateJobsState | scheduler/scheduler.py:156-189 | one cycle updates every experiment in place, and its calls are those of updating all scenarios in list order |
| Polling.UpdateScenarioTwice | scheduler/scheduler.py:163-180 | a second refresh with the same answers changes nothing and downloads nothing |
| Polling.UpdateExperimentTwice | scheduler/scheduler.py:158-186 | a second cycle with the same answers leaves the experiment as it is and only asks for statuses |
| Polling.RefreshedScenariosSettle | scheduler/scheduler.py:161-180 | after one refresh no scenario awaits its first SUCCEEDED, and a second refresh leaves the scenarios as they are |
| Polling.UpdateJobsStateTwice | scheduler/scheduler.py:156-189 | a second cycle with the same answers is a fixed point and fetches no metrics or results |
| Polling.NoDownloadWhenAllSettled | scheduler/scheduler.py:171-180 | a cycle over experiments with no scenario awaiting its first SUCCEEDED only asks for statuses |
| Polling.SucceededMasksFailed | scheduler/scheduler.py:185-186 | once every scenario has finished, one SUCCEEDED scenario makes the experiment SUCCEEDED even if others FAILED |

## Left out

- The polling thread, the `while True` loop and `time.sleep`: `Polling.UpdateJobsState` is one pass with `loop=False`. Concurrent changes to the experiment list while a cycle runs are not modelled.
- The Google Cloud SDK clients are not modelled. Cloud Storage is a map from bucket to blob to bytes, and Batch is the list of received create requests. The status lookup, the machine-types lookup (`_get_machine_parameters`) and the registry's `get_tag` are function parameters.
- Datastore, Cloud Build's `build_container_from_archive`, the graphs, the web app and the solver are not part of this model. Of `build_scheduler_container` only the archive upload is modelled.
- Reading the scenario CSV with pandas is not modelled: rows arrive already parsed, as maps from column name to text. Non-text cell values are not modelled. `json.dumps` of a row is a function parameter.
- `uuid4`, `random.choice` and `get_random_name` are not modelled: their outputs are parameters. The random job suffix of row `k` is `randomIds(k)`.
- Naming.Sanitize: `str.lower` is modelled for ASCII only. Non-ASCII characters that Python lowers into `a`–`z` (such as the Kelvin sign) are dropped instead.
- Polling.UpdateScenario: exceptions from Batch's status lookup or from the downloads inside a cycle are not modelled; the status and download parameters are total functions.
- DataStructures.Json: JSON numbers are kept as integers; floating point is not modelled.
- Batch.RunContainer: returns the job name only, not the pair with the service's response. The log policy, the empty labels and the logged debug messages are not modelled.
- Batch.ValidateComputeParameters: warnings are returned as values instead of being logged.
- ArtifactsRegistry.TagPath: the resource-name f-string is modelled as the ten components joined with `/`. The round trip is stated only for components without `/`.
- Scheduler.ContainerUri: the five pieces are stated only when the region, project and repository hold no `/` or `:`; otherwise only the name and tag are.
- Scheduler.GetLogsUrl: the component positions are stated only when the region, job name and project hold no `/`.
- Scheduler.GenerateBucketPath: the split into five components is stated only when the bucket, experiment and scenario names hold no `/`. With a `/` in a name the folder is still the same f-string, but it has more components.
- Batch.NewBatchClient: the credentials built from the service account and the SDK client are not modelled; the corrected client only records the account.
- Scheduler.Run: the machine-types lookup and `create_job` always succeed. A failing lookup, or a `create_job` that raises (batch.py:177), is not modelled.
- Scheduler.RunRow: as for `Scheduler.Run`, a row cannot fail while its job is started. Its only failures are a missing name and an upload error.
- Scheduler.RunExperiment: as for `Scheduler.Run`, a run cannot stop at a failing job submission or machine lookup. Such a failure would leave that row's two files uploaded with no job started.
- Storage.PreUpload: addresses the blob through the corrected bucket split. For a path with no `/` after the bucket, the code as written addresses a truncated bucket (see Findings). Every path the scheduler uploads to has such a `/`.
- Storage.Upload: uses the corrected bucket split, as `Storage.PreUpload` does.
- Storage.FileExists: uses the corrected bucket split, as `Storage.PreUpload` does.
- Storage.DownloadContent: uses the corrected bucket split, as `Storage.PreUpload` does.
- Storage.ListFiles: uses the corrected bucket split. On a bucket-only path, such as a bucket root, the code as written lists the truncated bucket under the bucket's own name as the prefix. The model lists the whole real bucket instead.
- `copy_file`, `delete_file`, `download_file`, `uri`, `with_uri` and `without_uri` of the storage client are not modelled; the core never calls them. The same holds for `list_jobs`, `list_tasks`, `get_task` and `delete_job` of the Batch client.
- `get_job` and `get_job_status` of the Batch client are not modelled separately: `get_job_status` calls `get_job` and reads the job's state, and both are folded into the job-status parameter.
- `render_gantt_chart`, `render_radar_plot` and `get_random_name` of the scheduler are not modelled: they delegate to the graphs and names modules.
- Helpers' other functions (session start, CSS, widgets) are part of the web UI and are not modelled; only the two status tables are.

## Findings

| source | as written | input that shows it | evidently intended | confidence | as-written member | corrected member |
|---|---|---|---|---|---|---|
| scheduler/googlecloudplatform/storage.py:38-41 | the bucket is cut at the position of the first `/`, which is -1 when there is none, so a bucket-only path drops the bucket's last character and reuses the whole name as the relative path | "gs://mybucket" gives bucket "mybucke" and relative path "mybucket" | bucket "mybucket" with an empty relative path, as `list_files` on a bucket root expects | not executed; follows from Python's `str.find` returning -1 and slicing semantics | Storage.SplitBucketPathAsWrittenExample | Storage.SplitBucketPath |
| scheduler/googlecloudplatform/batch.py:24-25 | the credentials are looked up as `service_account.Credentials`, but `service_account` is the `str` parameter, which shadows any module of that name | any non-empty account, such as "scheduler@my-project.iam.gserviceaccount.com", raises `AttributeError` in the constructor | credentials built from the account through the service-account credentials module, so the client is created | not executed; a `str` has no attribute `Credentials` | Batch.NewBatchClientAsWrittenRejectsAccount | Batch.NewBatchClient |
