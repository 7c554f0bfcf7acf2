/** The Batch client (scheduler/googlecloudplatform/batch.py): the capacity
    check, the request `run_container` builds, job-id generation and the
    finished-state test. The service itself is a list of received create
    requests and a status oracle. */
module Batch {
  import opened Wrappers
  import opened JobStatus

  const DefaultNetwork := "global/networks/default"

  /** The only mount path that works with Docker containers on Batch. */
  const MountPath := "/mnt/disks/share"

  datatype BatchClient = BatchClient(
    projectId: string,
    region: string,
    serviceAccount: string,
    parent: string,
    networkName: string,
    subNetworkName: string)

  /** `BatchClient.__init__` with the credentials step corrected: the client
      keeps the service account its credentials come from, for any account.
      `None` and `""` select the same defaults, so an absent name is the
      empty string. */
  function NewBatchClient(projectId: string, region: string, serviceAccount: string, networkName: string,
                          subNetworkName: string)
    : (c: BatchClient)
    ensures c.projectId == projectId && c.region == region && c.serviceAccount == serviceAccount
    ensures c.parent == "projects/" + projectId + "/locations/" + region
    ensures c.networkName == (if networkName != "" then networkName else DefaultNetwork)
    ensures c.subNetworkName ==
      (if subNetworkName != "" then subNetworkName else "regions/" + region + "/subnetworks/default")
  {
    BatchClient(
      projectId, region, serviceAccount,
      "projects/" + projectId + "/locations/" + region,
      if networkName != "" then networkName else DefaultNetwork,
      if subNetworkName != "" then subNetworkName else "regions/" + region + "/subnetworks/default")
  }

  /** The service account changes nothing but the credentials: the corrected
      client for an account is the account-less client holding that account. */
  lemma NewBatchClientAnyAccount(projectId: string, region: string, serviceAccount: string, networkName: string,
                                 subNetworkName: string)
    ensures NewBatchClient(projectId, region, serviceAccount, networkName, subNetworkName) ==
      NewBatchClient(projectId, region, "", networkName, subNetworkName).(serviceAccount := serviceAccount)
  {
  }

  /** What the constructor raises as written. */
  datatype ClientError = MissingAttribute(attribute: string)

  /** `BatchClient.__init__` as written: the credentials are looked up as
      `service_account.Credentials`, where `service_account` is the string
      parameter itself (no module of that name is imported), so any
      non-empty account raises `AttributeError`. */
  function NewBatchClientAsWritten(projectId: string, region: string, serviceAccount: string, networkName: string,
                                   subNetworkName: string)
    : (r: Result<BatchClient, ClientError>)
    ensures r.Failure? <==> serviceAccount != ""
    ensures r.Success? ==> r.value == NewBatchClient(projectId, region, serviceAccount, networkName, subNetworkName)
  {
    if serviceAccount != "" then Failure(MissingAttribute("Credentials"))
    else Success(NewBatchClient(projectId, region, serviceAccount, networkName, subNetworkName))
  }

  /** As written, a client with the service account "scheduler@my-project.iam.gserviceaccount.com"
      cannot be built, while the corrected constructor keeps that account. */
  lemma NewBatchClientAsWrittenRejectsAccount(projectId: string, region: string, serviceAccount: string)
    requires serviceAccount == "scheduler@my-project.iam.gserviceaccount.com"
    ensures NewBatchClientAsWritten(projectId, region, serviceAccount, "", "") == Failure(MissingAttribute("Credentials"))
    ensures NewBatchClient(projectId, region, serviceAccount, "", "").serviceAccount == serviceAccount
  {
  }

  /** What the machine-types service reports for a machine type. */
  datatype MachineParams = MachineParams(guestCpus: int, memoryMb: int)

  /** The `RuntimeError`s of the capacity check. */
  datatype CapacityError =
    | CpuExceeded(needed: int, available: int)
    | MemoryExceeded(needed: int, available: int)

  /** The logged under-utilisation warnings. */
  datatype Warning =
    | CpuUnderused(used: int, available: int)
    | MemoryUnderused(used: int, available: int)

  /** `_validate_compute_parameters`: fails when the parallel tasks need more
      vCPUs or memory than the machine has, checking vCPUs first; otherwise
      returns the warnings for resources left idle. */
  function ValidateComputeParameters(machine: MachineParams, vcpuPerTask: int, memoryPerTask: int, parallelTasks: int)
    : (r: Result<seq<Warning>, CapacityError>)
    ensures r.Failure? <==>
      parallelTasks * vcpuPerTask > machine.guestCpus || parallelTasks * memoryPerTask > machine.memoryMb
    ensures parallelTasks * vcpuPerTask > machine.guestCpus ==>
      r == Failure(CpuExceeded(parallelTasks * vcpuPerTask, machine.guestCpus))
    ensures parallelTasks * vcpuPerTask <= machine.guestCpus && parallelTasks * memoryPerTask > machine.memoryMb ==>
      r == Failure(MemoryExceeded(parallelTasks * memoryPerTask, machine.memoryMb))
    ensures r.Success? ==>
      && |r.value| <= 2
      && (CpuUnderused(parallelTasks * vcpuPerTask, machine.guestCpus) in r.value
          <==> parallelTasks * vcpuPerTask < machine.guestCpus)
      && (MemoryUnderused(parallelTasks * memoryPerTask, machine.memoryMb) in r.value
          <==> parallelTasks * memoryPerTask < machine.memoryMb)
      && (forall w :: w in r.value ==>
            w == CpuUnderused(parallelTasks * vcpuPerTask, machine.guestCpus) ||
            w == MemoryUnderused(parallelTasks * memoryPerTask, machine.memoryMb))
  {
    var vcpuUsage := parallelTasks * vcpuPerTask;
    var memoryUsage := parallelTasks * memoryPerTask;
    if vcpuUsage > machine.guestCpus then Failure(CpuExceeded(vcpuUsage, machine.guestCpus))
    else if memoryUsage > machine.memoryMb then Failure(MemoryExceeded(memoryUsage, machine.memoryMb))
    else
      Success(
        (if vcpuUsage < machine.guestCpus then [CpuUnderused(vcpuUsage, machine.guestCpus)] else [])
        + (if memoryUsage < machine.memoryMb then [MemoryUnderused(memoryUsage, machine.memoryMb)] else []))
  }

  /** A request that uses the machine exactly neither fails nor warns. */
  lemma ExactFitIsSilent(machine: MachineParams, vcpuPerTask: int, memoryPerTask: int, parallelTasks: int)
    requires parallelTasks * vcpuPerTask == machine.guestCpus
    requires parallelTasks * memoryPerTask == machine.memoryMb
    ensures ValidateComputeParameters(machine, vcpuPerTask, memoryPerTask, parallelTasks) == Success([])
  {
  }

  /** Two vCPUs cannot host four parallel one-vCPU tasks. */
  lemma CapacityExample()
    ensures ValidateComputeParameters(MachineParams(2, 8192), 1, 1024, 4) == Failure(CpuExceeded(4, 2))
  {
  }

  predicate IsLowerHex(c: char) {
    '0' <= c <= '9' || 'a' <= c <= 'f'
  }

  /** The text of `str(uuid.uuid4())`: 36 lower-case hex digits and dashes in
      the 8-4-4-4-12 layout. */
  predicate IsUuidText(u: string) {
    && |u| == 36
    && (forall i :: 0 <= i < |u| && i in {8, 13, 18, 23} ==> u[i] == '-')
    && (forall i :: 0 <= i < |u| && i !in {8, 13, 18, 23} ==> IsLowerHex(u[i]))
  }

  /** `_generate_job_id`: a random lower-case letter followed by all but the
      first character of a UUID. */
  function GenerateJobId(letter: char, uuid: string): (id: string)
    requires 'a' <= letter <= 'z'
    requires IsUuidText(uuid)
    ensures |id| == 36
    ensures 'a' <= id[0] <= 'z'
    ensures id[1..] == uuid[1..]
    ensures forall i :: 0 <= i < |id| ==> 'a' <= id[i] <= 'z' || '0' <= id[i] <= '9' || id[i] == '-'
    ensures id[|id| - 1] != '-'
  {
    [letter] + uuid[1..]
  }

  /** `run_container`'s keyword arguments, with their defaults below. An
      absent string argument is the empty string. */
  datatype RunOptions = RunOptions(
    customJobName: string,
    containerArgs: seq<string>,
    containerEntrypoint: string,
    bucketPathToMount: string,
    taskMaxRetry: int,
    vcpuPerTask: int,
    memoryPerTask: int,
    taskMaxDuration: string,
    parallelTasks: int,
    machineType: string)

  const DefaultRunOptions := RunOptions("", [], "", "", 2, 1, 1024, "3600s", 1, "e2-standard-4")

  datatype Runnable = Runnable(imageUri: string, commands: seq<string>, entrypoint: string)
  datatype Volume = Volume(remotePath: string, mountPath: string)
  datatype ComputeResource = ComputeResource(cpuMilli: int, memoryMib: int)
  datatype TaskSpec = TaskSpec(
    runnables: seq<Runnable>,
    volumes: seq<Volume>,
    computeResource: ComputeResource,
    maxRetryCount: int,
    maxRunDuration: string)
  datatype Job = Job(
    taskCount: int,
    taskSpec: TaskSpec,
    machineType: string,
    network: string,
    subnetwork: string)
  datatype CreateJobRequest = CreateJobRequest(parent: string, jobId: string, job: Job)

  /** `_get_compute_resources_definition`: whole vCPUs as milli-CPUs. */
  function ComputeResources(vcpu: int, memory: int): (c: ComputeResource)
    ensures c.cpuMilli % 1000 == 0 && c.cpuMilli / 1000 == vcpu
    ensures c.memoryMib == memory
  {
    ComputeResource(1000 * vcpu, memory)
  }

  /** `custom_job_name or self._generate_job_id()`. */
  function JobNameOrGenerated(customJobName: string, generatedId: string): (name: string)
    ensures customJobName != "" ==> name == customJobName
    ensures customJobName == "" ==> name == generatedId
  {
    if customJobName != "" then customJobName else generatedId
  }

  /** The name `run_container` uses is never empty: a custom name is kept,
      and without one the name is a generated id, a lower-case letter
      followed by the UUID's remaining 35 characters. */
  lemma JobNameOrGeneratedShape(customJobName: string, letter: char, uuid: string)
    requires 'a' <= letter <= 'z' && IsUuidText(uuid)
    ensures var name := JobNameOrGenerated(customJobName, GenerateJobId(letter, uuid));
      && |name| > 0
      && (customJobName != "" ==> name == customJobName)
      && (customJobName == "" ==> |name| == 36 && 'a' <= name[0] <= 'z' && name[1..] == uuid[1..])
  {
  }

  /** The create requests the service has received, and the job name
      `run_container` returned or the error it raised. */
  datatype Submission = Submission(sent: seq<CreateJobRequest>, result: Result<string, CapacityError>)

  /** `run_container`: names the job, validates the resources against the
      machine type, and only then builds and sends the create request.
      `generatedId` stands for `_generate_job_id()`; `machines` stands for
      the machine-types service. */
  function RunContainer(
    client: BatchClient, containerUri: string, opts: RunOptions,
    generatedId: string, machines: string -> MachineParams, sent: seq<CreateJobRequest>)
    : (r: Submission)
    ensures r.result.Failure? <==>
      ValidateComputeParameters(machines(opts.machineType), opts.vcpuPerTask, opts.memoryPerTask, opts.parallelTasks).Failure?
    ensures r.result.Failure? ==> r.sent == sent
    ensures r.result.Success? ==>
      && r.result.value == JobNameOrGenerated(opts.customJobName, generatedId)
      && |r.sent| == |sent| + 1 && r.sent[..|sent|] == sent
      && r.sent[|sent|].jobId == r.result.value
      && r.sent[|sent|].parent == client.parent
    ensures r.result.Success? ==>
      var job := r.sent[|sent|].job;
      && job.network == client.networkName
      && job.subnetwork == client.subNetworkName
      && job.taskCount == opts.parallelTasks
      && job.machineType == opts.machineType
      && job.taskSpec.runnables == [Runnable(containerUri, opts.containerArgs, opts.containerEntrypoint)]
      && job.taskSpec.computeResource.cpuMilli == 1000 * opts.vcpuPerTask
      && job.taskSpec.computeResource.memoryMib == opts.memoryPerTask
      && job.taskSpec.maxRetryCount == opts.taskMaxRetry
      && job.taskSpec.maxRunDuration == opts.taskMaxDuration
      && (opts.bucketPathToMount != "" ==> job.taskSpec.volumes == [Volume(opts.bucketPathToMount, MountPath)])
      && (opts.bucketPathToMount == "" ==> job.taskSpec.volumes == [])
  {
    var jobName := JobNameOrGenerated(opts.customJobName, generatedId);
    match ValidateComputeParameters(machines(opts.machineType), opts.vcpuPerTask, opts.memoryPerTask, opts.parallelTasks)
    case Failure(e) => Submission(sent, Failure(e))
    case Success(_) =>
      var runnable := Runnable(containerUri, opts.containerArgs, opts.containerEntrypoint);
      var volumes := if opts.bucketPathToMount != "" then [Volume(opts.bucketPathToMount, MountPath)] else [];
      var task := TaskSpec([runnable], volumes, ComputeResources(opts.vcpuPerTask, opts.memoryPerTask),
                           opts.taskMaxRetry, opts.taskMaxDuration);
      var job := Job(opts.parallelTasks, task, opts.machineType, client.networkName, client.subNetworkName);
      var request := CreateJobRequest(client.parent, jobName, job);
      Submission(sent + [request], Success(jobName))
  }

  /** `has_finished`: the job is FAILED, SUCCEEDED or DELETION_IN_PROGRESS,
      which are exactly the terminal ranks. */
  function HasFinished(jobName: string, jobStatus: string -> Rank): (finished: bool)
    ensures finished <==> IsTerminal(jobStatus(jobName))
  {
    jobStatus(jobName) in [Failed, Succeeded, DeletionInProgress]
  }
}
