/** The records of the environment cache (backend/aws.go) and the configuration they are read with. */
module Types {
  import opened Wrappers

  /** Environment states. */
  const EnvStateRunning: string := "running"
  const EnvStateStopped: string := "stopped"
  const EnvStateMixed: string := "mixed"
  const EnvStateChanging: string := "changing"

  /** Placeholder stored as instance id and type of a row that stands for an auto-scaling group. */
  const ASGLabel: string := "ASG"

  /** The only provider the backend knows. */
  const Provider: string := "aws"

  /** One row of an environment: a plain EC2 instance, or a whole ASG when `isASG` holds. */
  datatype VM = VM(
    id: string,
    instanceId: string,
    instanceType: string,
    name: string,
    state: string,
    environment: string,
    region: string,
    vcpu: int,
    memoryGB: real,
    pricingHourly: real,
    isASG: bool,
    asgInstanceCount: int,
    minSize: int,
    maxSize: int,
    desiredCapacity: int)

  /** A named grouping of rows together with the aggregates derived from them. */
  datatype Environment = Environment(
    id: string,
    provider: string,
    region: string,
    name: string,
    instances: seq<VM>,
    runningInstances: int,
    stoppedInstances: int,
    totalInstances: int,
    totalVCPU: int,
    totalMemoryGB: real,
    state: string,
    billsAccrued: Option<real>,
    billsSaved: Option<real>)

  /** The cached table: the snapshot every operation reads. */
  type Table = seq<Environment>

  /** The settings the backend reads from its configuration. */
  datatype Config = Config(
    regions: set<string>,            // regions that have an EC2 / ASG client
    instanceTypeIgnore: seq<string>,
    envNameIgnore: seq<string>,
    environmentTagKey: string,
    maxInstancesToShutdown: int,
    experimentalEnabled: bool,       // billing
    asgEnabled: bool,
    mockEnabled: bool)

  /** An environment as addInstance creates it: only name, region and first row are set. */
  function NewEnvironment(vm: VM): Environment
  {
    Environment("", "", vm.region, vm.environment, [vm], 0, 0, 0, 0, 0.0, "", None, None)
  }
}
