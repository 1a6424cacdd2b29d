/**
 * The parts of the Docker Engine API objects (as exposed by the Docker.DotNet
 * client) that the updater reads or writes. Null-valued members are `Option`s.
 */
module DockerModels {
  import opened Wrappers

  /** Registry credentials passed with a pull (`AuthConfig`). */
  datatype AuthConfig = AuthConfig(
    serverAddress: string,
    username: Option<string>,
    password: Option<string>,
    identityToken: Option<string>)

  /** The container configuration (`Config` of an inspected container). */
  datatype ContainerConfig = ContainerConfig(
    hostname: Option<string>,
    env: Option<seq<string>>,
    cmd: Option<seq<string>>,
    entrypoint: Option<seq<string>>,
    workingDir: Option<string>,
    labels: Option<map<string, string>>,
    exposedPorts: Option<set<string>>)

  /** The host configuration; `restartPolicy` stands for every other member. */
  datatype HostConfig = HostConfig(
    binds: Option<seq<string>>,
    networkMode: Option<string>,
    autoRemove: bool,
    restartPolicy: Option<string>)

  datatype IpamConfig = IpamConfig(
    ipv4Address: Option<string>,
    ipv6Address: Option<string>,
    linkLocalIps: Option<seq<string>>)

  /**
   * One network attachment. `endpointId` and `links` are read from an
   * inspected container but not copied into a create request.
   */
  datatype EndpointSettings = EndpointSettings(
    aliases: Option<seq<string>>,
    networkId: Option<string>,
    ipAddress: Option<string>,
    ipamConfig: Option<IpamConfig>,
    gateway: Option<string>,
    globalIPv6Address: Option<string>,
    ipv6Gateway: Option<string>,
    macAddress: Option<string>,
    endpointId: Option<string>,
    links: Option<seq<string>>)

  datatype NetworkSettings = NetworkSettings(networks: Option<map<string, EndpointSettings>>)

  datatype ContainerState = ContainerState(running: bool, status: string)

  /** `ContainerInspectResponse`. The daemon reports names with a leading '/'. */
  datatype ContainerInspect = ContainerInspect(
    name: Option<string>,
    image: string,
    config: Option<ContainerConfig>,
    hostConfig: Option<HostConfig>,
    networkSettings: Option<NetworkSettings>,
    state: Option<ContainerState>)

  /** `CreateContainerParameters`; `networkingConfig` is its `EndpointsConfig`. */
  datatype CreateParameters = CreateParameters(
    name: string,
    image: string,
    env: Option<seq<string>>,
    cmd: Option<seq<string>>,
    entrypoint: Option<seq<string>>,
    workingDir: Option<string>,
    labels: Option<map<string, string>>,
    exposedPorts: Option<set<string>>,
    hostConfig: Option<HostConfig>,
    networkingConfig: Option<map<string, EndpointSettings>>)

  /** `ContainerListResponse`: one row of a container listing. */
  datatype ListedContainer = ListedContainer(
    id: string,
    names: Option<seq<string>>,
    image: string,
    imageId: string,
    labels: Option<map<string, string>>,
    state: Option<string>)
}
