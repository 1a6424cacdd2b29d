/**
 * An abstract container runtime standing in for the Docker daemon behind
 * `DockerClient`. Every request the updater issues is one step: it is appended
 * to the daemon's call log and acts on the containers and images the daemon
 * holds. Failures that the model does not derive from that state (transport
 * errors, daemon errors, a start the daemon declines) come from two oracles
 * indexed by the position of the call in the log.
 */
module Runtime {
  import opened Wrappers
  import opened Text
  import opened DockerModels
  import ImageReference

  /**
   * A failure. `ContainerNotFound` is `DockerContainerNotFoundException`;
   * every other failed request is an `ApiError`. `InvalidOperation` is an
   * `InvalidOperationException` the updater raises itself, and
   * `ArgumentError` an `ArgumentException` from a library call it makes.
   */
  datatype Error =
    | ContainerNotFound(message: string)
    | ApiError(message: string)
    | InvalidOperation(message: string)
    | ArgumentError(message: string)

  datatype Result<+T> = Ok(value: T) | Err(error: Error)

  /** The requests, as the daemon receives them. */
  datatype Call =
    | ListCall(all: bool)
    | InspectCall(id: string)
    | StopCall(id: string, waitBeforeKillSeconds: nat)
    | RemoveCall(id: string, force: bool, removeVolumes: bool)
    | CreateCall(parameters: CreateParameters)
    | StartCall(id: string)
    | RenameCall(id: string, newName: string)
    | InspectImageCall(name: string)
    | PullCall(fromImage: string, tag: string, auth: Option<AuthConfig>)
    | DeleteImageCall(id: string, force: bool)

  /**
   * The daemon. `containers` is keyed by container id; `images` maps a local
   * "repository:tag" to an image id and `upstream` says what a pull of a
   * "repository:tag" fetches. `listing` is what a listing of all containers
   * returns. A call whose log position is a key of `faults` fails with that
   * message; a start whose position is in `refusals` reports false.
   */
  datatype Daemon = Daemon(
    containers: map<string, ContainerInspect>,
    listing: seq<ListedContainer>,
    images: map<string, string>,
    upstream: map<string, string>,
    faults: map<nat, string>,
    refusals: set<nat>,
    log: seq<Call>)

  function Fault(d: Daemon): Option<string> {
    if |d.log| in d.faults then Some(d.faults[|d.log|]) else None
  }

  function Issue(d: Daemon, c: Call): (d': Daemon)
    ensures d'.log == d.log + [c]
    ensures d'.containers == d.containers && d'.listing == d.listing && d'.images == d.images
            && d'.upstream == d.upstream && d'.faults == d.faults && d'.refusals == d.refusals
  {
    d.(log := d.log + [c])
  }

  predicate Running(c: ContainerInspect) {
    c.state.Some? && c.state.value.running
  }

  /** Some container other than `except` already carries the name `name`. */
  predicate NameTaken(d: Daemon, name: string, except: string) {
    exists id | id in d.containers :: id != except && d.containers[id].name == Some("/" + name)
  }

  /** The id the daemon gives a container created by the call at log position `n`. */
  function NewId(n: nat): (id: string)
    ensures |id| >= 12
  {
    "000000000000" + NatToString(n)
  }

  /** The local image key a reference resolves to: its repository and tag. */
  function ImageKey(name: string): string {
    var r := ImageReference.Parse(name);
    r.repository + ":" + r.tag
  }

  function NotFoundError(id: string): Error {
    ContainerNotFound("No such container: " + id)
  }

  // ------------------------------------------------------------------ steps

  function ListStep(d: Daemon, all: bool): (r: (Daemon, Result<seq<ListedContainer>>))
    ensures r.0 == Issue(d, ListCall(all))
    ensures r.1.Ok? <==> Fault(d).None?
    ensures r.1.Ok? ==> forall c | c in r.1.value :: c in d.listing && (all || c.state == Some("running"))
  {
    var d' := Issue(d, ListCall(all));
    if Fault(d).Some? then (d', Err(ApiError(Fault(d).value)))
    else (d', Ok(Listed(d.listing, all)))
  }

  /** A listing keeps every container when `all` is set, and only running ones otherwise. */
  function Listed(ls: seq<ListedContainer>, all: bool): (r: seq<ListedContainer>)
    ensures forall c | c in r :: c in ls && (all || c.state == Some("running"))
    ensures all ==> r == ls
  {
    if ls == [] then []
    else if all || ls[0].state == Some("running") then [ls[0]] + Listed(ls[1..], all)
    else Listed(ls[1..], all)
  }

  function InspectStep(d: Daemon, id: string): (r: (Daemon, Result<ContainerInspect>))
    ensures r.0 == Issue(d, InspectCall(id))
    ensures r.1.Ok? <==> Fault(d).None? && id in d.containers
    ensures r.1.Ok? ==> r.1.value == d.containers[id]
    ensures r.1.Err? && r.1.error.ContainerNotFound? <==> Fault(d).None? && id !in d.containers
  {
    var d' := Issue(d, InspectCall(id));
    if Fault(d).Some? then (d', Err(ApiError(Fault(d).value)))
    else if id !in d.containers then (d', Err(NotFoundError(id)))
    else (d', Ok(d.containers[id]))
  }

  /** Stopping reports false when the container was not running. */
  function StopStep(d: Daemon, id: string, seconds: nat): (r: (Daemon, Result<bool>))
    ensures r.0.log == d.log + [StopCall(id, seconds)]
    ensures r.1.Ok? <==> Fault(d).None? && id in d.containers
    ensures r.1.Ok? ==> r.0.containers.Keys == d.containers.Keys
    ensures r.1.Ok? ==> r.1.value == Running(d.containers[id]) && !Running(r.0.containers[id])
    ensures r.1.Err? ==> r.0 == Issue(d, StopCall(id, seconds))
  {
    var d' := Issue(d, StopCall(id, seconds));
    if Fault(d).Some? then (d', Err(ApiError(Fault(d).value)))
    else if id !in d.containers then (d', Err(NotFoundError(id)))
    else
      var c := d.containers[id];
      (d'.(containers := d.containers[id := c.(state := Some(ContainerState(false, "exited")))]),
       Ok(Running(c)))
  }

  /** Removing a running container needs `force`. */
  function RemoveStep(d: Daemon, id: string, force: bool, removeVolumes: bool): (r: (Daemon, Result<()>))
    ensures r.0.log == d.log + [RemoveCall(id, force, removeVolumes)]
    ensures r.1.Ok? <==> Fault(d).None? && id in d.containers && (force || !Running(d.containers[id]))
    ensures r.1.Ok? ==> r.0.containers == d.containers - {id}
    ensures r.1.Err? ==> r.0 == Issue(d, RemoveCall(id, force, removeVolumes))
  {
    var d' := Issue(d, RemoveCall(id, force, removeVolumes));
    if Fault(d).Some? then (d', Err(ApiError(Fault(d).value)))
    else if id !in d.containers then (d', Err(NotFoundError(id)))
    else if !force && Running(d.containers[id]) then
      (d', Err(ApiError("You cannot remove a running container " + id)))
    else (d'.(containers := d.containers - {id}), Ok(()))
  }

  /** The container a create request describes, before it is started. */
  function Created(p: CreateParameters, id: string): (c: ContainerInspect)
    ensures !Running(c)
  {
    ContainerInspect(
      Some("/" + (if p.name == "" then id else p.name)),
      p.image,
      Some(ContainerConfig(None, p.env, p.cmd, p.entrypoint, p.workingDir, p.labels, p.exposedPorts)),
      p.hostConfig,
      Some(NetworkSettings(p.networkingConfig)),
      Some(ContainerState(false, "created")))
  }

  /**
   * Creating needs a free name; the new container gets the id `NewId` of the
   * call's log position. (The daemon's own check that the image is present
   * locally is not modelled: the updater creates only from images it has
   * just pulled.)
   */
  function CreateStep(d: Daemon, p: CreateParameters): (r: (Daemon, Result<string>))
    ensures r.0.log == d.log + [CreateCall(p)]
    ensures r.1.Ok? ==>
      r.1.value == NewId(|d.log|) && r.1.value !in d.containers
      && r.0.containers == d.containers[r.1.value := Created(p, r.1.value)]
    ensures r.1.Ok? <==>
      Fault(d).None? && !(p.name != "" && NameTaken(d, p.name, "")) && NewId(|d.log|) !in d.containers
    ensures r.1.Err? ==> r.0 == Issue(d, CreateCall(p)) && r.1.error.ApiError?
  {
    var d' := Issue(d, CreateCall(p));
    var id := NewId(|d.log|);
    if Fault(d).Some? then (d', Err(ApiError(Fault(d).value)))
    else if p.name != "" && NameTaken(d, p.name, "") then
      (d', Err(ApiError("Conflict. The container name \"/" + p.name + "\" is already in use")))
    else if id in d.containers then (d', Err(ApiError("Conflict. The container id " + id + " is already in use")))
    else (d'.(containers := d.containers[id := Created(p, id)]), Ok(id))
  }

  /** Starting reports false, and changes nothing, when already running or refused. */
  function StartStep(d: Daemon, id: string): (r: (Daemon, Result<bool>))
    ensures r.0.log == d.log + [StartCall(id)]
    ensures r.1.Ok? <==> Fault(d).None? && id in d.containers
    ensures r.1 == Ok(true) <==>
      Fault(d).None? && id in d.containers && !Running(d.containers[id]) && |d.log| !in d.refusals
    ensures r.1 == Ok(true) ==> r.0.containers.Keys == d.containers.Keys && Running(r.0.containers[id])
    ensures r.1 != Ok(true) ==> r.0 == Issue(d, StartCall(id))
  {
    var d' := Issue(d, StartCall(id));
    if Fault(d).Some? then (d', Err(ApiError(Fault(d).value)))
    else if id !in d.containers then (d', Err(NotFoundError(id)))
    else
      var c := d.containers[id];
      if Running(c) || |d.log| in d.refusals then (d', Ok(false))
      else (d'.(containers := d.containers[id := c.(state := Some(ContainerState(true, "running")))]), Ok(true))
  }

  function RenameStep(d: Daemon, id: string, newName: string): (r: (Daemon, Result<()>))
    ensures r.0.log == d.log + [RenameCall(id, newName)]
    ensures r.1.Ok? <==> Fault(d).None? && id in d.containers && !NameTaken(d, newName, id)
    ensures r.1.Ok? ==> r.0.containers == d.containers[id := d.containers[id].(name := Some("/" + newName))]
    ensures r.1.Err? ==> r.0 == Issue(d, RenameCall(id, newName))
  {
    var d' := Issue(d, RenameCall(id, newName));
    if Fault(d).Some? then (d', Err(ApiError(Fault(d).value)))
    else if id !in d.containers then (d', Err(NotFoundError(id)))
    else if NameTaken(d, newName, id) then
      (d', Err(ApiError("Conflict. The container name \"/" + newName + "\" is already in use")))
    else
      (d'.(containers := d.containers[id := d.containers[id].(name := Some("/" + newName))]), Ok(()))
  }

  /** The id of the local image a reference resolves to. */
  function InspectImageStep(d: Daemon, name: string): (r: (Daemon, Result<string>))
    ensures r.0 == Issue(d, InspectImageCall(name))
    ensures r.1.Ok? <==> Fault(d).None? && ImageKey(name) in d.images
    ensures r.1.Ok? ==> r.1.value == d.images[ImageKey(name)]
  {
    var d' := Issue(d, InspectImageCall(name));
    if Fault(d).Some? then (d', Err(ApiError(Fault(d).value)))
    else if ImageKey(name) !in d.images then (d', Err(ApiError("No such image: " + name)))
    else (d', Ok(d.images[ImageKey(name)]))
  }

  /** A pull stores what the registry offers for "repository:tag" under that key. */
  function PullStep(d: Daemon, fromImage: string, tag: string, auth: Option<AuthConfig>): (r: (Daemon, Result<()>))
    ensures r.0.log == d.log + [PullCall(fromImage, tag, auth)]
    ensures r.0.containers == d.containers && r.0.listing == d.listing
    ensures r.0.faults == d.faults && r.0.upstream == d.upstream && r.0.refusals == d.refusals
    ensures r.1.Ok? <==> Fault(d).None? && fromImage + ":" + tag in d.upstream
    ensures r.1.Ok? ==> r.0.images == d.images[fromImage + ":" + tag := d.upstream[fromImage + ":" + tag]]
    ensures r.1.Err? ==> r.0 == Issue(d, PullCall(fromImage, tag, auth))
  {
    var d' := Issue(d, PullCall(fromImage, tag, auth));
    var key := fromImage + ":" + tag;
    if Fault(d).Some? then (d', Err(ApiError(Fault(d).value)))
    else if key !in d.upstream then (d', Err(ApiError("manifest for " + key + " not found")))
    else (d'.(images := d.images[key := d.upstream[key]]), Ok(()))
  }

  /** Deleting an image id drops every local reference to it. */
  function DeleteImageStep(d: Daemon, id: string, force: bool): (r: (Daemon, Result<()>))
    ensures r.0.log == d.log + [DeleteImageCall(id, force)]
    ensures r.0.containers == d.containers
    ensures r.1.Ok? <==> Fault(d).None? && id in d.images.Values
    ensures r.1.Ok? ==> forall k :: k in r.0.images <==> k in d.images && d.images[k] != id
    ensures r.1.Err? ==> r.0 == Issue(d, DeleteImageCall(id, force))
  {
    var d' := Issue(d, DeleteImageCall(id, force));
    if Fault(d).Some? then (d', Err(ApiError(Fault(d).value)))
    else if id !in d.images.Values then (d', Err(ApiError("No such image: " + id)))
    else (d'.(images := map k | k in d.images && d.images[k] != id :: d.images[k]), Ok(()))
  }

  /**
   * The updater's connection to the daemon (`DockerClient`). Each method
   * performs one step on the daemon it holds.
   */
  class DockerClient {
    var daemon: Daemon

    constructor(d: Daemon)
      ensures daemon == d
    {
      daemon := d;
    }

    method ListContainers(all: bool) returns (r: Result<seq<ListedContainer>>)
      modifies this
      ensures (daemon, r) == ListStep(old(daemon), all)
    {
      var step := ListStep(daemon, all);
      daemon, r := step.0, step.1;
    }

    method InspectContainer(id: string) returns (r: Result<ContainerInspect>)
      modifies this
      ensures (daemon, r) == InspectStep(old(daemon), id)
    {
      var step := InspectStep(daemon, id);
      daemon, r := step.0, step.1;
    }

    method StopContainer(id: string, seconds: nat) returns (r: Result<bool>)
      modifies this
      ensures (daemon, r) == StopStep(old(daemon), id, seconds)
    {
      var step := StopStep(daemon, id, seconds);
      daemon, r := step.0, step.1;
    }

    method RemoveContainer(id: string, force: bool, removeVolumes: bool) returns (r: Result<()>)
      modifies this
      ensures (daemon, r) == RemoveStep(old(daemon), id, force, removeVolumes)
    {
      var step := RemoveStep(daemon, id, force, removeVolumes);
      daemon, r := step.0, step.1;
    }

    method CreateContainer(p: CreateParameters) returns (r: Result<string>)
      modifies this
      ensures (daemon, r) == CreateStep(old(daemon), p)
    {
      var step := CreateStep(daemon, p);
      daemon, r := step.0, step.1;
    }

    method StartContainer(id: string) returns (r: Result<bool>)
      modifies this
      ensures (daemon, r) == StartStep(old(daemon), id)
    {
      var step := StartStep(daemon, id);
      daemon, r := step.0, step.1;
    }

    method RenameContainer(id: string, newName: string) returns (r: Result<()>)
      modifies this
      ensures (daemon, r) == RenameStep(old(daemon), id, newName)
    {
      var step := RenameStep(daemon, id, newName);
      daemon, r := step.0, step.1;
    }

    method InspectImage(name: string) returns (r: Result<string>)
      modifies this
      ensures (daemon, r) == InspectImageStep(old(daemon), name)
    {
      var step := InspectImageStep(daemon, name);
      daemon, r := step.0, step.1;
    }

    method CreateImage(fromImage: string, tag: string, auth: Option<AuthConfig>) returns (r: Result<()>)
      modifies this
      ensures (daemon, r) == PullStep(old(daemon), fromImage, tag, auth)
    {
      var step := PullStep(daemon, fromImage, tag, auth);
      daemon, r := step.0, step.1;
    }

    method DeleteImage(id: string, force: bool) returns (r: Result<()>)
      modifies this
      ensures (daemon, r) == DeleteImageStep(old(daemon), id, force)
    {
      var step := DeleteImageStep(daemon, id, force);
      daemon, r := step.0, step.1;
    }
  }
}
