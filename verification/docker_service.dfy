/**
 * The container service: the name and configuration of a project's
 * container, the create-then-start sequence that records its progress in
 * the `docker_containers` table, and the stop-then-remove teardown.
 *
 * The Docker daemon and the table are one world value. The daemon's
 * answers and the table's acceptance of each status write are an
 * environment: the service never looks at the result of a status write,
 * so a write the table refuses is simply not applied.
 */
module DockerService {
  import opened Base

  // ---------------------------------------------------------------------
  // Container name and configuration
  // ---------------------------------------------------------------------

  function Min(a: int, b: int): int { if a < b then a else b }

  /** `app-` followed by the first eight characters of the project id. */
  function ContainerName(projectId: string): (name: string)
    ensures |name| == 4 + Min(8, |projectId|)
    ensures name[..4] == "app-"
    ensures name[4..] == projectId[..Min(8, |projectId|)]
  {
    "app-" + projectId[..Min(8, |projectId|)]
  }

  /**
   * Two projects get the same container name exactly when their ids agree
   * on the first eight characters (or are equal when shorter), so two
   * projects whose ids share that prefix compete for one name.
   */
  lemma SameNameIff(p: string, q: string)
    ensures ContainerName(p) == ContainerName(q) <==> p[..Min(8, |p|)] == q[..Min(8, |q|)]
  {
    if ContainerName(p) == ContainerName(q) {
      assert ContainerName(p)[4..] == ContainerName(q)[4..];
    }
  }

  /** Ids longer than eight characters that differ only after the eighth share a name. */
  lemma ProjectsMayShareName()
    ensures ContainerName("12345678-a") == ContainerName("12345678-b")
    ensures "12345678-a" != "12345678-b"
  {
    SameNameIff("12345678-a", "12345678-b");
    assert "12345678-a"[..8] == "12345678-b"[..8];
  }

  datatype PortBinding = PortBinding(containerPort: string, hostPort: string)

  /** The fields of the configuration handed to `createContainer`. */
  datatype ContainerConfig = ContainerConfig(
    image: string,
    name: string,
    exposedPorts: seq<string>,
    portBindings: seq<PortBinding>,
    env: seq<string>)

  /** The configuration for a user's project; both framework branches pick the same image. */
  function Config(userId: string, projectId: string, framework: string): ContainerConfig
  {
    ContainerConfig(
      if framework == "react" then "node:18" else "node:18",
      ContainerName(projectId),
      ["3000/tcp"],
      [PortBinding("3000/tcp", "3000")],
      ["PROJECT_ID=" + projectId, "USER_ID=" + userId])
  }

  /** The configuration does not depend on the framework: every project runs `node:18`. */
  lemma ConfigIgnoresFramework(userId: string, projectId: string, f: string, g: string)
    ensures Config(userId, projectId, f) == Config(userId, projectId, g)
    ensures Config(userId, projectId, f).image == "node:18"
  {
  }

  /**
   * Every container publishes container port 3000 on host port 3000, so
   * two containers of this service clash on the host port.
   */
  lemma AllContainersBindHostPort3000(u: string, p: string, f: string, v: string, q: string, g: string)
    ensures Config(u, p, f).exposedPorts == Config(v, q, g).exposedPorts == ["3000/tcp"]
    ensures Config(u, p, f).portBindings == Config(v, q, g).portBindings == [PortBinding("3000/tcp", "3000")]
  {
  }

  /** The value of `key` in a `KEY=value` environment list: the first entry that sets it. */
  function EnvLookup(env: seq<string>, key: string): Option<string>
  {
    if env == [] then None
    else if |key| + 1 <= |env[0]| && env[0][..|key| + 1] == key + "=" then Some(env[0][|key| + 1..])
    else EnvLookup(env[1..], key)
  }

  /**
   * The environment is exactly the two id assignments, and a process in the
   * container reading it finds the project and user ids.
   */
  lemma ConfigEnvCarriesIds(userId: string, projectId: string, framework: string)
    ensures Config(userId, projectId, framework).env == ["PROJECT_ID=" + projectId, "USER_ID=" + userId]
    ensures EnvLookup(Config(userId, projectId, framework).env, "PROJECT_ID") == Some(projectId)
    ensures EnvLookup(Config(userId, projectId, framework).env, "USER_ID") == Some(userId)
  {
    var env := Config(userId, projectId, framework).env;
    var p, u := "PROJECT_ID=" + projectId, "USER_ID=" + userId;
    assert p[..11] == "PROJECT_ID=" && p[11..] == projectId;
    assert u[..8] == "USER_ID=" && u[8..] == userId;
    assert p[..8][0] != "USER_ID="[0];
    assert env[1..] == [u];
  }

  // ---------------------------------------------------------------------
  // The daemon and the docker_containers table
  // ---------------------------------------------------------------------

  datatype RunState = Created | Running | Stopped

  datatype Container = Container(config: ContainerConfig, state: RunState)

  /** The columns of a `docker_containers` row that the service writes. */
  datatype ContainerRow = ContainerRow(containerId: Option<string>, status: string, logs: string)

  /** A call made to the daemon, with what it answered where that matters later. */
  datatype Call =
    | Create(name: string, created: Option<string>)
    | Start(cid: string)
    | Stop(cid: string, ok: bool)
    | Remove(cid: string)

  /**
   * The daemon's containers by id, the table's rows by project id, and
   * the calls made to the daemon so far.
   */
  datatype World = World(containers: map<string, Container>, rows: map<string, ContainerRow>, calls: seq<Call>)

  /** The three status writes of `createAndStartContainer`. */
  datatype StatusWrite = CreatedWrite | RunningWrite | ErrorWrite

  /**
   * What the daemon answers to `createContainer` (the new id or an error)
   * and to `start`, and which status writes the table refuses.
   */
  datatype ProvisionEnv = ProvisionEnv(create: Result<string>, start: Option<string>, lost: set<StatusWrite>)

  /** What the daemon answers to `stop` and `remove`. */
  datatype TeardownEnv = TeardownEnv(stop: Option<string>, remove: Option<string>)

  /** The object `createAndStartContainer` resolves to. */
  datatype Started = Started(containerId: string, containerName: string, status: string)

  datatype Outcome<T> = Outcome(world: World, result: Result<T>)

  /** A container's state after a successful start or stop; unknown ids are left alone. */
  function SetState(cs: map<string, Container>, cid: string, s: RunState): map<string, Container>
  {
    if cid in cs then cs[cid := cs[cid].(state := s)] else cs
  }

  /**
   * An `update(...).eq('project_id', projectId)`: the matching row takes the
   * new status and logs, and the container id when one is given; nothing
   * happens when no row matches or the table refuses the write.
   */
  function WriteStatus(rows: map<string, ContainerRow>, projectId: string, containerId: Option<string>,
                       status: string, logs: string, applied: bool): map<string, ContainerRow>
  {
    if !applied || projectId !in rows then rows
    else
      var id := if containerId.Some? then containerId else rows[projectId].containerId;
      rows[projectId := ContainerRow(id, status, logs)]
  }

  /** The catch block: record the error on the project's row, then rethrow. */
  function Failed(w: World, projectId: string, message: string, env: ProvisionEnv): Outcome<Started>
  {
    Outcome(w.(rows := WriteStatus(w.rows, projectId, None, "error", "Error: " + message, ErrorWrite !in env.lost)),
            Err(message))
  }

  /** `createAndStartContainer` as a function of the world before it. */
  function Provision(w: World, userId: string, projectId: string, framework: string, env: ProvisionEnv): Outcome<Started>
  {
    var config := Config(userId, projectId, framework);
    match env.create
    case Err(message) =>
      Failed(w.(calls := w.calls + [Create(config.name, None)]), projectId, message, env)
    case Ok(id) =>
      var created := World(
        w.containers[id := Container(config, Created)],
        WriteStatus(w.rows, projectId, Some(id), "created", "Container created successfully", CreatedWrite !in env.lost),
        w.calls + [Create(config.name, Some(id)), Start(id)]);
      match env.start
      case Some(message) => Failed(created, projectId, message, env)
      case None =>
        Outcome(
          World(
            SetState(created.containers, id, Running),
            WriteStatus(created.rows, projectId, None, "running", "Container started successfully", RunningWrite !in env.lost),
            created.calls),
          Ok(Started(id, config.name, "running")))
  }

  /** `stopAndRemoveContainer` as a function of the world before it. */
  function Teardown(w: World, cid: string, env: TeardownEnv): Outcome<bool>
  {
    var stopCalls := w.calls + [Stop(cid, env.stop.None?)];
    match env.stop
    case Some(message) => Outcome(w.(calls := stopCalls), Err(message))
    case None =>
      var stopped := SetState(w.containers, cid, Stopped);
      match env.remove
      case Some(message) => Outcome(World(stopped, w.rows, stopCalls + [Remove(cid)]), Err(message))
      case None => Outcome(World(stopped - {cid}, w.rows, stopCalls + [Remove(cid)]), Ok(true))
  }

  // ---------------------------------------------------------------------
  // Properties of the two sequences
  // ---------------------------------------------------------------------

  /** The call is a create that returned the id `cid`. */
  predicate CreatedId(c: Call, cid: string)
  {
    c.Create? && c.created == Some(cid)
  }

  /**
   * The call order the service keeps: a container is started only after a
   * create call returned its id, and removed only right after a stop of it
   * succeeded.
   */
  predicate Ordered(calls: seq<Call>)
  {
    (forall k :: 0 <= k < |calls| && calls[k].Start? ==>
       exists j :: 0 <= j < k && CreatedId(calls[j], calls[k].cid))
    && (forall k :: 0 <= k < |calls| && calls[k].Remove? ==> 0 < k && calls[k - 1] == Stop(calls[k].cid, true))
  }

  lemma OrderedExtend(calls: seq<Call>, more: seq<Call>)
    requires Ordered(calls)
    requires forall k :: 0 <= k < |more| && more[k].Start? ==>
               exists j :: 0 <= j < k && CreatedId(more[j], more[k].cid)
    requires forall k :: 0 <= k < |more| && more[k].Remove? ==> 0 < k && more[k - 1] == Stop(more[k].cid, true)
    ensures Ordered(calls + more)
  {
    var all := calls + more;
    forall k | 0 <= k < |all| && all[k].Start?
      ensures exists j :: 0 <= j < k && CreatedId(all[j], all[k].cid)
    {
      if k < |calls| {
        assert all[k] == calls[k];
        var j :| 0 <= j < k && CreatedId(calls[j], calls[k].cid);
        assert all[j] == calls[j];
      } else {
        assert all[k] == more[k - |calls|];
        var j :| 0 <= j < k - |calls| && CreatedId(more[j], more[k - |calls|].cid);
        assert all[j + |calls|] == more[j];
      }
    }
    forall k | 0 <= k < |all| && all[k].Remove?
      ensures 0 < k && all[k - 1] == Stop(all[k].cid, true)
    {
      if k < |calls| {
        assert all[k] == calls[k] && all[k - 1] == calls[k - 1];
      } else {
        assert all[k] == more[k - |calls|];
        assert all[k - 1] == more[k - |calls| - 1];
      }
    }
  }

  /**
   * Provisioning adds a create, and a start of the returned id when the
   * create succeeded, and nothing else; so it keeps the call order.
   */
  lemma ProvisionKeepsOrder(w: World, userId: string, projectId: string, framework: string, env: ProvisionEnv)
    requires Ordered(w.calls)
    ensures env.create.Err? ==>
              Provision(w, userId, projectId, framework, env).world.calls
              == w.calls + [Create(ContainerName(projectId), None)]
    ensures env.create.Ok? ==>
              Provision(w, userId, projectId, framework, env).world.calls
              == w.calls + [Create(ContainerName(projectId), Some(env.create.value)), Start(env.create.value)]
    ensures Ordered(Provision(w, userId, projectId, framework, env).world.calls)
  {
    var name := ContainerName(projectId);
    match env.create
    case Err(_) =>
      OrderedExtend(w.calls, [Create(name, None)]);
    case Ok(id) =>
      var more := [Create(name, Some(id)), Start(id)];
      assert CreatedId(more[0], more[1].cid);
      OrderedExtend(w.calls, more);
      assert w.calls + [Create(name, Some(id)), Start(id)] == w.calls + more;
  }

  /**
   * Teardown adds a stop, and a remove right after it when the stop
   * succeeded, and nothing else; so it keeps the call order.
   */
  lemma TeardownKeepsOrder(w: World, cid: string, env: TeardownEnv)
    requires Ordered(w.calls)
    ensures env.stop.Some? ==> Teardown(w, cid, env).world.calls == w.calls + [Stop(cid, false)]
    ensures env.stop.None? ==> Teardown(w, cid, env).world.calls == w.calls + [Stop(cid, true), Remove(cid)]
    ensures Ordered(Teardown(w, cid, env).world.calls)
  {
    if env.stop.Some? {
      OrderedExtend(w.calls, [Stop(cid, false)]);
    } else {
      var more := [Stop(cid, true), Remove(cid)];
      OrderedExtend(w.calls, more);
      assert w.calls + [Stop(cid, true)] + [Remove(cid)] == w.calls + more;
    }
  }

  /**
   * Provisioning resolves exactly when both daemon calls succeed, and then
   * to the new id, the derived name and "running"; otherwise it rethrows
   * the daemon's error.
   */
  lemma ProvisionResult(w: World, userId: string, projectId: string, framework: string, env: ProvisionEnv)
    ensures var r := Provision(w, userId, projectId, framework, env).result;
            (r.Ok? <==> env.create.Ok? && env.start.None?)
            && (r.Ok? ==> r.value == Started(env.create.value, ContainerName(projectId), "running"))
            && (env.create.Err? ==> r == Err(env.create.message))
            && (env.create.Ok? && env.start.Some? ==> r == Err(env.start.value))
  {
  }

  /**
   * After a successful provisioning the container runs with the project's
   * configuration, and the project's row, when the table accepted the
   * writes, reads "running" with the new container id.
   */
  lemma ProvisionSuccessState(w: World, userId: string, projectId: string, framework: string, env: ProvisionEnv)
    requires env.create.Ok? && env.start.None?
    ensures var o := Provision(w, userId, projectId, framework, env).world;
            var id := env.create.value;
            id in o.containers && o.containers[id] == Container(Config(userId, projectId, framework), Running)
            && (projectId in o.rows <==> projectId in w.rows)
            && (projectId in w.rows && RunningWrite !in env.lost ==>
                  o.rows[projectId].status == "running" && o.rows[projectId].logs == "Container started successfully")
            && (projectId in w.rows && CreatedWrite !in env.lost ==> o.rows[projectId].containerId == Some(id))
  {
  }

  /**
   * After a failed provisioning the project's row, when the table accepted
   * the write, reads "error" with the thrown message in its logs.
   */
  lemma ProvisionFailureState(w: World, userId: string, projectId: string, framework: string, env: ProvisionEnv)
    requires Provision(w, userId, projectId, framework, env).result.Err?
    ensures var o := Provision(w, userId, projectId, framework, env);
            projectId in w.rows && ErrorWrite !in env.lost ==>
              o.world.rows[projectId].status == "error"
              && o.world.rows[projectId].logs == "Error: " + o.result.message
  {
  }

  /**
   * A start that fails leaves the created container behind: the catch
   * block records the error but never removes the container.
   */
  lemma FailedStartLeavesContainer(w: World, userId: string, projectId: string, framework: string, env: ProvisionEnv)
    requires env.create.Ok? && env.start.Some?
    ensures var o := Provision(w, userId, projectId, framework, env).world;
            env.create.value in o.containers && o.containers[env.create.value].state == Created
  {
  }

  /**
   * A refused status write goes unnoticed: provisioning still resolves to
   * "running" while the row keeps saying "created".
   */
  lemma RefusedWriteGoesUnnoticed(w: World, userId: string, projectId: string, framework: string, env: ProvisionEnv)
    requires env.create.Ok? && env.start.None? && projectId in w.rows
    requires CreatedWrite !in env.lost && RunningWrite in env.lost
    ensures var o := Provision(w, userId, projectId, framework, env);
            o.result.Ok? && o.result.value.status == "running" && o.world.rows[projectId].status == "created"
  {
  }

  /** Provisioning writes only the project's own row and never adds one. */
  lemma ProvisionTouchesOnlyItsRow(w: World, userId: string, projectId: string, framework: string, env: ProvisionEnv)
    ensures var rows := Provision(w, userId, projectId, framework, env).world.rows;
            rows.Keys == w.rows.Keys
            && forall q :: q in w.rows && q != projectId ==> rows[q] == w.rows[q]
  {
  }

  /**
   * Teardown removes only after stopping: a failed stop changes no
   * container and makes no remove call; a successful teardown removes the
   * container. The table is never written.
   */
  lemma TeardownOutcome(w: World, cid: string, env: TeardownEnv)
    ensures var o := Teardown(w, cid, env);
            o.world.rows == w.rows
            && (env.stop.Some? ==> o.world.containers == w.containers && o.result == Err(env.stop.value)
                                   && Remove(cid) !in o.world.calls[|w.calls|..])
            && (o.result.Ok? <==> env.stop.None? && env.remove.None?)
            && (o.result.Ok? ==> cid !in o.world.containers && o.result.value
                                 && o.world.calls[|w.calls|..] == [Stop(cid, true), Remove(cid)])
            && (env.stop.None? && env.remove.Some? ==>
                  (cid in o.world.containers <==> cid in w.containers)
                  && (cid in w.containers ==> o.world.containers[cid].state == Stopped))
  {
    var o := Teardown(w, cid, env);
    if env.stop.Some? {
      assert o.world.calls[|w.calls|..] == [Stop(cid, false)];
    } else {
      assert o.world.calls[|w.calls|..] == [Stop(cid, true), Remove(cid)];
    }
  }

  /**
   * Provisioning a container under a fresh id and then tearing it down
   * leaves the daemon as it was, while the project's row still reports the
   * container as running.
   */
  lemma ProvisionThenTeardown(w: World, userId: string, projectId: string, framework: string,
                              env: ProvisionEnv, down: TeardownEnv)
    requires env.create.Ok? && env.create.value !in w.containers && env.start.None?
    requires down.stop.None? && down.remove.None?
    ensures var up := Provision(w, userId, projectId, framework, env).world;
            var after := Teardown(up, env.create.value, down);
            after.result == Ok(true)
            && after.world.containers == w.containers
            && after.world.rows == up.rows
            && (projectId in w.rows && RunningWrite !in env.lost ==> after.world.rows[projectId].status == "running")
  {
    var id := env.create.value;
    var up := Provision(w, userId, projectId, framework, env).world;
    var after := Teardown(up, id, down).world;
    assert after.containers == SetState(up.containers, id, Stopped) - {id};
    assert after.containers == w.containers;
  }

  // ---------------------------------------------------------------------
  // The service
  // ---------------------------------------------------------------------

  /** The daemon and the table as the service sees them. */
  class DockerHost {
    var containers: map<string, Container>
    var rows: map<string, ContainerRow>
    var calls: seq<Call>

    function State(): World
      reads this
    {
      World(containers, rows, calls)
    }

    constructor (initial: World)
      ensures State() == initial
    {
      containers, rows, calls := initial.containers, initial.rows, initial.calls;
    }

    /** `docker.createContainer(config)`; `answer` is the new id or the error thrown. */
    method CreateContainer(config: ContainerConfig, answer: Result<string>) returns (result: Result<string>)
      modifies this
      ensures result == answer
      ensures containers == if answer.Ok? then old(containers)[answer.value := Container(config, Created)]
                            else old(containers)
      ensures rows == old(rows)
      ensures calls == old(calls) + [Create(config.name, if answer.Ok? then Some(answer.value) else None)]
    {
      result := answer;
      match answer
      case Ok(id) =>
        containers := containers[id := Container(config, Created)];
        calls := calls + [Create(config.name, Some(id))];
      case Err(_) =>
        calls := calls + [Create(config.name, None)];
    }

    /** `container.start()`; `fail` is the error thrown, if any. */
    method StartContainer(cid: string, fail: Option<string>) returns (error: Option<string>)
      modifies this
      ensures error == fail
      ensures containers == if fail.None? then SetState(old(containers), cid, Running) else old(containers)
      ensures rows == old(rows) && calls == old(calls) + [Start(cid)]
    {
      error := fail;
      if fail.None? {
        containers := SetState(containers, cid, Running);
      }
      calls := calls + [Start(cid)];
    }

    /** `container.stop()`; `fail` is the error thrown, if any. */
    method StopContainer(cid: string, fail: Option<string>) returns (error: Option<string>)
      modifies this
      ensures error == fail
      ensures containers == if fail.None? then SetState(old(containers), cid, Stopped) else old(containers)
      ensures rows == old(rows) && calls == old(calls) + [Stop(cid, fail.None?)]
    {
      error := fail;
      if fail.None? {
        containers := SetState(containers, cid, Stopped);
      }
      calls := calls + [Stop(cid, fail.None?)];
    }

    /** `container.remove()`; `fail` is the error thrown, if any. */
    method RemoveContainer(cid: string, fail: Option<string>) returns (error: Option<string>)
      modifies this
      ensures error == fail
      ensures containers == if fail.None? then old(containers) - {cid} else old(containers)
      ensures rows == old(rows) && calls == old(calls) + [Remove(cid)]
    {
      error := fail;
      if fail.None? {
        containers := containers - {cid};
      }
      calls := calls + [Remove(cid)];
    }

    /** A status write to the project's row; its result is not looked at. */
    method UpdateStatus(projectId: string, containerId: Option<string>, status: string, logs: string, applied: bool)
      modifies this
      ensures rows == WriteStatus(old(rows), projectId, containerId, status, logs, applied)
      ensures containers == old(containers) && calls == old(calls)
    {
      rows := WriteStatus(rows, projectId, containerId, status, logs, applied);
    }

    /** `createAndStartContainer`. */
    method CreateAndStartContainer(userId: string, projectId: string, framework: string, env: ProvisionEnv)
      returns (result: Result<Started>)
      modifies this
      ensures Outcome(State(), result) == Provision(old(State()), userId, projectId, framework, env)
    {
      var containerName := ContainerName(projectId);
      var config := Config(userId, projectId, framework);
      var created := CreateContainer(config, env.create);
      var error: Option<string> := None;
      if created.Err? {
        error := Some(created.message);
      } else {
        var id := created.value;
        UpdateStatus(projectId, Some(id), "created", "Container created successfully", CreatedWrite !in env.lost);
        error := StartContainer(id, env.start);
        if error.None? {
          UpdateStatus(projectId, None, "running", "Container started successfully", RunningWrite !in env.lost);
          return Ok(Started(id, containerName, "running"));
        }
      }
      UpdateStatus(projectId, None, "error", "Error: " + error.value, ErrorWrite !in env.lost);
      result := Err(error.value);
    }

    /** `stopAndRemoveContainer`. */
    method StopAndRemoveContainer(cid: string, env: TeardownEnv) returns (result: Result<bool>)
      modifies this
      ensures Outcome(State(), result) == Teardown(old(State()), cid, env)
    {
      var error := StopContainer(cid, env.stop);
      if error.Some? {
        return Err(error.value);
      }
      error := RemoveContainer(cid, env.remove);
      if error.Some? {
        return Err(error.value);
      }
      result := Ok(true);
    }
  }
}
