/** The container manager as the object its callers see, one call at a time. A channel operation
    that would block is reported as `Blocked` with nothing changed. `ManagerRuns` shows that the
    calls are runs of the atomic actions that `SlotProtocol` interleaves. */
module Manager {
  import opened Text
  import opened Sandbox

  /** How `Container.Run` ends: with a running container's id, or with an error before or after
      Docker created the container. */
  datatype RunOutcome = Started(id: string) | NotCreated | NotStarted(id: string)

  datatype AddResult = AddBlocked | AddFailed | Added(container: Container)

  datatype RemoveResult = RemoveBlocked | KillFailed | Removed

  class ContainerManager {
    const capacity: nat
    var limiter: seq<string>
    var containers: map<string, Container>

    ghost predicate Valid()
      reads this
    {
      |limiter| <= capacity
    }

    constructor (maxConcurrentContainers: nat)
      ensures Valid() && capacity == maxConcurrentContainers
      ensures limiter == [] && containers == map[]
    {
      capacity, limiter, containers := maxConcurrentContainers, [], map[];
    }

    /** The token is sent before the container runs, and is not taken back when that fails. */
    method AddContainer(request: string, test: Option<Test>, run: RunOutcome) returns (r: AddResult)
      requires Valid()
      modifies this`limiter, this`containers
      ensures Valid()
      ensures r.AddBlocked? <==> |old(limiter)| == capacity
      ensures r.AddBlocked? ==> limiter == old(limiter) && containers == old(containers)
      ensures r.AddFailed? ==> !run.Started? && limiter == old(limiter) + [request] && containers == old(containers)
      ensures r.Added? ==>
        && run.Started? && limiter == old(limiter) + [request]
        && containers == old(containers)[run.id := r.container]
        && fresh(r.container) && r.container.id == run.id && r.container.test == test
        && r.container.State() == FRESH
    {
      if |limiter| == capacity {
        return AddBlocked;
      }
      var container := new Container(test);
      limiter := limiter + [request];
      if !run.Started? {
        var panicked := container.CloseComplete();
        return AddFailed;
      }
      container.id := run.id;
      containers := containers[run.id := container];
      return Added(container);
    }

    /** The receive takes the oldest token, whoever sent it. */
    method RemoveContainer(id: string, kill: bool, killSucceeds: bool) returns (r: RemoveResult)
      requires Valid()
      modifies this`limiter, this`containers
      ensures Valid()
      ensures r.KillFailed? <==> kill && id in old(containers) && !killSucceeds
      ensures r.RemoveBlocked? ==> old(limiter) == []
      ensures !r.Removed? ==> limiter == old(limiter) && containers == old(containers)
      ensures r.Removed? ==>
        old(limiter) != [] && limiter == old(limiter)[1..] && containers == old(containers) - {id}
    {
      if kill && id in containers {
        if !killSucceeds {
          return KillFailed;
        }
      }
      if limiter == [] {
        return RemoveBlocked;
      }
      limiter := limiter[1..];
      containers := containers - {id};
      return Removed;
    }

    method GetResponse(id: string) returns (r: Option<Outcome<Response>>)
      modifies if id in containers then {containers[id]} else {}
      ensures r.None? <==> id !in containers
      ensures r.Some? ==>
        && r.value == Sandbox.GetResponse(old(containers[id].State()), containers[id].test)
        && (r.value.Ok? ==> containers[id].State() == AfterGetResponse(old(containers[id].State())))
        && containers[id].id == old(containers[id].id) && containers[id].events == old(containers[id].events)
    {
      if id !in containers {
        return None;
      }
      var response := containers[id].ReadResponse();
      return Some(response);
    }

    /** One message in the loop of `Start`: an id that is not stored is ignored. */
    method HandleMessage(id: string, e: Event) returns (panicked: bool)
      modifies if id in containers then {containers[id]} else {}
      ensures panicked <==>
        && id in containers
        && (|old(containers[id].id)| < 10 || HandleEvent(old(containers[id].State()), e.action, e.file).Panic?)
      ensures id in containers && !panicked ==>
        && containers[id].State() == HandleEvent(old(containers[id].State()), e.action, e.file).value
        && containers[id].id == old(containers[id].id) && containers[id].events == old(containers[id].events) + [e]
    {
      if id !in containers {
        return false;
      }
      panicked := containers[id].AddDockerEventMessage(e);
    }
  }
}
