/** The in-memory registry every handler contends on (src/task-controller.ts).

    The registry is a map from issue keys to the task that holds them. What the
    class does to that map is written down as functions on the map, so that the
    protocol in `Admission` can use the same definitions. */
module TaskControl {
  import opened Wrappers

  /** A registration symbol. `Symbol(key)` is unequal to every other symbol. */
  type Registration = nat

  /** What the `steer` callback of a registration does with a message. */
  datatype SteerSink = NoSteer | Discards | LiveSession

  datatype Task = Task(registration: Registration, owner: nat, abortable: bool, sink: SteerSink)

  type Registry = map<string, Task>

  function Registered(active: Registry, key: string, task: Task): Registry {
    if key in active then active else active[key := task]
  }

  function Unregistered(active: Registry, key: string, registration: Option<Registration>): Registry {
    if registration.Some? && !(key in active && active[key].registration == registration.value)
    then active
    else active - {key}
  }

  /** The `AbortController` a handler closes over. */
  class AbortController {
    var aborted: bool

    constructor ()
      ensures !aborted
    {
      aborted := false;
    }

    method Abort()
      modifies this
      ensures aborted
    {
      aborted := true;
    }
  }

  class TaskController {
    var active: Registry
    var aborts: map<Registration, AbortController>
    var draining: bool
    var nextSymbol: Registration

    /** Symbols are handed out once; exactly the abortable tasks have a controller. */
    ghost predicate Valid()
      reads this
    {
      && (forall k <- active :: active[k].registration < nextSymbol)
      && (forall k <- active :: active[k].abortable <==> active[k].registration in aborts)
      && (forall r <- aborts :: r < nextSymbol)
      && (forall k, l :: k in active && l in active && k != l ==> active[k].registration != active[l].registration)
    }

    constructor ()
      ensures Valid() && active == map[] && !draining
    {
      active, aborts, draining, nextSymbol := map[], map[], false, 0;
    }

    method Register(key: string, owner: nat, abort: AbortController?, sink: SteerSink)
      returns (registration: Option<Registration>)
      requires Valid()
      modifies this`active, this`aborts, this`nextSymbol
      ensures Valid()
      ensures registration == if key in old(active) then None else Some(old(nextSymbol))
      ensures active == Registered(old(active), key, Task(old(nextSymbol), owner, abort != null, sink))
      ensures registration.Some? ==> registration.value !in old(aborts)
      ensures forall k <- old(active) :: old(active)[k].registration != old(nextSymbol)
      ensures registration.Some? && abort != null ==> aborts == old(aborts)[old(nextSymbol) := abort]
      ensures registration.None? || abort == null ==> aborts == old(aborts)
    {
      if key in active {
        return None;
      }
      registration := Some(nextSymbol);
      active := active[key := Task(nextSymbol, owner, abort != null, sink)];
      if abort != null {
        aborts := aborts[nextSymbol := abort];
      }
      nextSymbol := nextSymbol + 1;
    }

    method Unregister(key: string, registration: Option<Registration>)
      requires Valid()
      modifies this`active
      ensures Valid()
      ensures active == Unregistered(old(active), key, registration)
    {
      if registration.Some? && !(key in active && active[key].registration == registration.value) {
        return;
      }
      active := active - {key};
    }

    /** Runs the abort callback and keeps the key: only the owner's own
        `Unregister` frees it. */
    method Cancel(key: string) returns (cancelled: bool)
      requires Valid()
      modifies aborts.Values
      ensures Valid() && active == old(active)
      ensures cancelled <==> key in active
      ensures cancelled && active[key].abortable ==> aborts[active[key].registration].aborted
      ensures forall c <- aborts.Values ::
        c.aborted == (old(c.aborted) || (cancelled && active[key].abortable && c == aborts[active[key].registration]))
    {
      cancelled := false;
      if key in active {
        if active[key].abortable {
          aborts[active[key].registration].Abort();
        }
        cancelled := true;
      }
    }

    method IsActive(key: string) returns (found: bool)
      ensures found <==> key in active
    {
      found := key in active;
    }

    /** `accepted` is the environment's answer to the steer callback: false when
        the callback rejects. */
    method Steer(key: string, accepted: bool) returns (reported: bool)
      ensures reported <==> key in active && !active[key].sink.NoSteer? && accepted
    {
      if key in active && !active[key].sink.NoSteer? {
        return accepted;
      }
      return false;
    }

    method SetDraining(value: bool)
      modifies this`draining
      ensures draining == value
    {
      draining := value;
    }
  }

  /** A token frees exactly the key it was issued for, and only while it is the
      current one: a stale token leaves every successor in place. */
  lemma TokenFreesOnlyItsOwnRegistration(active: Registry, key: string, token: Registration)
    ensures forall k :: k in active && k !in Unregistered(active, key, Some(token))
              <==> k == key && key in active && active[key].registration == token
    ensures forall k <- Unregistered(active, key, Some(token)) :: k in active && Unregistered(active, key, Some(token))[k] == active[k]
  {
  }

  /** Registering and then unregistering with the token obtained restores the
      registry, whatever stale tokens are presented in between. */
  lemma RegisterThenUnregisterRestores(active: Registry, key: string, task: Task, stale: Registration)
    requires key !in active
    requires stale != task.registration
    ensures Unregistered(Unregistered(Registered(active, key, task), key, Some(stale)), key, Some(task.registration)) == active
  {
    var taken := Registered(active, key, task);
    assert Unregistered(taken, key, Some(stale)) == taken;
    assert Unregistered(taken, key, Some(task.registration)) == active;
  }
}
