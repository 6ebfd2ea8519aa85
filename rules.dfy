/** The controller as a state machine over the store, and the business rule
    it keeps: an in-use device is never renamed, re-branded or deleted, only
    a state update changes a state, and generated ids are never reused. */
module BusinessRules {
  import opened Options
  import opened DeviceStates
  import opened Devices
  import opened Repository
  import opened Controller

  /** One request to the controller, already bound from the HTTP layer. */
  datatype Request =
    | ListDevices(brandFilter: Option<string>, stateFilter: Option<State>)
    | AddDevice(name: string, brand: string)
    | GetDevice(id: int)
    | UpdateDevice(id: int, newName: Option<string>, newBrand: Option<string>)
    | UpdateDeviceState(id: int, newState: State)
    | DeleteDevice(id: int)

  /** Whether `q` is a state update aimed at device `id`. */
  predicate PatchesId(q: Request, id: int) {
    q.UpdateDeviceState? && q.id == id
  }

  function Step(s: Store, q: Request): (r: Outcome)
    requires s.Valid()
    ensures r.store.Valid()
    ensures r.store.nextId >= s.nextId
  {
    match q
    case ListDevices(b, st) => Outcome(List(s, b, st), s)
    case AddDevice(n, b) => Create(s, n, b)
    case GetDevice(id) => Outcome(Get(s, id), s)
    case UpdateDevice(id, n, b) => Update(s, id, n, b)
    case UpdateDeviceState(id, st) => UpdateState(s, id, st)
    case DeleteDevice(id) => Delete(s, id)
  }

  /** The store after serving `qs` one after the other. */
  function Run(s: Store, qs: seq<Request>): (r: Store)
    requires s.Valid()
    ensures r.Valid()
    ensures r.nextId >= s.nextId
    decreases |qs|
  {
    if qs == [] then s else Run(Step(s, qs[0]).store, qs[1..])
  }

  /** A request that is refused (any status but 200 or 201) changes nothing. */
  lemma RefusedRequestChangesNothing(s: Store, q: Request)
    requires s.Valid()
    ensures Step(s, q).response.status != 200 && Step(s, q).response.status != 201 ==> Step(s, q).store == s
  {
  }

  /** Only a state update changes the state of a device that survives the request. */
  lemma OnlyPatchChangesState(s: Store, q: Request, k: int)
    requires s.Valid()
    requires !q.UpdateDeviceState?
    requires k in s.table && k in Step(s, q).store.table
    ensures Step(s, q).store.table[k].state == s.table[k].state
  {
  }

  /** One request that is not a state update of an in-use device leaves its row as it is. */
  lemma InUseRowSurvivesStep(s: Store, q: Request, id: int)
    requires s.Valid()
    requires id in s.table && s.table[id].state == INUSE
    requires !PatchesId(q, id)
    ensures id in Step(s, q).store.table && Step(s, q).store.table[id] == s.table[id]
  {
  }

  /** The business rule over any sequence of requests: until a state update
      targets it, an in-use device keeps its name, brand and state and is not deleted. */
  lemma {:induction false} InUseRowSurvivesRun(s: Store, qs: seq<Request>, id: int)
    requires s.Valid()
    requires id in s.table && s.table[id].state == INUSE
    requires forall i :: 0 <= i < |qs| ==> !PatchesId(qs[i], id)
    ensures id in Run(s, qs).table && Run(s, qs).table[id] == s.table[id]
    decreases |qs|
  {
    if qs != [] {
      InUseRowSurvivesStep(s, qs[0], id);
      var s1 := Step(s, qs[0]).store;
      assert forall i :: 0 <= i < |qs[1..]| ==> !PatchesId(qs[1..][i], id) by {
        forall i | 0 <= i < |qs[1..]| ensures !PatchesId(qs[1..][i], id) {
          assert qs[1..][i] == qs[i + 1];
        }
      }
      InUseRowSurvivesRun(s1, qs[1..], id);
    }
  }

  /** Within one request, a row whose id had been handed out before the request
      either was already stored or is gone: new rows only ever get new ids. */
  lemma NoIdReusedByStep(s: Store, q: Request, k: int)
    requires s.Valid()
    requires k in Step(s, q).store.table && k < s.nextId
    ensures k in s.table
  {
  }

  /** Ids are never reused: after any sequence of requests, a stored row whose
      id had already been handed out at the start was stored at the start. */
  lemma {:induction false} NoIdReusedByRun(s: Store, qs: seq<Request>, k: int)
    requires s.Valid()
    requires k in Run(s, qs).table && k < s.nextId
    ensures k in s.table
    decreases |qs|
  {
    if qs != [] {
      var s1 := Step(s, qs[0]).store;
      NoIdReusedByRun(s1, qs[1..], k);
      NoIdReusedByStep(s, qs[0], k);
    }
  }

  /** The documented walk-through: create on an empty store, read it back as id 1,
      mark it in use, then try to rename it; and delete an id that does not exist. */
  lemma Walkthrough()
    ensures
      var s0 := Store(map[], 1);
      var c := Step(s0, AddDevice("iPhone 14", "Apple"));
      var g := Step(c.store, GetDevice(1));
      var p := Step(c.store, UpdateDeviceState(1, INUSE));
      var u := Step(p.store, UpdateDevice(1, Some("X"), None));
      var d := Step(p.store, DeleteDevice(999));
      && c.response == Response(201, Plain("Saved"))
      && g.response == Response(200, One(DeviceRecord(1, "iPhone 14", "Apple", AVAILABLE)))
      && p.response == Response(200, Plain("Device state updated to: in-use"))
      && u.response == Response(409, Plain("Not updated. Device in-use"))
      && d.response == NotFound
  {
    var s0 := Store(map[], 1);
    var rec := DeviceRecord(1, "iPhone 14", "Apple", AVAILABLE);
    var c := Step(s0, AddDevice("iPhone 14", "Apple"));
    assert c.store == Store(map[1 := rec], 2);
    var p := Step(c.store, UpdateDeviceState(1, INUSE));
    assert p.store == Store(map[1 := rec.(state := INUSE)], 2);
    assert StateUpdatedMessage(INUSE) == "Device state updated to: in-use";
  }
}
