/** The device controller: six request handlers over the repository. Each
    handler's meaning is a function from the store before the request to the
    response and the store after it; the controller class runs the handlers
    imperatively, through entity setters and repository calls, and is proved
    to agree with those functions. */
module Controller {
  import opened Options
  import opened DeviceStates
  import opened Devices
  import opened Repository

  /** A response body: nothing, plain text, one device or a list of devices. */
  datatype Body = Empty | Plain(text: string) | One(device: DeviceRecord) | Many(devices: seq<DeviceRecord>)

  datatype Response = Response(status: int, body: Body)

  /** The response to a request together with the store it leaves behind. */
  datatype Outcome = Outcome(response: Response, store: Store)

  /** The 404 of `ResponseEntity.notFound().build()`: no body. */
  const NotFound := Response(404, Empty)

  /** GET /devices: a brand filter wins over a state filter; with neither, every device. */
  function List(s: Store, brand: Option<string>, state: Option<State>): (r: Response)
    requires s.Valid()
    ensures r.status == 200 && r.body.Many?
    ensures brand.Some? ==> ExactListing(r.body.devices, s.table, BrandContains(brand.value))
    ensures brand.None? && state.Some? ==> ExactListing(r.body.devices, s.table, StateIs(state.value))
    ensures brand.None? && state.None? ==> ExactListing(r.body.devices, s.table, All)
  {
    if brand.Some? then Response(200, Many(s.FindByBrandContainingIgnoreCase(brand.value)))
    else if state.Some? then Response(200, Many(s.FindByState(state.value)))
    else Response(200, Many(s.FindAll()))
  }

  /** POST /devices: a new device under a fresh id, always AVAILABLE. */
  function Create(s: Store, name: string, brand: string): (r: Outcome)
    requires s.Valid()
    ensures r.response == Response(201, Plain("Saved"))
    ensures r.store.Valid()
    ensures s.nextId !in s.table
    ensures r.store.table.Keys == s.table.Keys + {s.nextId}
    ensures r.store.table[s.nextId] == DeviceRecord(s.nextId, name, brand, AVAILABLE)
    ensures forall k :: k in s.table ==> r.store.table[k] == s.table[k]
  {
    var saved := s.Save(None, name, brand, AVAILABLE);
    Outcome(Response(201, Plain("Saved")), saved.store)
  }

  /** GET /devices/{id}: the stored device, or 404. */
  function Get(s: Store, id: int): (r: Response)
    ensures id in s.table <==> r.status == 200
    ensures id in s.table ==> r.body == One(s.table[id])
    ensures id !in s.table ==> r == NotFound
  {
    match s.FindById(id)
    case Some(d) => Response(200, One(d))
    case None => NotFound
  }

  /** PUT /devices/{id}: the "no fields" check comes before the lookup, an
      in-use device is refused, otherwise only the supplied fields change. */
  function Update(s: Store, id: int, name: Option<string>, brand: Option<string>): (r: Outcome)
    requires s.Valid()
    ensures r.store.Valid()
    ensures r.response.status != 200 ==> r.store == s
    ensures name.None? && brand.None? ==> r.response == Response(400, Plain("No fields to update"))
    ensures (name.Some? || brand.Some?) && id !in s.table ==> r.response == NotFound
    ensures (name.Some? || brand.Some?) && id in s.table && s.table[id].state == INUSE ==>
      r.response == Response(409, Plain("Not updated. Device in-use"))
    ensures (name.Some? || brand.Some?) && id in s.table && s.table[id].state != INUSE ==>
      && r.response == Response(200, Plain("Updated"))
      && r.store.nextId == s.nextId
      && r.store.table.Keys == s.table.Keys
      && (forall k :: k in s.table && k != id ==> r.store.table[k] == s.table[k])
      && r.store.table[id].id == id
      && r.store.table[id].state == s.table[id].state
      && r.store.table[id].name == (if name.Some? then name.value else s.table[id].name)
      && r.store.table[id].brand == (if brand.Some? then brand.value else s.table[id].brand)
  {
    if name.None? && brand.None? then
      Outcome(Response(400, Plain("No fields to update")), s)
    else
      match s.FindById(id)
      case None => Outcome(NotFound, s)
      case Some(d) =>
        if d.state != INUSE then
          var saved := s.Save(Some(id), name.GetOr(d.name), brand.GetOr(d.brand), d.state);
          Outcome(Response(200, Plain("Updated")), saved.store)
        else
          Outcome(Response(409, Plain("Not updated. Device in-use")), s)
  }

  /** The text of a successful state update. */
  function StateUpdatedMessage(st: State): string {
    "Device state updated to: " + Display(st)
  }

  /** PATCH /devices/{id}: sets the state from any state, in-use included. */
  function UpdateState(s: Store, id: int, st: State): (r: Outcome)
    requires s.Valid()
    ensures r.store.Valid()
    ensures id !in s.table ==> r == Outcome(NotFound, s)
    ensures id in s.table ==>
      && r.response == Response(200, Plain(StateUpdatedMessage(st)))
      && r.store.nextId == s.nextId
      && r.store.table.Keys == s.table.Keys
      && (forall k :: k in s.table && k != id ==> r.store.table[k] == s.table[k])
      && r.store.table[id].state == st
      && r.store.table[id].name == s.table[id].name
      && r.store.table[id].brand == s.table[id].brand
      && r.store.table[id].id == id
  {
    match s.FindById(id)
    case None => Outcome(NotFound, s)
    case Some(d) =>
      var saved := s.Save(Some(id), d.name, d.brand, st);
      Outcome(Response(200, Plain(StateUpdatedMessage(st))), saved.store)
  }

  /** DELETE /devices/{id}: removes a device that is not in use. */
  function Delete(s: Store, id: int): (r: Outcome)
    requires s.Valid()
    ensures r.store.Valid()
    ensures r.response.status != 200 ==> r.store == s
    ensures id !in s.table ==> r.response == NotFound
    ensures id in s.table && s.table[id].state == INUSE ==>
      r.response == Response(409, Plain("Not deleted. Device in-use")) && id in r.store.table
    ensures id in s.table && s.table[id].state != INUSE ==>
      && r.response == Response(200, Plain("Deleted"))
      && r.store.nextId == s.nextId
      && r.store.table.Keys == s.table.Keys - {id}
      && (forall k :: k in r.store.table ==> r.store.table[k] == s.table[k])
  {
    match s.FindById(id)
    case None => Outcome(NotFound, s)
    case Some(d) =>
      if d.state != INUSE then
        Outcome(Response(200, Plain("Deleted")), s.DeleteById(id))
      else
        Outcome(Response(409, Plain("Not deleted. Device in-use")), s)
  }

  /** The controller, wired to one repository for its whole life. */
  class MainController {
    const repo: DeviceRepository

    constructor (repo: DeviceRepository)
      ensures this.repo == repo
    {
      this.repo := repo;
    }

    method GetAllDevices(brand: Option<string>, state: Option<State>) returns (resp: Response)
      requires repo.Valid()
      ensures resp == List(repo.Value(), brand, state)
    {
      var s := repo.Value();
      if brand.Some? {
        return Response(200, Many(s.FindByBrandContainingIgnoreCase(brand.value)));
      } else if state.Some? {
        return Response(200, Many(s.FindByState(state.value)));
      }
      return Response(200, Many(s.FindAll()));
    }

    method AddNewDevice(name: string, brand: string) returns (resp: Response)
      requires repo.Valid()
      modifies repo
      ensures repo.Valid()
      ensures Outcome(resp, repo.Value()) == Create(old(repo.Value()), name, brand)
    {
      var n := new Device();
      n.SetName(name);
      n.SetBrand(brand);
      n.SetState(AVAILABLE);
      var saved := repo.Save(n);
      return Response(201, Plain("Saved"));
    }

    method GetDeviceById(id: int) returns (resp: Response)
      requires repo.Valid()
      ensures resp == Get(repo.Value(), id)
    {
      var found := repo.FindById(id);
      match found
      case Some(device) =>
        return Response(200, One(DeviceRecord(id, device.GetName(), device.GetBrand(), device.GetState())));
      case None =>
        return NotFound;
    }

    method UpdateDevice(id: int, name: Option<string>, brand: Option<string>) returns (resp: Response)
      requires repo.Valid()
      modifies repo
      ensures repo.Valid()
      ensures Outcome(resp, repo.Value()) == Update(old(repo.Value()), id, name, brand)
    {
      if name.None? && brand.None? {
        return Response(400, Plain("No fields to update"));
      }
      var found := repo.FindById(id);
      if found.None? {
        return NotFound;
      }
      var device := found.value;
      if device.GetState() != INUSE {
        if name.Some? {
          device.SetName(name.value);
        }
        if brand.Some? {
          device.SetBrand(brand.value);
        }
        var saved := repo.Save(device);
        return Response(200, Plain("Updated"));
      }
      return Response(409, Plain("Not updated. Device in-use"));
    }

    method UpdateDeviceState(id: int, state: State) returns (resp: Response)
      requires repo.Valid()
      modifies repo
      ensures repo.Valid()
      ensures Outcome(resp, repo.Value()) == UpdateState(old(repo.Value()), id, state)
    {
      var found := repo.FindById(id);
      if found.None? {
        return NotFound;
      }
      var device := found.value;
      device.SetState(state);
      var saved := repo.Save(device);
      return Response(200, Plain("Device state updated to: " + Display(state)));
    }

    method DeleteDevice(id: int) returns (resp: Response)
      requires repo.Valid()
      modifies repo
      ensures repo.Valid()
      ensures Outcome(resp, repo.Value()) == Delete(old(repo.Value()), id)
    {
      var found := repo.FindById(id);
      if found.None? {
        return NotFound;
      }
      var device := found.value;
      if device.GetState() != INUSE {
        repo.DeleteById(id);
        return Response(200, Plain("Deleted"));
      }
      return Response(409, Plain("Not deleted. Device in-use"));
    }
  }
}
