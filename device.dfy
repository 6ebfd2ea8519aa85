/** The device entity: the persisted row as a value, and the mutable entity
    object the controller reads and changes through getters and setters. */
module Devices {
  import opened Options
  import opened DeviceStates

  /** One stored row: the id it is stored under and its three business fields. */
  datatype DeviceRecord = DeviceRecord(id: int, name: string, brand: string, state: State)

  /** The mutable entity. `id` is `None` until the repository assigns one on insert. */
  class Device {
    var id: Option<int>
    var name: string
    var brand: string
    var state: State

    /** A new, unsaved entity. Name, brand and state are left unspecified;
        every caller sets all three before saving. */
    constructor ()
      ensures id == None
    {
      id := None;
      name := *;
      brand := *;
      state := *;
    }

    /** The entity loaded from a stored row. */
    constructor Load(r: DeviceRecord)
      ensures id == Some(r.id) && name == r.name && brand == r.brand && state == r.state
    {
      id := Some(r.id);
      name := r.name;
      brand := r.brand;
      state := r.state;
    }

    function GetId(): Option<int> reads this { id }
    function GetName(): string reads this { name }
    function GetBrand(): string reads this { brand }
    function GetState(): State reads this { state }

    method SetId(x: Option<int>)
      modifies this`id
      ensures GetId() == x
      ensures name == old(name) && brand == old(brand) && state == old(state)
    {
      id := x;
    }

    method SetName(n: string)
      modifies this`name
      ensures GetName() == n
      ensures id == old(id) && brand == old(brand) && state == old(state)
    {
      name := n;
    }

    method SetBrand(b: string)
      modifies this`brand
      ensures GetBrand() == b
      ensures id == old(id) && name == old(name) && state == old(state)
    {
      brand := b;
    }

    method SetState(s: State)
      modifies this`state
      ensures GetState() == s
      ensures id == old(id) && name == old(name) && brand == old(brand)
    {
      state := s;
    }
  }
}
