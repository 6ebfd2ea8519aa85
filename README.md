# Device CRUD service — a verified Dafny model

This project models the core of a small REST service that manages "devices".
Each device has an id, a name, a brand and a state (AVAILABLE, INUSE or
INACTIVE). A Spring controller offers six operations over a JPA repository:

- list, with an optional brand filter or state filter;
- create;
- get by id;
- update name and/or brand;
- update state;
- delete.

The one business rule: a device that is INUSE cannot be renamed, re-branded
or deleted. Only the state-update operation may change it.

The model has seven modules:

- `Options` (options.dfy): the optional value that stands for Java's `null` and `Optional`.
- `DeviceStates` (state.dfy): the `STATE` enumeration and its display strings.
- `Text` (text.dfy): ASCII case folding and substring search, the semantics of the derived query `findByBrandContainingIgnoreCase`.
- `Devices` (device.dfy): the stored row as a value (`DeviceRecord`) and the mutable entity class `Device` with its getters and setters.
- `Repository` (repository.dfy): the abstract store `Store` (a map from id to row plus the id generator) with the repository's queries, `save` and `deleteById` as functions. The class `DeviceRepository` holds the table and does `save`/`deleteById` in place.
- `Controller` (controller.dfy): each handler as a function from the store before the request to the response and the store after it. The class `MainController` runs the handlers imperatively: it loads an entity, calls its setters, and calls `save` or `deleteById`. Each method is proved equal to its handler function.
- `BusinessRules` (rules.dfy): the controller as a state machine over request sequences, with the in-use rule and id non-reuse proved over any sequence.

Responses are `Response(status, body)`. The body is `Empty`, `Plain(..)`, `One(device)` or `Many(devices)`.

Id generation (`GenerationType.AUTO`) is modelled as a counter `nextId`, starting at 1. The store's invariant `Store.Valid` says every stored id lies in `[1, nextId)`. Every row is stored under its own id. The model lists query results in ascending id order. That order is the model's choice (see "## Left out").

Choices where the source is easy to misread:

- `addNewDevice` accepts any string for name and brand, including the empty one (MainController.java:59-68 does no check), so the model does too.
- A brand filter that is present but empty is still non-null. It selects every device (`Text.EmptyIsContained`).
- Every 404 has an empty body (`ResponseEntity.notFound().build()`). The "Not Found" text appears only in the API documentation annotations.

## Model

| member | source | states |
|---|---|---|
| `DeviceStates.Display` | src/main/java/company/developer/esim_rest_api/STATE.java:4-16 | each constant's display string is non-empty and made of lower-case letters and hyphens |
| `DeviceStates.DisplayInjective` | src/main/java/company/developer/esim_rest_api/STATE.java:3-6 | distinct states have distinct display strings |
| `DeviceStates.ExactlyThreeStates` | src/main/java/company/developer/esim_rest_api/STATE.java:3-6 | every state is one of the three constants, and its display string is one of "available", "in-use", "inactive" |
| `Text.Lower` | src/main/java/company/developer/esim_rest_api/DeviceRepository.java:7 | case folding keeps the length and folds each character on its own |
| `Text.Contains` | src/main/java/company/developer/esim_rest_api/DeviceRepository.java:7 | true exactly when the pattern occurs at some position of the subject |
| `Text.ContainsIgnoreCase` | src/main/java/company/developer/esim_rest_api/DeviceRepository.java:7 | true exactly when, at some position, every pattern character equals the subject character up to case |
| `Text.EmptyIsContained` | src/main/java/company/developer/esim_rest_api/MainController.java:38-39 | an empty (non-null) brand filter matches every brand |
| `Text.CaseOfSubjectIrrelevant` | src/main/java/company/developer/esim_rest_api/DeviceRepository.java:7 | changing the case of the stored brand never changes whether it matches |
| `Devices.Device.constructor` | src/main/java/company/developer/esim_rest_api/MainController.java:63 | a new entity has no id yet |
| `Devices.Device.Load` | src/main/java/company/developer/esim_rest_api/Device.java:14-22 | an entity loaded from a row carries that row's id, name, brand and state |
| `Devices.Device.SetId` | src/main/java/company/developer/esim_rest_api/Device.java:27-33 | `GetId()` then returns the new id; name, brand and state keep their values |
| `Devices.Device.SetName` | src/main/java/company/developer/esim_rest_api/Device.java:35-41 | `GetName()` then returns the new name; id, brand and state keep their values |
| `Devices.Device.SetBrand` | src/main/java/company/developer/esim_rest_api/Device.java:43-49 | `GetBrand()` then returns the new brand; id, name and state keep their values |
| `Devices.Device.SetState` | src/main/java/company/developer/esim_rest_api/Device.java:51-57 | `GetState()` then returns the new state; id, name and brand keep their values |
| `Repository.Select` | src/main/java/company/developer/esim_rest_api/DeviceRepository.java:5-9 | the rows with ids in a range that a filter selects: each is stored under its id and matches, none that matches is missing, ids strictly ascending (the model's chosen order) |
| `Repository.AscendingSameElements` | src/main/java/company/developer/esim_rest_api/DeviceRepository.java:5-9 | two id-ascending listings with the same rows are equal |
| `Repository.ExactListingUnique` | src/main/java/company/developer/esim_rest_api/DeviceRepository.java:5-9 | a listing that is exact for a table and filter is the only one, so under the model's ascending-id order each query result is fully determined |
| `Repository.Store.FindById` | src/main/java/company/developer/esim_rest_api/DeviceRepository.java:5 | present exactly when the id is stored, and then the stored row |
| `Repository.Store.FindAll` | src/main/java/company/developer/esim_rest_api/DeviceRepository.java:5 | every stored row exactly once, in the model's ascending-id order |
| `Repository.Store.FindByState` | src/main/java/company/developer/esim_rest_api/DeviceRepository.java:9 | exactly the stored rows whose state equals the argument, each once, in id order |
| `Repository.Store.FindByBrandContainingIgnoreCase` | src/main/java/company/developer/esim_rest_api/DeviceRepository.java:7 | exactly the stored rows whose brand contains the argument ignoring case, each once, in id order |
| `Repository.Store.Save` | src/main/java/company/developer/esim_rest_api/DeviceRepository.java:5 | with no id, inserts under the generated id, which was not stored, and advances the generator; with a stored id, overwrites that entry only; the invariant is kept |
| `Repository.Store.DeleteById` | src/main/java/company/developer/esim_rest_api/DeviceRepository.java:5 | removes exactly that key; every other entry and the generator are unchanged |
| `Repository.DeviceRepository.constructor` | src/main/java/company/developer/esim_rest_api/Device.java:14-16 | the repository starts empty and its first generated id is 1 |
| `Repository.DeviceRepository.FindById` | src/main/java/company/developer/esim_rest_api/DeviceRepository.java:5 | a fresh entity with the stored row's fields when the id is stored, nothing otherwise |
| `Repository.DeviceRepository.Save` | src/main/java/company/developer/esim_rest_api/DeviceRepository.java:5 | the table becomes `Store.Save` of the entity's fields; on insert the entity gets its new id |
| `Repository.DeviceRepository.DeleteById` | src/main/java/company/developer/esim_rest_api/DeviceRepository.java:5 | the table becomes `Store.DeleteById` of the old one |
| `Controller.List` | src/main/java/company/developer/esim_rest_api/MainController.java:38-46 | status 200; a brand wins over a state; with a brand the exact brand listing, else with a state the exact state listing, else every device |
| `Controller.Create` | src/main/java/company/developer/esim_rest_api/MainController.java:63-68 | 201 "Saved"; exactly one new row under an id not stored before, with the given name and brand and state AVAILABLE; every existing row unchanged |
| `Controller.Get` | src/main/java/company/developer/esim_rest_api/MainController.java:86-88 | 200 with the stored row when the id is stored, otherwise 404 with no body |
| `Controller.Update` | src/main/java/company/developer/esim_rest_api/MainController.java:108-123 | 400 "No fields to update" when both fields are absent, whether or not the id exists; else 404 for an unknown id; else 409 "Not updated. Device in-use" for an INUSE device; every refusal leaves the store unchanged; else 200 "Updated" and only the supplied fields of that row change |
| `Controller.UpdateState` | src/main/java/company/developer/esim_rest_api/MainController.java:143-147 | for a stored id, from any state: 200 "Device state updated to: " plus the new state's display string, the state set, name, brand and other rows unchanged; otherwise 404 and no change |
| `Controller.Delete` | src/main/java/company/developer/esim_rest_api/MainController.java:164-171 | 404 for an unknown id; 409 "Not deleted. Device in-use" for an INUSE device, which stays stored; else 200 "Deleted" and exactly that id is removed; refusals change nothing |
| `Controller.MainController.constructor` | src/main/java/company/developer/esim_rest_api/MainController.java:17-18 | the controller is wired to the given repository |
| `Controller.MainController.GetAllDevices` | src/main/java/company/developer/esim_rest_api/MainController.java:33-47 | returns `List` of the current store and changes nothing |
| `Controller.MainController.AddNewDevice` | src/main/java/company/developer/esim_rest_api/MainController.java:59-69 | builds the entity with setters and saves it; response and new store are those of `Create` |
| `Controller.MainController.GetDeviceById` | src/main/java/company/developer/esim_rest_api/MainController.java:84-89 | returns `Get` of the current store and changes nothing |
| `Controller.MainController.UpdateDevice` | src/main/java/company/developer/esim_rest_api/MainController.java:102-124 | checks for fields, loads, applies the setters and saves; response and new store are those of `Update` |
| `Controller.MainController.UpdateDeviceState` | src/main/java/company/developer/esim_rest_api/MainController.java:137-148 | loads, sets the state and saves; response and new store are those of `UpdateState` |
| `Controller.MainController.DeleteDevice` | src/main/java/company/developer/esim_rest_api/MainController.java:160-172 | loads, checks the state and deletes; response and new store are those of `Delete` |
| `BusinessRules.Step` | src/main/java/company/developer/esim_rest_api/MainController.java:33-172 | every request keeps the store invariant and never moves the id generator backwards |
| `BusinessRules.Run` | src/main/java/company/developer/esim_rest_api/MainController.java:33-172 | any sequence of requests keeps the store invariant and never moves the id generator backwards |
| `BusinessRules.RefusedRequestChangesNothing` | src/main/java/company/developer/esim_rest_api/MainController.java:108-171 | a request answered with neither 200 nor 201 leaves the store unchanged |
| `BusinessRules.OnlyPatchChangesState` | src/main/java/company/developer/esim_rest_api/MainController.java:63-171 | a request other than a state update never changes the state of a device present before and after it |
| `BusinessRules.InUseRowSurvivesStep` | src/main/java/company/developer/esim_rest_api/MainController.java:115-170 | a request that is not a state update of an INUSE device leaves that device's row stored and unchanged |
| `BusinessRules.InUseRowSurvivesRun` | src/main/java/company/developer/esim_rest_api/MainController.java:115-170 | over any request sequence with no state update of it, an INUSE device is never renamed, re-branded, re-stated or deleted |
| `BusinessRules.NoIdReusedByStep` | src/main/java/company/developer/esim_rest_api/Device.java:14-16 | after a request, a stored id that had been handed out before it belongs to a row stored before it |
| `BusinessRules.NoIdReusedByRun` | src/main/java/company/developer/esim_rest_api/Device.java:14-16 | over any request sequence, ids handed out before are never given to a new row |
| `BusinessRules.Walkthrough` | src/test/java/company/developer/esim_rest_api/MainControllerTest.java:152-164 | on an empty store: create gives 201 "Saved"; get 1 returns that row, AVAILABLE; a state update to INUSE answers "Device state updated to: in-use"; a later rename gets 409; deleting id 999 gets 404 |

## Left out

- HTTP routing, parameter binding and `ResponseEntity` construction. Requests reach the model already bound; the framework's own 400s for a missing required parameter or an unparsable state never reach the controller's logic.
- The OpenAPI annotations. They are documentation only.
- The `creationTime` timestamp. It depends on the clock and is never read by the controller.
- The database. The table is a map. JPA's entity-manager caching is not modelled: a loaded entity is a copy, so its changes reach the table only through `save`, which every controller path that changes an entity calls.
- Id generation. It is modelled as a counter from 1. The real generator only promises an id that was not used before. The 32-bit `Integer` range of ids is not modelled.
- `Repository.Store.Save`: requires that an entity with an id has that id stored. The controller only saves new entities or entities it has just loaded. What JPA does with an id that is set but not stored is not modelled.
- `Repository.DeviceRepository.Save`: has the same requirement as `Repository.Store.Save`, for the same reason.
- `Devices.Device.constructor`: Java's no-argument constructor leaves name, brand and state `null`. The model has no null. It leaves the three fields unspecified and promises only that the id is unset. Every caller sets all three through the setters before saving.
- Listing order: the source's queries send no ORDER BY and promise no order. The model lists in ascending id order. So the determinacy in `Repository.ExactListingUnique` holds of the model only.
- Column lengths: JPA's default `VARCHAR(255)` columns, and MySQL's refusal of longer values, are not modelled. Names and brands are strings of any length.
- Null states on stored devices. Every row has one of the three states, which holds for every device created through the controller.
- `STATE.setState`, which overwrites an enum constant's display string. Nothing calls it, so the display string is a fixed function.
- Concurrency. The load-check-save and load-check-delete sequences are not atomic in the source, so two concurrent requests can race. The model is sequential.
- Full Unicode case folding in the brand filter. The model folds ASCII letters only. The SQL `LIKE` wildcard escaping of the filter is taken as given: the filter matches as a literal substring.
- The mocked test harness. The tests are used only as evidence of the expected responses.
