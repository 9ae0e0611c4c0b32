# Bridge network interface resource of the MAAS Terraform provider, in Dafny

This project models the decision logic of the Terraform resource that manages a
bridge network interface on a MAAS machine
(`maas/resource_maas_network_interface_bridge.go`), and proves properties of it.

- **Resolver** (`resolver.dfy`). `findNetworkInterfaceBridge` is the method
  `Resolver.FindBridge`. It is a loop over the listed interfaces that skips
  every interface whose type is not `"bridge"`. It returns the first one whose
  MAC address, name or decimal ID equals the token. It is proved equal to the
  reference function `Resolver.Find`, and lemmas fix what `Find` returns: the
  first candidate, nothing exactly when no bridge matches, and never a
  non-bridge. `getNetworkInterfaceBridge` is the function `Resolver.GetBridge`,
  which turns "nothing found" into a `NotFound` error.
- **Import ID check** (`importid.dfy`, `strings.dfy`). `strings.Split`
  on a one-character separator is `Strings.Split`. The importer's test is
  `ImportId.ParseImportId`. A token is accepted exactly when it holds one colon,
  and that colon is neither its first nor its last character. So no token with
  a colon in its interface part, such as a MAC address, can be imported.
- **Decimal IDs** (`decimal.dfy`). `fmt.Sprintf("%v", id)` is `Decimal.Itoa`
  and `strconv.Atoi` is `Decimal.Atoi`, both over 64-bit Go `int`s.
  `Atoi(Itoa(n)) == Some(n)`.
- **Lifecycle** (`lifecycle.dfy`, `resource.dfy`). The Create, Read, Update
  and Delete callbacks and the importer are methods of the class
  `Resource.BridgeResource`. Its fields are the resource ID, the other
  attributes, the machine's interfaces as the service lists them, and a ghost
  log of the calls made to the service. Each method is proved to produce
  exactly the outcome and new state given by a step function in `Lifecycle`
  (`ReadStep`, `UpdateStep`, `CreateStep`, `DeleteStep`, `ImportStep`). The
  lemmas about those step functions state create-or-adopt, the decimal-ID round
  trip, that Read refreshes only name, tags and MTU, idempotent Create,
  delete-then-read, and import-then-read.

The service and the collaborators are inputs. For each operation, a `Replies`
value gives:

- the result of machine resolution (a system ID or an error);
- a transport error, if any, for each remote call;
- the record the service produces when it creates or updates a bridge.

The service's own answers come from the `listing` field. Get returns the entry
with the requested ID. Update overwrites that entry. Delete removes it. A
missing ID gives a `Missing` error. The service gives every interface a unique
ID (`Store.UniqueIds`). That is the class invariant `Valid()`, and every method
preserves it.

### MAC-address import tokens are rejected

A token whose interface part is a MAC address, such as
`machine123:AA:BB:CC:DD:EE:FF`, is rejected. `strings.Split` at line 24 gives
seven parts, and line 25 demands exactly two
(`ImportId.ColonInInterfaceRejected`).

## Model

| member | source | states |
|---|---|---|
| `Decimal.Itoa` | maas/resource_maas_network_interface_bridge.go:112 | The decimal rendering is non-empty; its first character is a digit exactly for non-negative values and `-` exactly for negative ones; all other characters are digits |
| `Decimal.NatDigits` | maas/resource_maas_network_interface_bridge.go:112 | The digits of a natural number denote that number and have no leading zero |
| `Decimal.Atoi` | maas/resource_maas_network_interface_bridge.go:124-127 | An accepted stored ID has the shape of an optional `+`/`-` followed by at least one digit; the empty string and a bare sign are rejected |
| `Decimal.AtoiValue` | maas/resource_maas_network_interface_bridge.go:124-127 | For a run of digits, unsigned, after `+` or after `-`, the result is the number the digits denote (leading zeros allowed), negated after `-`, and an error exactly when that number is outside the 64-bit range |
| `Decimal.AtoiExamples` | maas/resource_maas_network_interface_bridge.go:124-127 | `"+05"` parses to 5 and `"-007"` to -7 |
| `Decimal.AtoiItoa` | maas/resource_maas_network_interface_bridge.go:112-124 | Parsing the stored decimal rendering of an interface ID gives that ID back |
| `Decimal.ItoaInjective` | maas/resource_maas_network_interface_bridge.go:199 | Distinct IDs have distinct decimal renderings, so the ID match names one interface |
| `Strings.IndexOf` | maas/resource_maas_network_interface_bridge.go:24 | The position found holds the separator, and no earlier position does |
| `Strings.Split` | maas/resource_maas_network_interface_bridge.go:24 | Splitting always yields at least one part |
| `Strings.SplitJoin` | maas/resource_maas_network_interface_bridge.go:24 | Joining the parts with the separator gives back the string, and no part holds the separator |
| `Strings.SplitInTwo` | maas/resource_maas_network_interface_bridge.go:24-25 | Two parts means the string is part, separator, part, with no separator in either part |
| `Strings.FormatList` | maas/resource_maas_network_interface_bridge.go:40 | The `%v` rendering of the parents list is bracketed |
| `ImportId.ParseImportId` | maas/resource_maas_network_interface_bridge.go:24-27 | An accepted ID is `machine:iface` with both parts non-empty and colon-free; a rejected one gives the format error naming the ID |
| `ImportId.ImportIdAcceptedIff` | maas/resource_maas_network_interface_bridge.go:24-27 | Accepted if and only if the ID holds exactly one colon and it is neither first nor last |
| `ImportId.ImportIdRoundTrip` | maas/resource_maas_network_interface_bridge.go:24-27 | `machine + ":" + iface` parses back to `(machine, iface)` when both are non-empty and colon-free |
| `ImportId.ColonInInterfaceRejected` | maas/resource_maas_network_interface_bridge.go:24-27 | Any interface token containing a colon (a MAC address) is rejected |
| `ImportId.MissingPartRejected` | maas/resource_maas_network_interface_bridge.go:25-26 | An ID with no colon, or ending in a colon, is rejected |
| `Store.Lookup` | maas/resource_maas_network_interface_bridge.go:128 | Fetching by ID returns a listed interface with that ID, and fails exactly when no interface has it |
| `Store.Replace` | maas/resource_maas_network_interface_bridge.go:156 | The update overwrites the entries with the updated ID and leaves every other entry and the length as they were |
| `Store.Remove` | maas/resource_maas_network_interface_bridge.go:174 | After deletion no entry has the deleted ID, and exactly the other entries remain |
| `Store.RemoveConcat` | maas/resource_maas_network_interface_bridge.go:174 | Deletion keeps the remaining entries in their listed order: it distributes over concatenation |
| `Store.RemoveKeepsUnique` | maas/resource_maas_network_interface_bridge.go:174 | Deletion keeps the service's IDs unique |
| `Store.LookupListed` | maas/resource_maas_network_interface_bridge.go:128 | With unique IDs, fetching by a listed interface's ID returns that interface |
| `Store.LookupReplaced` | maas/resource_maas_network_interface_bridge.go:156 | After an update, fetching by the updated ID returns the applied record |
| `Resolver.Find` | maas/resource_maas_network_interface_bridge.go:195-203 | A returned interface is listed, is a bridge and matches the token by MAC, name or decimal ID; nothing is returned exactly when no listed bridge matches |
| `Resolver.FindIsFirst` | maas/resource_maas_network_interface_bridge.go:195-201 | The first matching bridge in list order is the one returned |
| `Resolver.FindIgnoresNonBridge` | maas/resource_maas_network_interface_bridge.go:196-198 | Inserting a non-bridge anywhere in the list never changes the result, whatever its MAC or name |
| `Resolver.FindAppended` | maas/resource_maas_network_interface_bridge.go:195-203 | A matching bridge added after a list with no match is the one found |
| `Resolver.BridgeChosenOverPhysical` | maas/resource_maas_network_interface_bridge.go:195-200 | Of bridge 5 and physical interface 6 that share MAC "AA:BB", bridge 5 is found in either order |
| `Resolver.FindBridge` | maas/resource_maas_network_interface_bridge.go:190-204 | A fetch error is returned unchanged; otherwise the loop's result equals `Find` on the fetched list |
| `Resolver.GetBridge` | maas/resource_maas_network_interface_bridge.go:206-215 | A fetch error passes through; otherwise a found interface is the resolver's, and the result is an error exactly when no bridge matches, naming token and machine |
| `Lifecycle.ReadStep` | maas/resource_maas_network_interface_bridge.go:117-143 | Read never changes the ID, the service or the configured attributes; it succeeds exactly when machine, ID parse, fetch and lookup succeed, then name, tags and MTU equal the fetched record's; a bad stored ID fails with nothing changed and no call made |
| `Lifecycle.UpdateStep` | maas/resource_maas_network_interface_bridge.go:145-161 | Update keeps the ID, the configured attributes and the number of interfaces; a bad stored ID fails with nothing changed and no call made; the call log only grows |
| `Lifecycle.CreateStep` | maas/resource_maas_network_interface_bridge.go:95-115 | Create keeps the configured attributes, and the call log only grows |
| `Lifecycle.DeleteStep` | maas/resource_maas_network_interface_bridge.go:163-179 | Delete never touches the ID or attributes (no re-read); a bad stored ID fails with no call; on success exactly one delete call is made and exactly the interfaces with other IDs remain |
| `Lifecycle.ImportStep` | maas/resource_maas_network_interface_bridge.go:23-49 | A malformed import ID fails with no state and no call; success exactly when the ID parses, the machine resolves, the list is fetched and a bridge matches; then ID, machine, MAC, type, VLAN and parents come from that bridge and name, tags and MTU are untouched |
| `Lifecycle.MachineFailureStops` | maas/resource_maas_network_interface_bridge.go:29-32 | When machine resolution fails, Read, Update, Create and Delete, and an import whose token parses, all fail with that error, nothing changed and no call made (also lines 98-101, 120-123, 148-151, 166-169) |
| `Lifecycle.ListingFailureStops` | maas/resource_maas_network_interface_bridge.go:102-105 | When listing the machine's interfaces fails, Create and the import fail with that error after the list call alone and nothing else changed (also lines 33-36) |
| `Lifecycle.UpdateRejected` | maas/resource_maas_network_interface_bridge.go:156-158 | An update the service rejects fails with the service's error, and an update of an unlisted ID fails with `Missing`; either way after exactly the one update call, with no re-read and nothing else changed |
| `Lifecycle.ReadFetchFails` | maas/resource_maas_network_interface_bridge.go:128-131 | A Read whose get call fails stops with the service's error, and one whose ID is not listed stops with `Missing`. Either way this happens after exactly the one get call, with nothing else changed |
| `Lifecycle.DeleteFails` | maas/resource_maas_network_interface_bridge.go:174-176 | A Delete whose delete call fails stops with the service's error, and one whose ID is not listed stops with `Missing`. Either way this happens after exactly the one delete call, with nothing else changed |
| `Lifecycle.UpdateChainsRead` | maas/resource_maas_network_interface_bridge.go:156-160 | After an accepted update of a listed ID, Update's outcome and final state are exactly those of Read on the overwritten service after the update call. So a failed get there also fails the Update, as `ReadFetchFails` states |
| `Lifecycle.ImportOutcomes` | maas/resource_maas_network_interface_bridge.go:33-36 | Once the token parses, the machine resolves and the listing succeeds, a successful import makes the list call alone. A token no bridge answers to fails with `NotFound` naming the token and the machine (line 214), after the list call alone |
| `Lifecycle.StepsKeepIdsUnique` | maas/resource_maas_network_interface_bridge.go:145-179 | Read, Update, Delete and import keep the service's IDs unique |
| `Lifecycle.CreateKeepsIdsUnique` | maas/resource_maas_network_interface_bridge.go:102-114 | Create keeps the service's IDs unique when the service creates under an unused ID |
| `Lifecycle.UpdateEffect` | maas/resource_maas_network_interface_bridge.go:152-160 | Update on a listed ID makes an update call, overwrites the entry when the service accepts, and then (and only then) a get call |
| `Lifecycle.UpdateAppliesThenReads` | maas/resource_maas_network_interface_bridge.go:145-161 | An accepted update followed by its Read succeeds, and the resource shows the applied record's name, tags and MTU |
| `Lifecycle.CreateAdoptsExisting` | maas/resource_maas_network_interface_bridge.go:102-114 | If a bridge answers to the MAC address, there is no create call; the stored ID is its decimal ID and parses back to it; the calls are list, update, then get |
| `Lifecycle.CreateMakesOneBridge` | maas/resource_maas_network_interface_bridge.go:106-114 | If none does, exactly one create call is made; the new bridge is appended and its decimal ID stored; then update and get follow; a failed create stops there |
| `Lifecycle.CreateFound` | maas/resource_maas_network_interface_bridge.go:102-114 | When a bridge answers to the MAC address, Create is exactly Update on the world with the list call logged and that bridge's decimal ID stored |
| `Lifecycle.CreateNotFound` | maas/resource_maas_network_interface_bridge.go:102-114 | When no bridge answers, Create logs the list and create calls. It then stops with the create error, or is exactly Update on the world with the created bridge appended and its decimal ID stored |
| `Lifecycle.UpdateNeverCreates` | maas/resource_maas_network_interface_bridge.go:145-160 | Update and the Read it chains to never ask the service to create an interface |
| `Lifecycle.CreateFoundNoCreate` | maas/resource_maas_network_interface_bridge.go:102-106 | A Create that finds a bridge makes no create call |
| `Lifecycle.CreateNotFoundCreates` | maas/resource_maas_network_interface_bridge.go:106-107 | A Create that finds no bridge makes a create call |
| `Lifecycle.CreateCallsCreateIff` | maas/resource_maas_network_interface_bridge.go:98-111 | Create asks the service to create a bridge if and only if the machine resolves, the listing succeeds and no bridge answers to the MAC address |
| `Lifecycle.CreateAgainAdopts` | maas/resource_maas_network_interface_bridge.go:102-114 | On a world whose stored ID is the first bridge answering to the MAC address, Create keeps that ID, adds no interface and makes no create call |
| `Lifecycle.CreateConverges` | maas/resource_maas_network_interface_bridge.go:95-115 | A Create whose calls all succeed succeeds, showing the updated record's name, tags and MTU |
| `Lifecycle.FindReplaced` | maas/resource_maas_network_interface_bridge.go:195-201 | Overwriting the first candidate by a candidate under the same ID keeps it the first candidate |
| `Lifecycle.CreateLeavesAdoptable` | maas/resource_maas_network_interface_bridge.go:102-114 | After Create, the first bridge answering to the MAC address is the one whose ID was stored |
| `Lifecycle.CreateIsIdempotent` | maas/resource_maas_network_interface_bridge.go:102-112 | A second Create for the same MAC address stores the same ID, makes no create call and adds no interface |
| `Lifecycle.DeleteThenReadFails` | maas/resource_maas_network_interface_bridge.go:170-178 | After a successful Delete, Read of the same ID fails with a missing-interface error |
| `Lifecycle.ImportThenReadSameEntity` | maas/resource_maas_network_interface_bridge.go:33-38 | After an import, the stored ID parses to the imported bridge's ID, and Read fetches exactly that bridge |
| `Resource.BridgeResource.constructor` | maas/resource_maas_network_interface_bridge.go:95-98 | The record starts with the given ID, attributes and listing, and an empty call log |
| `Resource.BridgeResource.Read` | maas/resource_maas_network_interface_bridge.go:117-143 | Outcome and new state are those of `ReadStep`; unique IDs are kept |
| `Resource.BridgeResource.Update` | maas/resource_maas_network_interface_bridge.go:145-161 | Outcome and new state are those of `UpdateStep`, chaining into `Read` |
| `Resource.BridgeResource.Create` | maas/resource_maas_network_interface_bridge.go:95-115 | Outcome and new state are those of `CreateStep`, using the `FindBridge` loop and chaining into `Update` |
| `Resource.BridgeResource.Delete` | maas/resource_maas_network_interface_bridge.go:163-179 | Outcome and new state are those of `DeleteStep` |
| `Resource.BridgeResource.Import` | maas/resource_maas_network_interface_bridge.go:23-49 | Outcome and new state are those of `ImportStep`, using `Split` and `GetBridge` |

## Left out

- The Terraform schema, `schema.Resource` and `diag.Diagnostics` are not modelled. They are framework plumbing. Errors are `Entity.Error` values in an `Outcome`.
- `setTerraformState` is not part of this model. Each of its writes is taken to set the named attribute and never to fail. The model assumes that the `id` key written by the importer (line 38) sets the resource ID, although the schema does not declare `id` either. `Lifecycle.ImportThenReadSameEntity` depends on this: if the write did not set it, the ID would stay the `MACHINE:NETWORK_INTERFACE` token and the next Read would fail at lines 124-126. The import also writes `parent` and `bridge_type`, which the schema does not declare. How the framework treats those two keys is not modelled; the model records them in `State`.
- `getMachine` is not part of this model. Its answer is an input: a system ID or an error. Within one Create, the chained Update and Read receive the same answer, as for the same `machine` attribute.
- The MAAS client calls are not modelled as I/O. They become the `listing` field, the `Replies` inputs and the ghost call log. What the service stores when it creates or updates a bridge is an input. There is no retry, timeout or context handling.
- `getNetworkInterfaceBridgeParams` is not modelled. The parameters it builds are opaque to the model. As written it panics on every call (line 183), because it asserts the string attribute `mac_address` to `int` (and `name` to `bool`). So in the Go code every Update that parses its ID panics before `NetworkInterface.Update` (line 156), and every Create panics at line 107 or inside Update. `Lifecycle.CreateStep`, `Lifecycle.UpdateStep`, `Lifecycle.CreateConverges` and `Lifecycle.UpdateAppliesThenReads` describe the flow with that panic taken away.
- The system ID that `getMachine` returns is dropped by Create, Read, Update and Delete. `listing` stands for the interfaces of whichever machine resolves. Only the import records the system ID, in the `machine` attribute.
- Where the service lists a bridge it has just created is not known. The model appends it at the end of `listing`.
- `Decimal.Atoi`: it does not say whether a rejection is a syntax error or a range error. Either way the code only propagates the error. Go's `int` is taken to be 64 bits wide.
- `Resource.BridgeResource.Create`: it requires that a bridge the service creates gets an ID not yet in use. That is the service's uniqueness guarantee, not something the Go code checks.
- `Lifecycle.CreateIsIdempotent` and `Lifecycle.CreateLeavesAdoptable`: they assume that a bridge the service creates gets an unused ID, and that the service keeps the adopted or created interface a bridge on the same MAC address across the update. The Go code sends parameters it does not control.
- Concurrency between resource instances is not modelled. The resource has none of its own.
