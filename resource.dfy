/**
 * The bridge interface resource as the lifecycle framework drives it: the
 * resource record (its ID and attributes), the machine's interfaces held by
 * the service, and the callbacks that update both step by step.
 */
module Resource {
  import opened Wrappers
  import opened Decimal
  import opened Strings
  import opened Entity
  import opened Store
  import opened Resolver
  import opened Lifecycle

  class BridgeResource {
    /** The resource ID (`d.Id()`): the decimal interface ID, or the import token while importing. */
    var id: string
    /** The resource's other attributes. */
    var state: State
    /** The machine's interfaces as the service lists them. */
    var listing: seq<Iface>
    /** The calls made to the service so far. */
    ghost var calls: seq<Call>

    ghost predicate Valid()
      reads this
    {
      UniqueIds(listing)
    }

    ghost function Snapshot(): World
      reads this
    {
      World(id, state, listing, calls)
    }

    constructor (id0: string, state0: State, listing0: seq<Iface>)
      requires UniqueIds(listing0)
      ensures Valid()
      ensures Snapshot() == World(id0, state0, listing0, [])
    {
      id, state, listing, calls := id0, state0, listing0, [];
    }

    /** `resourceNetworkInterfaceBridgeRead`. */
    method Read(rp: Replies) returns (out: Outcome<Error>)
      requires Valid()
      modifies this
      ensures Valid()
      ensures (out, Snapshot()) == ReadStep(old(Snapshot()), rp)
    {
      if rp.machine.Failure? {
        return Fail(rp.machine.error);
      }
      var parsed := Atoi(id);
      if parsed.None? {
        return Fail(BadId(id));
      }
      var k := parsed.value;
      calls := calls + [GetCall(k)];
      if rp.get.Some? {
        return Fail(rp.get.value);
      }
      var fetched := Lookup(listing, k);
      if fetched.None? {
        return Fail(Missing(k));
      }
      var n := fetched.value;
      state := state.(name := n.name, tags := (set t | t in n.tags), mtu := n.effectiveMtu);
      return Pass;
    }

    /** `resourceNetworkInterfaceBridgeUpdate`: overwrite on the service, then Read. */
    method Update(rp: Replies) returns (out: Outcome<Error>)
      requires Valid()
      modifies this
      ensures Valid()
      ensures (out, Snapshot()) == UpdateStep(old(Snapshot()), rp)
    {
      StepsKeepIdsUnique(Snapshot(), rp);
      if rp.machine.Failure? {
        return Fail(rp.machine.error);
      }
      var parsed := Atoi(id);
      if parsed.None? {
        return Fail(BadId(id));
      }
      var k := parsed.value;
      calls := calls + [UpdateCall(k)];
      if rp.update.Failure? {
        return Fail(rp.update.error);
      }
      if Lookup(listing, k).None? {
        return Fail(Missing(k));
      }
      listing := Replace(listing, rp.update.value.(id := k));
      out := Read(rp);
    }

    /**
     * `resourceNetworkInterfaceBridgeCreate`: adopt the bridge found for the
     * MAC address or create one, store its ID, then Update.
     */
    method Create(rp: Replies) returns (out: Outcome<Error>)
      requires Valid()
      requires rp.create.Success? ==> IdUnused(listing, rp.create.value.id)
      modifies this
      ensures Valid()
      ensures (out, Snapshot()) == CreateStep(old(Snapshot()), rp)
    {
      CreateKeepsIdsUnique(Snapshot(), rp);
      if rp.machine.Failure? {
        return Fail(rp.machine.error);
      }
      calls := calls + [ListCall];
      var found := FindBridge(if rp.list.Some? then Failure(rp.list.value) else Success(listing), state.macAddress);
      if found.Failure? {
        return Fail(found.error);
      }
      var n: Iface;
      if found.value.None? {
        calls := calls + [CreateCall];
        if rp.create.Failure? {
          return Fail(rp.create.error);
        }
        n := rp.create.value;
        AppendKeepsUnique(listing, n);
        listing := listing + [n];
      } else {
        n := found.value.value;
      }
      id := Itoa(n.id);
      out := Update(rp);
    }

    /** `resourceNetworkInterfaceBridgeDelete`: remove on the service; nothing is read back. */
    method Delete(rp: Replies) returns (out: Outcome<Error>)
      requires Valid()
      modifies this
      ensures Valid()
      ensures (out, Snapshot()) == DeleteStep(old(Snapshot()), rp)
    {
      StepsKeepIdsUnique(Snapshot(), rp);
      if rp.machine.Failure? {
        return Fail(rp.machine.error);
      }
      var parsed := Atoi(id);
      if parsed.None? {
        return Fail(BadId(id));
      }
      var k := parsed.value;
      calls := calls + [DeleteCall(k)];
      if rp.delete.Some? {
        return Fail(rp.delete.value);
      }
      if Lookup(listing, k).None? {
        return Fail(Missing(k));
      }
      listing := Remove(listing, k);
      return Pass;
    }

    /** The importer: check MACHINE:NETWORK_INTERFACE, find the bridge, record what it is. */
    method Import(rp: Replies) returns (out: Outcome<Error>)
      requires Valid()
      modifies this
      ensures Valid()
      ensures (out, Snapshot()) == ImportStep(old(Snapshot()), rp)
    {
      var parts := Split(id, ':');
      if |parts| != 2 || parts[0] == "" || parts[1] == "" {
        return Fail(BadImportFormat(id));
      }
      if rp.machine.Failure? {
        return Fail(rp.machine.error);
      }
      var systemId := rp.machine.value;
      calls := calls + [ListCall];
      var got := GetBridge(if rp.list.Some? then Failure(rp.list.value) else Success(listing), systemId, parts[1]);
      if got.Failure? {
        return Fail(got.error);
      }
      var n := got.value;
      id := Itoa(n.id);
      state := state.(machine := systemId, parent := FormatList(n.parents), bridgeType := n.ifaceType,
                      macAddress := n.macAddress, vlan := Itoa(n.vlanId));
      return Pass;
    }
  }
}
