/**
 * The Create, Read, Update, Delete and import operations of the bridge
 * interface resource as functions from one world to the next: the resource's
 * stored ID and attributes, the machine's interfaces held by the service, and
 * the log of calls made to the service.
 */
module Lifecycle {
  import opened Wrappers
  import opened Decimal
  import opened Strings
  import opened Entity
  import opened Store
  import opened Resolver
  import opened ImportId

  /** The resource's attributes other than its ID. */
  datatype State = State(
    machine: string,
    macAddress: string,
    vlan: string,
    name: string,
    tags: set<string>,
    mtu: int,
    parent: string,
    bridgeType: string)

  /** A call made to the service about the machine's interfaces. */
  datatype Call = ListCall | CreateCall | GetCall(id: Int64) | UpdateCall(id: Int64) | DeleteCall(id: Int64)

  /**
   * How the collaborators answer during one operation: machine resolution (the
   * machine's system ID or an error), a transport error for each remote call,
   * and the records the service produces when it creates or updates a bridge.
   */
  datatype Replies = Replies(
    machine: Result<string, Error>,
    list: Option<Error>,
    create: Result<Iface, Error>,
    update: Result<Iface, Error>,
    get: Option<Error>,
    delete: Option<Error>)

  datatype World = World(id: string, state: State, listing: seq<Iface>, calls: seq<Call>)

  /** The attributes Read copies from the service. */
  function Refresh(st: State, n: Iface): State {
    st.(name := n.name, tags := (set t | t in n.tags), mtu := n.effectiveMtu)
  }

  /** The attributes that only configuration and import set. */
  predicate SameConfig(a: State, b: State) {
    a.machine == b.machine && a.macAddress == b.macAddress && a.vlan == b.vlan &&
    a.parent == b.parent && a.bridgeType == b.bridgeType
  }

  /** The answer to listing the machine's interfaces. */
  function Listed(w: World, rp: Replies): Result<seq<Iface>, Error> {
    if rp.list.Some? then Failure(rp.list.value) else Success(w.listing)
  }

  /** Whether the first log is the start of the second. */
  predicate Extends(before: seq<Call>, after: seq<Call>) {
    |before| <= |after| && after[..|before|] == before
  }

  /** Read: refresh name, tags and MTU from the interface the stored ID names. */
  function ReadStep(w: World, rp: Replies): (r: (Outcome<Error>, World))
    ensures r.1.id == w.id && r.1.listing == w.listing && SameConfig(r.1.state, w.state)
    ensures r.0.Fail? ==> r.1.state == w.state
    ensures r.0.Pass? <==>
      rp.machine.Success? && Atoi(w.id).Some? && rp.get.None? && Lookup(w.listing, Atoi(w.id).value).Some?
    ensures r.0.Pass? ==>
      var n := Lookup(w.listing, Atoi(w.id).value).value;
      r.1.state.name == n.name && (forall t :: t in r.1.state.tags <==> t in n.tags) &&
      r.1.state.mtu == n.effectiveMtu
    ensures rp.machine.Success? && Atoi(w.id).None? ==> r == (Fail(BadId(w.id)), w)
    ensures rp.machine.Success? && Atoi(w.id).Some? ==> r.1.calls == w.calls + [GetCall(Atoi(w.id).value)]
  {
    match rp.machine
    case Failure(e) => (Fail(e), w)
    case Success(_) =>
      match Atoi(w.id)
      case None => (Fail(BadId(w.id)), w)
      case Some(k) =>
        var w1 := w.(calls := w.calls + [GetCall(k)]);
        if rp.get.Some? then (Fail(rp.get.value), w1)
        else
          match Lookup(w.listing, k)
          case None => (Fail(Missing(k)), w1)
          case Some(n) => (Pass, w1.(state := Refresh(w.state, n)))
  }

  /** Update: overwrite the interface the stored ID names, then Read. */
  function UpdateStep(w: World, rp: Replies): (r: (Outcome<Error>, World))
    ensures r.1.id == w.id && SameConfig(r.1.state, w.state)
    ensures |r.1.listing| == |w.listing|
    ensures rp.machine.Success? && Atoi(w.id).None? ==> r == (Fail(BadId(w.id)), w)
    ensures Extends(w.calls, r.1.calls)
  {
    match rp.machine
    case Failure(e) => (Fail(e), w)
    case Success(_) =>
      match Atoi(w.id)
      case None => (Fail(BadId(w.id)), w)
      case Some(k) =>
        var w1 := w.(calls := w.calls + [UpdateCall(k)]);
        match rp.update
        case Failure(e) => (Fail(e), w1)
        case Success(a) =>
          if IdUnused(w.listing, k) then (Fail(Missing(k)), w1)
          else ReadStep(w1.(listing := Replace(w.listing, a.(id := k))), rp)
  }

  /**
   * Create: find a bridge for the MAC address or create one, store its
   * decimal ID, then Update (which Reads).
   */
  function CreateStep(w: World, rp: Replies): (r: (Outcome<Error>, World))
    ensures SameConfig(r.1.state, w.state)
    ensures Extends(w.calls, r.1.calls)
  {
    match rp.machine
    case Failure(e) => (Fail(e), w)
    case Success(_) =>
      var w1 := w.(calls := w.calls + [ListCall]);
      match Listed(w, rp)
      case Failure(e) => (Fail(e), w1)
      case Success(l) =>
        match Find(l, w.state.macAddress)
        case Some(n) => UpdateStep(w1.(id := Itoa(n.id)), rp)
        case None =>
          var w2 := w1.(calls := w1.calls + [CreateCall]);
          match rp.create
          case Failure(e) => (Fail(e), w2)
          case Success(c) => UpdateStep(w2.(listing := l + [c], id := Itoa(c.id)), rp)
  }

  /** Delete: remove the interface the stored ID names; nothing is read back. */
  function DeleteStep(w: World, rp: Replies): (r: (Outcome<Error>, World))
    ensures r.1.id == w.id && r.1.state == w.state
    ensures rp.machine.Success? && Atoi(w.id).None? ==> r == (Fail(BadId(w.id)), w)
    ensures r.0.Pass? <==>
      rp.machine.Success? && Atoi(w.id).Some? && rp.delete.None? && !IdUnused(w.listing, Atoi(w.id).value)
    ensures r.0.Pass? ==>
      var k := Atoi(w.id).value;
      r.1.calls == w.calls + [DeleteCall(k)] && IdUnused(r.1.listing, k) &&
      forall n :: n in r.1.listing <==> n in w.listing && n.id != k
    ensures r.0.Fail? ==> r.1.listing == w.listing
  {
    match rp.machine
    case Failure(e) => (Fail(e), w)
    case Success(_) =>
      match Atoi(w.id)
      case None => (Fail(BadId(w.id)), w)
      case Some(k) =>
        var w1 := w.(calls := w.calls + [DeleteCall(k)]);
        if rp.delete.Some? then (Fail(rp.delete.value), w1)
        else if IdUnused(w.listing, k) then (Fail(Missing(k)), w1)
        else (Pass, w1.(listing := Remove(w.listing, k)))
  }

  /**
   * Import: the stored ID is the MACHINE:NETWORK_INTERFACE token; look the
   * bridge up and record its ID, machine, parents, type, MAC address and VLAN.
   */
  function ImportStep(w: World, rp: Replies): (r: (Outcome<Error>, World))
    ensures r.1.listing == w.listing
    ensures ParseImportId(w.id).Failure? ==> r == (Fail(BadImportFormat(w.id)), w)
    ensures r.0.Pass? <==>
      ParseImportId(w.id).Success? && rp.machine.Success? && rp.list.None? &&
      Find(w.listing, ParseImportId(w.id).value.1).Some?
    ensures r.0.Pass? ==>
      var n := Find(w.listing, ParseImportId(w.id).value.1).value;
      r.1.id == Itoa(n.id) && r.1.state.machine == rp.machine.value &&
      r.1.state.macAddress == n.macAddress && r.1.state.bridgeType == n.ifaceType &&
      r.1.state.vlan == Itoa(n.vlanId) && r.1.state.parent == FormatList(n.parents) &&
      r.1.state.name == w.state.name && r.1.state.tags == w.state.tags && r.1.state.mtu == w.state.mtu
    ensures r.0.Fail? ==> r.1.id == w.id && r.1.state == w.state
  {
    match ParseImportId(w.id)
    case Failure(e) => (Fail(e), w)
    case Success((_, identifier)) =>
      match rp.machine
      case Failure(e) => (Fail(e), w)
      case Success(systemId) =>
        var w1 := w.(calls := w.calls + [ListCall]);
        match GetBridge(Listed(w, rp), systemId, identifier)
        case Failure(e) => (Fail(e), w1)
        case Success(n) =>
          (Pass, w1.(id := Itoa(n.id),
                     state := w.state.(machine := systemId, parent := FormatList(n.parents),
                                       bridgeType := n.ifaceType, macAddress := n.macAddress,
                                       vlan := Itoa(n.vlanId))))
  }

  /** The service's IDs stay unique through Read, Update, Delete and import. */
  lemma StepsKeepIdsUnique(w: World, rp: Replies)
    requires UniqueIds(w.listing)
    ensures UniqueIds(ReadStep(w, rp).1.listing)
    ensures UniqueIds(UpdateStep(w, rp).1.listing)
    ensures UniqueIds(DeleteStep(w, rp).1.listing)
    ensures UniqueIds(ImportStep(w, rp).1.listing)
  {
    if Atoi(w.id).Some? {
      var k := Atoi(w.id).value;
      if rp.update.Success? {
        ReplaceKeepsUnique(w.listing, rp.update.value.(id := k));
      }
      RemoveKeepsUnique(w.listing, k);
    }
  }

  /** Create keeps the service's IDs unique, given that the service creates a bridge under an unused ID. */
  lemma CreateKeepsIdsUnique(w: World, rp: Replies)
    requires UniqueIds(w.listing)
    requires rp.create.Success? ==> IdUnused(w.listing, rp.create.value.id)
    ensures UniqueIds(CreateStep(w, rp).1.listing)
  {
    if rp.machine.Success? && rp.list.None? {
      var n := Find(w.listing, w.state.macAddress);
      if n.Some? {
        CreateFound(w, rp);
        StepsKeepIdsUnique(w.(calls := w.calls + [ListCall], id := Itoa(n.value.id)), rp);
      } else {
        CreateNotFound(w, rp);
        if rp.create.Success? {
          var c := rp.create.value;
          AppendKeepsUnique(w.listing, c);
          StepsKeepIdsUnique(w.(calls := w.calls + [ListCall, CreateCall], listing := w.listing + [c], id := Itoa(c.id)), rp);
        }
      }
    }
  }

  /** What Update does to the log and to the service once the stored ID names a listed interface. */
  lemma UpdateEffect(w: World, rp: Replies, k: Int64)
    requires rp.machine.Success? && Atoi(w.id) == Some(k) && !IdUnused(w.listing, k)
    ensures var r := UpdateStep(w, rp);
            && r.1.calls == w.calls + [UpdateCall(k)] + (if rp.update.Success? then [GetCall(k)] else [])
            && r.1.listing == (if rp.update.Success? then Replace(w.listing, rp.update.value.(id := k)) else w.listing)
  {
    var w1 := w.(calls := w.calls + [UpdateCall(k)]);
    if rp.update.Success? {
      var w2 := w1.(listing := Replace(w.listing, rp.update.value.(id := k)));
      assert UpdateStep(w, rp) == ReadStep(w2, rp);
    } else {
      assert UpdateStep(w, rp).1 == w1;
    }
  }

  /** Update followed by its Read: the service holds the applied record, and the resource shows its name, tags and MTU. */
  lemma UpdateAppliesThenReads(w: World, rp: Replies)
    requires rp.machine.Success? && Atoi(w.id).Some? && !IdUnused(w.listing, Atoi(w.id).value)
    requires rp.update.Success? && rp.get.None?
    ensures var k := Atoi(w.id).value;
            var a := rp.update.value.(id := k);
            var r := UpdateStep(w, rp);
            && r.0 == Pass
            && r.1.listing == Replace(w.listing, a)
            && r.1.state == Refresh(w.state, a)
            && r.1.calls == w.calls + [UpdateCall(k), GetCall(k)]
  {
    var k := Atoi(w.id).value;
    LookupReplaced(w.listing, rp.update.value.(id := k));
  }

  /** Create hands the found bridge's decimal ID to Update, after the list call. */
  lemma CreateFound(w: World, rp: Replies)
    requires rp.machine.Success? && rp.list.None?
    requires Find(w.listing, w.state.macAddress).Some?
    ensures CreateStep(w, rp) ==
      UpdateStep(w.(calls := w.calls + [ListCall], id := Itoa(Find(w.listing, w.state.macAddress).value.id)), rp)
  {
  }

  /** Create with no bridge found hands the created bridge to Update, after the list and create calls. */
  lemma CreateNotFound(w: World, rp: Replies)
    requires rp.machine.Success? && rp.list.None?
    requires Find(w.listing, w.state.macAddress).None?
    ensures var w2 := w.(calls := w.calls + [ListCall, CreateCall]);
            CreateStep(w, rp) ==
              match rp.create
              case Failure(e) => (Fail(e), w2)
              case Success(c) => UpdateStep(w2.(listing := w.listing + [c], id := Itoa(c.id)), rp)
  {
    assert w.calls + [ListCall] + [CreateCall] == w.calls + [ListCall, CreateCall];
  }

  /** Update on a listed ID stored after a list call: the calls and the service that result. */
  lemma UpdateAfterList(w: World, rp: Replies, k: Int64)
    requires rp.machine.Success? && !IdUnused(w.listing, k)
    ensures var r := UpdateStep(w.(calls := w.calls + [ListCall], id := Itoa(k)), rp);
            && r.1.id == Itoa(k)
            && Atoi(r.1.id) == Some(k)
            && r.1.calls == w.calls + ([ListCall, UpdateCall(k)] + (if rp.update.Success? then [GetCall(k)] else []))
            && (rp.update.Failure? ==> r.1.listing == w.listing)
            && (rp.update.Success? ==> r.1.listing == Replace(w.listing, rp.update.value.(id := k)))
  {
    AtoiItoa(k);
    var w1 := w.(calls := w.calls + [ListCall], id := Itoa(k));
    UpdateEffect(w1, rp, k);
    var t := if rp.update.Success? then [GetCall(k)] else [];
    assert w1.calls + [UpdateCall(k)] + t == w.calls + ([ListCall, UpdateCall(k)] + t);
  }

  /**
   * Create when a bridge already answers to the MAC address: no create call;
   * the stored ID is that bridge's decimal ID, and control passes to Update
   * and then Read on that ID.
   */
  lemma CreateAdoptsExisting(w: World, rp: Replies)
    requires rp.machine.Success? && rp.list.None?
    requires Find(w.listing, w.state.macAddress).Some?
    ensures var n := Find(w.listing, w.state.macAddress).value;
            var r := CreateStep(w, rp);
            && r.1.id == Itoa(n.id)
            && Atoi(r.1.id) == Some(n.id)
            && r.1.calls == w.calls + ([ListCall, UpdateCall(n.id)] + (if rp.update.Success? then [GetCall(n.id)] else []))
            && (rp.update.Failure? ==> r.1.listing == w.listing)
            && (rp.update.Success? ==> r.1.listing == Replace(w.listing, rp.update.value.(id := n.id)))
  {
    var n := Find(w.listing, w.state.macAddress).value;
    assert !IdUnused(w.listing, n.id);
    CreateFound(w, rp);
    UpdateAfterList(w, rp, n.id);
  }

  /**
   * Create when no bridge answers to the MAC address: exactly one create call;
   * the stored ID is the new bridge's decimal ID, and control passes to Update
   * and then Read on that ID.
   */
  lemma CreateMakesOneBridge(w: World, rp: Replies)
    requires rp.machine.Success? && rp.list.None?
    requires Find(w.listing, w.state.macAddress).None?
    ensures var r := CreateStep(w, rp);
            match rp.create
            case Failure(e) => r == (Fail(e), w.(calls := w.calls + [ListCall, CreateCall]))
            case Success(c) =>
              && r.1.id == Itoa(c.id)
              && Atoi(r.1.id) == Some(c.id)
              && r.1.calls == w.calls + [ListCall, CreateCall, UpdateCall(c.id)] + (if rp.update.Success? then [GetCall(c.id)] else [])
              && (rp.update.Failure? ==> r.1.listing == w.listing + [c])
              && (rp.update.Success? ==> r.1.listing == Replace(w.listing + [c], rp.update.value.(id := c.id)))
  {
    CreateNotFound(w, rp);
    if rp.create.Success? {
      var c := rp.create.value;
      AtoiItoa(c.id);
      assert (w.listing + [c])[|w.listing|] == c;
      var w2 := w.(calls := w.calls + [ListCall, CreateCall], listing := w.listing + [c], id := Itoa(c.id));
      UpdateEffect(w2, rp, c.id);
      assert w2.calls + [UpdateCall(c.id)] == w.calls + [ListCall, CreateCall, UpdateCall(c.id)];
    }
  }

  /** A failed machine resolution stops every operation at once: that error, nothing changed, no call made. */
  lemma MachineFailureStops(w: World, rp: Replies)
    ensures rp.machine.Failure? ==>
      var stop := (Fail(rp.machine.error), w);
      && ReadStep(w, rp) == stop && UpdateStep(w, rp) == stop && CreateStep(w, rp) == stop
      && DeleteStep(w, rp) == stop
      && (ParseImportId(w.id).Success? ==> ImportStep(w, rp) == stop)
  {
  }

  /** A failed listing stops Create and the import with that error, after the list call alone. */
  lemma ListingFailureStops(w: World, rp: Replies)
    ensures rp.machine.Success? && rp.list.Some? ==>
      var stop := (Fail(rp.list.value), w.(calls := w.calls + [ListCall]));
      && CreateStep(w, rp) == stop
      && (ParseImportId(w.id).Success? ==> ImportStep(w, rp) == stop)
  {
  }

  /**
   * Update that the service rejects, or whose ID is not listed, fails with
   * that error after the one update call, and nothing else changes.
   */
  lemma UpdateRejected(w: World, rp: Replies)
    ensures rp.machine.Success? && Atoi(w.id).Some? ==>
      var k := Atoi(w.id).value;
      var w1 := w.(calls := w.calls + [UpdateCall(k)]);
      && (rp.update.Failure? ==> UpdateStep(w, rp) == (Fail(rp.update.error), w1))
      && (rp.update.Success? && IdUnused(w.listing, k) ==> UpdateStep(w, rp) == (Fail(Missing(k)), w1))
  {
  }

  /**
   * Read whose fetch fails, or whose ID is not listed, fails with that error
   * after the one get call, and nothing else changes.
   */
  lemma ReadFetchFails(w: World, rp: Replies)
    ensures rp.machine.Success? && Atoi(w.id).Some? ==>
      var k := Atoi(w.id).value;
      var w1 := w.(calls := w.calls + [GetCall(k)]);
      && (rp.get.Some? ==> ReadStep(w, rp) == (Fail(rp.get.value), w1))
      && (rp.get.None? && IdUnused(w.listing, k) ==> ReadStep(w, rp) == (Fail(Missing(k)), w1))
  {
  }

  /**
   * Delete whose call fails, or whose ID is not listed, fails with that error
   * after the one delete call, and nothing else changes.
   */
  lemma DeleteFails(w: World, rp: Replies)
    ensures rp.machine.Success? && Atoi(w.id).Some? ==>
      var k := Atoi(w.id).value;
      var w1 := w.(calls := w.calls + [DeleteCall(k)]);
      && (rp.delete.Some? ==> DeleteStep(w, rp) == (Fail(rp.delete.value), w1))
      && (rp.delete.None? && IdUnused(w.listing, k) ==> DeleteStep(w, rp) == (Fail(Missing(k)), w1))
  {
  }

  /** An accepted update of a listed ID hands over to Read on the overwritten service, whatever Read then reports. */
  lemma UpdateChainsRead(w: World, rp: Replies)
    ensures rp.machine.Success? && Atoi(w.id).Some? ==>
      var k := Atoi(w.id).value;
      rp.update.Success? && !IdUnused(w.listing, k) ==>
        UpdateStep(w, rp) ==
          ReadStep(w.(calls := w.calls + [UpdateCall(k)], listing := Replace(w.listing, rp.update.value.(id := k))), rp)
  {
  }

  /**
   * Import once the token parses, the machine resolves and the listing
   * succeeds: success makes the list call alone, and a token no bridge
   * answers to fails with `NotFound` naming the token and the machine.
   */
  lemma ImportOutcomes(w: World, rp: Replies)
    ensures ParseImportId(w.id).Success? && rp.machine.Success? && rp.list.None? ==>
      var iface := ParseImportId(w.id).value.1;
      && (ImportStep(w, rp).0.Pass? ==> ImportStep(w, rp).1.calls == w.calls + [ListCall])
      && (Find(w.listing, iface).None? ==>
            ImportStep(w, rp) == (Fail(NotFound(iface, rp.machine.value)), w.(calls := w.calls + [ListCall])))
  {
  }

  /** The calls made after a log are what was appended to it. */
  lemma NewCalls(cs: seq<Call>, t: seq<Call>)
    ensures (cs + t)[|cs|..] == t
  {
  }

  /** Update and the Read it chains to never ask the service to create an interface. */
  lemma UpdateNeverCreates(w: World, rp: Replies)
    ensures CreateCall !in UpdateStep(w, rp).1.calls[|w.calls|..]
  {
    if rp.machine.Failure? {
      MachineFailureStops(w, rp);
      NewCalls(w.calls, []);
    } else if Atoi(w.id).None? {
      NewCalls(w.calls, []);
    } else {
      var k := Atoi(w.id).value;
      if rp.update.Failure? || IdUnused(w.listing, k) {
        UpdateRejected(w, rp);
        NewCalls(w.calls, [UpdateCall(k)]);
      } else {
        UpdateEffect(w, rp, k);
        assert w.calls + [UpdateCall(k)] + [GetCall(k)] == w.calls + [UpdateCall(k), GetCall(k)];
        NewCalls(w.calls, [UpdateCall(k), GetCall(k)]);
      }
    }
  }

  /** The calls of an adoption (list, update, perhaps get) hold no create call. */
  lemma AdoptionLogNoCreate(cs: seq<Call>, pre: seq<Call>, k: Int64, got: bool)
    requires cs == pre + ([ListCall, UpdateCall(k)] + (if got then [GetCall(k)] else []))
    ensures CreateCall !in cs[|pre|..]
  {
    NewCalls(pre, [ListCall, UpdateCall(k)] + (if got then [GetCall(k)] else []));
  }

  /** Create that finds a bridge makes no create call. */
  lemma CreateFoundNoCreate(w: World, rp: Replies)
    requires rp.machine.Success? && rp.list.None?
    requires Find(w.listing, w.state.macAddress).Some?
    ensures CreateCall !in CreateStep(w, rp).1.calls[|w.calls|..]
  {
    CreateAdoptsExisting(w, rp);
    AdoptionLogNoCreate(CreateStep(w, rp).1.calls, w.calls, Find(w.listing, w.state.macAddress).value.id, rp.update.Success?);
  }

  /** Create that finds no bridge makes a create call, right after the list call. */
  lemma CreateNotFoundCreates(w: World, rp: Replies)
    requires rp.machine.Success? && rp.list.None?
    requires Find(w.listing, w.state.macAddress).None?
    ensures CreateCall in CreateStep(w, rp).1.calls[|w.calls|..]
  {
    CreateMakesOneBridge(w, rp);
    var t := CreateStep(w, rp).1.calls[|w.calls|..];
    assert t[1] == CreateStep(w, rp).1.calls[|w.calls| + 1];
  }

  /**
   * Create asks the service to create a bridge exactly when the machine
   * resolves, the listing succeeds and no bridge answers to the MAC address.
   */
  lemma CreateCallsCreateIff(w: World, rp: Replies)
    ensures CreateCall in CreateStep(w, rp).1.calls[|w.calls|..] <==>
      rp.machine.Success? && rp.list.None? && Find(w.listing, w.state.macAddress).None?
  {
    if rp.machine.Failure? {
      MachineFailureStops(w, rp);
      NewCalls(w.calls, []);
    } else if rp.list.Some? {
      ListingFailureStops(w, rp);
      NewCalls(w.calls, [ListCall]);
    } else if Find(w.listing, w.state.macAddress).Some? {
      CreateFoundNoCreate(w, rp);
    } else {
      CreateNotFoundCreates(w, rp);
    }
  }

  /**
   * Create that gets through to the end: it succeeds, and the resource shows
   * the name, tags and MTU of the record the service applied on Update.
   */
  lemma CreateConverges(w: World, rp: Replies)
    requires rp.machine.Success? && rp.list.None?
    requires Find(w.listing, w.state.macAddress).Some? || rp.create.Success?
    requires rp.update.Success? && rp.get.None?
    ensures var r := CreateStep(w, rp);
            && r.0 == Pass
            && r.1.state.name == rp.update.value.name
            && r.1.state.tags == (set t | t in rp.update.value.tags)
            && r.1.state.mtu == rp.update.value.effectiveMtu
  {
    var f := Find(w.listing, w.state.macAddress);
    if f.Some? {
      CreateAdoptsExisting(w, rp);
      var w1 := w.(calls := w.calls + [ListCall], id := Itoa(f.value.id));
      assert !IdUnused(w.listing, f.value.id);
      UpdateAppliesThenReads(w1, rp);
    } else {
      CreateMakesOneBridge(w, rp);
      var c := rp.create.value;
      var w2 := w.(calls := w.calls + [ListCall, CreateCall], listing := w.listing + [c], id := Itoa(c.id));
      assert w2.listing[|w.listing|] == c;
      UpdateAppliesThenReads(w2, rp);
    }
  }

  /** The service keeps a record a bridge on this MAC address. */
  predicate KeepsBridge(n: Iface, mac: string) {
    IsBridge(n) && n.macAddress == mac
  }

  /** Overwriting the first candidate with another candidate under the same ID keeps it first. */
  lemma {:induction false} FindReplaced(l: seq<Iface>, identifier: string, a: Iface)
    requires UniqueIds(l) && Find(l, identifier).Some? && Find(l, identifier).value.id == a.id
    requires Candidate(a, identifier)
    ensures Find(Replace(l, a), identifier) == Some(a)
  {
    var r := Replace(l, a);
    assert r[1..] == Replace(l[1..], a);
    if !Candidate(l[0], identifier) {
      var n := Find(l, identifier).value;
      assert n in l[1..];
      HeadIdNotInTail(l, n);
      FindReplaced(l[1..], identifier, a);
    }
  }

  /**
   * After a Create that got a bridge (found or made), the first bridge
   * answering to the MAC address is the one whose ID was stored, provided the
   * service keeps it a bridge on that MAC address.
   */
  lemma CreateLeavesAdoptable(w: World, rp: Replies)
    requires UniqueIds(w.listing)
    requires rp.machine.Success? && rp.list.None?
    requires Find(w.listing, w.state.macAddress).Some? || rp.create.Success?
    requires rp.create.Success? ==> IdUnused(w.listing, rp.create.value.id) && KeepsBridge(rp.create.value, w.state.macAddress)
    requires rp.update.Success? ==> KeepsBridge(rp.update.value, w.state.macAddress)
    ensures var w1 := CreateStep(w, rp).1;
            && w1.state.macAddress == w.state.macAddress
            && Find(w1.listing, w.state.macAddress).Some?
            && w1.id == Itoa(Find(w1.listing, w.state.macAddress).value.id)
  {
    var mac := w.state.macAddress;
    var f := Find(w.listing, mac);
    if f.Some? {
      CreateAdoptsExisting(w, rp);
      if rp.update.Success? {
        FindReplaced(w.listing, mac, rp.update.value.(id := f.value.id));
      }
    } else {
      CreateMakesOneBridge(w, rp);
      var c := rp.create.value;
      FindAppended(w.listing, c, mac);
      if rp.update.Success? {
        AppendKeepsUnique(w.listing, c);
        FindReplaced(w.listing + [c], mac, rp.update.value.(id := c.id));
      }
    }
  }

  /**
   * Create on a world whose stored ID is the first bridge answering to the MAC
   * address keeps that ID, adds no interface and makes no create call.
   */
  lemma CreateAgainAdopts(w: World, rp: Replies)
    requires rp.machine.Success? && rp.list.None?
    requires Find(w.listing, w.state.macAddress).Some?
    requires w.id == Itoa(Find(w.listing, w.state.macAddress).value.id)
    ensures var w1 := CreateStep(w, rp).1;
            && w1.id == w.id
            && |w1.listing| == |w.listing|
            && CreateCall !in w1.calls[|w.calls|..]
  {
    CreateAdoptsExisting(w, rp);
    CreateFoundNoCreate(w, rp);
  }

  /**
   * Create is idempotent: a second Create for the same MAC address adopts the
   * bridge the first one stored, makes no create call and stores the same ID.
   */
  lemma CreateIsIdempotent(w: World, rp: Replies, rp2: Replies)
    requires UniqueIds(w.listing)
    requires rp.machine.Success? && rp.list.None?
    requires Find(w.listing, w.state.macAddress).Some? || rp.create.Success?
    requires rp.create.Success? ==> IdUnused(w.listing, rp.create.value.id) && KeepsBridge(rp.create.value, w.state.macAddress)
    requires rp.update.Success? ==> KeepsBridge(rp.update.value, w.state.macAddress)
    requires rp2.machine.Success? && rp2.list.None?
    ensures var w1 := CreateStep(w, rp).1;
            var w2 := CreateStep(w1, rp2).1;
            && w2.id == w1.id
            && |w2.listing| == |w1.listing|
            && Extends(w1.calls, w2.calls)
            && CreateCall !in w2.calls[|w1.calls|..]
  {
    CreateLeavesAdoptable(w, rp);
    CreateAgainAdopts(CreateStep(w, rp).1, rp2);
  }

  /** After a successful Delete, a Read of the same ID fails: the interface is gone. */
  lemma DeleteThenReadFails(w: World, rp: Replies, rp2: Replies)
    requires DeleteStep(w, rp).0 == Pass
    requires rp2.machine.Success? && rp2.get.None?
    ensures ReadStep(DeleteStep(w, rp).1, rp2).0 == Fail(Missing(Atoi(w.id).value))
  {
  }

  /** After an import, Read fetches the very bridge the import found, by its ID. */
  lemma ImportThenReadSameEntity(w: World, rp: Replies, rp2: Replies)
    requires UniqueIds(w.listing)
    requires ImportStep(w, rp).0 == Pass
    requires rp2.machine.Success? && rp2.get.None?
    ensures var n := Find(w.listing, ParseImportId(w.id).value.1).value;
            var w1 := ImportStep(w, rp).1;
            var r := ReadStep(w1, rp2);
            && Atoi(w1.id) == Some(n.id)
            && r.0 == Pass
            && r.1.calls == w1.calls + [GetCall(n.id)]
            && r.1.state == Refresh(w1.state, n)
  {
    var n := Find(w.listing, ParseImportId(w.id).value.1).value;
    AtoiItoa(n.id);
    var j :| 0 <= j < |w.listing| && w.listing[j] == n;
    LookupListed(w.listing, j);
  }
}
