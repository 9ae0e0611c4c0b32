/**
 * Locating a bridge interface on a machine by a token that may be its MAC
 * address, its name or its decimal ID (`findNetworkInterfaceBridge` and
 * `getNetworkInterfaceBridge`).
 */
module Resolver {
  import opened Wrappers
  import opened Decimal
  import opened Entity

  predicate IsBridge(n: Iface) {
    n.ifaceType == "bridge"
  }

  /** The token equals, as text, the MAC address, the name or the decimal ID. */
  predicate Matches(n: Iface, identifier: string) {
    n.macAddress == identifier || n.name == identifier || Itoa(n.id) == identifier
  }

  /** An interface the search may return for this token. */
  predicate Candidate(n: Iface, identifier: string) {
    IsBridge(n) && Matches(n, identifier)
  }

  predicate NoCandidate(l: seq<Iface>, identifier: string) {
    forall j :: 0 <= j < |l| ==> !Candidate(l[j], identifier)
  }

  /** The first bridge in list order that matches the token. */
  function Find(l: seq<Iface>, identifier: string): (r: Option<Iface>)
    ensures r.Some? ==> r.value in l && Candidate(r.value, identifier)
    ensures r.None? <==> NoCandidate(l, identifier)
  {
    if |l| == 0 then None
    else if Candidate(l[0], identifier) then Some(l[0])
    else Find(l[1..], identifier)
  }

  /** The search returns the first candidate: every earlier entry was skipped. */
  lemma {:induction false} FindIsFirst(l: seq<Iface>, identifier: string, k: nat)
    requires k < |l| && Candidate(l[k], identifier)
    requires forall j :: 0 <= j < k ==> !Candidate(l[j], identifier)
    ensures Find(l, identifier) == Some(l[k])
  {
    if k > 0 {
      assert !Candidate(l[0], identifier);
      assert l[1..][k - 1] == l[k];
      FindIsFirst(l[1..], identifier, k - 1);
    }
  }

  /**
   * An interface that is not a bridge is never considered, even when its MAC
   * address or name equals the token: removing it changes nothing.
   */
  lemma {:induction false} FindIgnoresNonBridge(a: seq<Iface>, m: Iface, b: seq<Iface>, identifier: string)
    requires !IsBridge(m)
    ensures Find(a + [m] + b, identifier) == Find(a + b, identifier)
  {
    if |a| == 0 {
      assert a + [m] + b == [m] + b && ([m] + b)[1..] == b && a + b == b;
    } else {
      FindIgnoresNonBridge(a[1..], m, b, identifier);
      assert (a + [m] + b)[1..] == a[1..] + [m] + b;
      assert (a + b)[1..] == a[1..] + b;
    }
  }

  /** A new candidate appended to a list in which nothing matched is the one found. */
  lemma FindAppended(l: seq<Iface>, c: Iface, identifier: string)
    requires NoCandidate(l, identifier) && Candidate(c, identifier)
    ensures Find(l + [c], identifier) == Some(c)
  {
    FindIsFirst(l + [c], identifier, |l|);
  }

  /**
   * `findNetworkInterfaceBridge`: scan the fetched list and return the first
   * bridge that matches; a failed fetch is passed on unchanged, and finding
   * nothing is not an error.
   */
  method FindBridge(fetched: Result<seq<Iface>, Error>, identifier: string) returns (r: Result<Option<Iface>, Error>)
    ensures r.Success? <==> fetched.Success?
    ensures fetched.Failure? ==> r.error == fetched.error
    ensures fetched.Success? ==> r.value == Find(fetched.value, identifier)
  {
    if fetched.Failure? {
      return Failure(fetched.error);
    }
    var ifaces := fetched.value;
    var i := 0;
    while i < |ifaces|
      invariant 0 <= i <= |ifaces|
      invariant forall j :: 0 <= j < i ==> !Candidate(ifaces[j], identifier)
    {
      var n := ifaces[i];
      if n.ifaceType != "bridge" {
        i := i + 1;
        continue;
      }
      if n.macAddress == identifier || n.name == identifier || Itoa(n.id) == identifier {
        FindIsFirst(ifaces, identifier, i);
        return Success(Some(n));
      }
      i := i + 1;
    }
    return Success(None);
  }

  /**
   * `getNetworkInterfaceBridge`: the same search, with "nothing found" turned
   * into an error that names the token and the machine.
   */
  function GetBridge(fetched: Result<seq<Iface>, Error>, machineSystemId: string, identifier: string): (r: Result<Iface, Error>)
    ensures fetched.Failure? ==> r == Failure(fetched.error)
    ensures fetched.Success? && r.Success? ==> Find(fetched.value, identifier) == Some(r.value)
    ensures fetched.Success? ==> (r.Failure? <==> NoCandidate(fetched.value, identifier))
    ensures fetched.Success? && r.Failure? ==> r.error == NotFound(identifier, machineSystemId)
  {
    match fetched
    case Failure(e) => Failure(e)
    case Success(l) =>
      match Find(l, identifier)
      case Some(n) => Success(n)
      case None => Failure(NotFound(identifier, machineSystemId))
  }

  /**
   * Two interfaces share the MAC address "AA:BB": bridge 5 and physical
   * interface 6. Looking up "AA:BB" finds bridge 5, and only bridges would
   * ever be found.
   */
  lemma BridgeChosenOverPhysical()
    ensures var br := Iface(5, "bridge", "AA:BB", "br0", [], 1500, [], 0);
            var eth := Iface(6, "physical", "AA:BB", "eth0", [], 1500, [], 0);
            Find([br, eth], "AA:BB") == Some(br) && Find([eth, br], "AA:BB") == Some(br)
  {
    var br := Iface(5, "bridge", "AA:BB", "br0", [], 1500, [], 0);
    var eth := Iface(6, "physical", "AA:BB", "eth0", [], 1500, [], 0);
    FindIsFirst([br, eth], "AA:BB", 0);
    FindIgnoresNonBridge([], eth, [br], "AA:BB");
    assert [] + [eth] + [br] == [eth, br];
    FindIsFirst([br], "AA:BB", 0);
  }
}
