/** The records the resource exchanges with the MAAS service. */
module Entity {
  import opened Decimal

  /**
   * A network interface as the service lists it: the fields of the client's
   * `entity.NetworkInterface` that the resource reads.
   */
  datatype Iface = Iface(
    id: Int64,
    ifaceType: string,      // "physical", "bridge", "bond", "vlan", ...
    macAddress: string,
    name: string,
    tags: seq<string>,
    effectiveMtu: int,
    parents: seq<string>,
    vlanId: int)

  /** The errors an operation can end with. */
  datatype Error =
    | Remote(detail: string)        // reported by the service or by machine resolution, passed on unchanged
    | Missing(ifaceId: Int64)          // the service holds no interface with this ID
    | BadId(text: string)           // `strconv.Atoi` rejected the stored ID
    | NotFound(identifier: string, machine: string)  // no bridge matched at import time
    | BadImportFormat(token: string)  // the import ID is not MACHINE:NETWORK_INTERFACE
}
