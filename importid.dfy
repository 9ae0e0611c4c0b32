/** The import ID check: `strings.Split(id, ":")` must give two non-empty parts. */
module ImportId {
  import opened Wrappers
  import opened Strings
  import opened Entity

  /** Builds an import ID from a machine and an interface token. */
  function FormatImportId(machine: string, iface: string): string {
    machine + ":" + iface
  }

  /** Accepts MACHINE:NETWORK_INTERFACE and returns the two parts. */
  function ParseImportId(id: string): (r: Result<(string, string), Error>)
    ensures r.Success? ==> r.value.0 != "" && r.value.1 != ""
    ensures r.Success? ==> ':' !in r.value.0 && ':' !in r.value.1
    ensures r.Success? ==> id == FormatImportId(r.value.0, r.value.1)
    ensures r.Failure? ==> r.error == BadImportFormat(id)
  {
    var parts := Split(id, ':');
    if |parts| != 2 || parts[0] == "" || parts[1] == "" then Failure(BadImportFormat(id))
    else
      SplitInTwo(id, ':');
      Success((parts[0], parts[1]))
  }

  /** The ID holds exactly one colon, and it is neither its first nor its last character. */
  predicate OneInnerColon(id: string) {
    exists k :: 0 < k < |id| - 1 && id[k] == ':' && forall j :: 0 <= j < |id| && j != k ==> id[j] != ':'
  }

  /** The import ID is accepted exactly when it holds one colon strictly inside it. */
  lemma ImportIdAcceptedIff(id: string)
    ensures ParseImportId(id).Success? <==> OneInnerColon(id)
  {
    if ParseImportId(id).Success? {
      var (m, i) := ParseImportId(id).value;
      var k := |m|;
      assert id == m + [':'] + i;
      forall j | 0 <= j < |id| && j != k ensures id[j] != ':' {
        if j < k { assert id[j] == m[j]; } else { assert id[j] == i[j - k - 1]; }
      }
      assert 0 < k < |id| - 1 && id[k] == ':';
    }
    if OneInnerColon(id) {
      var k :| 0 < k < |id| - 1 && id[k] == ':' && forall j :: 0 <= j < |id| && j != k ==> id[j] != ':';
      assert ':' !in id[..k];
      assert IndexOf(id, ':') == k;
      var rest := id[k + 1..];
      assert ':' !in rest by {
        forall j | 0 <= j < |rest| ensures rest[j] != ':' { assert rest[j] == id[k + 1 + j]; }
      }
      assert Split(id, ':') == [id[..k], rest];
    }
  }

  /** A machine and a token that are non-empty and colon-free survive the round trip. */
  lemma ImportIdRoundTrip(machine: string, iface: string)
    requires machine != "" && iface != ""
    requires ':' !in machine && ':' !in iface
    ensures ParseImportId(FormatImportId(machine, iface)) == Success((machine, iface))
  {
    var id := FormatImportId(machine, iface);
    var k := |machine|;
    assert id[..k] == machine && id[k] == ':' && id[k + 1..] == iface;
    assert IndexOf(id, ':') == k;
    assert Split(id, ':') == [machine, iface];
  }

  /**
   * A token that itself holds a colon, such as a MAC address, can never be
   * imported: the ID then holds at least two colons.
   */
  lemma ColonInInterfaceRejected(machine: string, iface: string)
    requires ':' in iface
    ensures ParseImportId(FormatImportId(machine, iface)).Failure?
  {
    var id := FormatImportId(machine, iface);
    var k := |machine|;
    var c := IndexOf(iface, ':');
    assert id[k] == ':' && id[k + 1 + c] == ':';
    ImportIdAcceptedIff(id);
  }

  /** An ID without a colon, or one that ends in a colon, is rejected. */
  lemma MissingPartRejected(id: string)
    requires ':' !in id || (|id| > 0 && id[|id| - 1] == ':')
    ensures ParseImportId(id).Failure?
  {
    ImportIdAcceptedIff(id);
  }
}
