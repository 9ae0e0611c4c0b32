/**
 * The interfaces of the machine as the MAAS service holds them, in the order
 * the service lists them, and the effect of its get, update and delete calls.
 */
module Store {
  import opened Wrappers
  import opened Decimal
  import opened Entity

  /** The service gives every interface its own ID. */
  predicate UniqueIds(l: seq<Iface>) {
    forall i, j :: 0 <= i < j < |l| ==> l[i].id != l[j].id
  }

  predicate IdUnused(l: seq<Iface>, k: Int64) {
    forall j :: 0 <= j < |l| ==> l[j].id != k
  }

  /** Fetching one interface by ID. */
  function Lookup(l: seq<Iface>, k: Int64): (r: Option<Iface>)
    ensures r.Some? ==> r.value in l && r.value.id == k
    ensures r.None? <==> IdUnused(l, k)
  {
    if |l| == 0 then None
    else if l[0].id == k then Some(l[0])
    else Lookup(l[1..], k)
  }

  /** Overwriting the interface whose ID is `a.id` with `a`. */
  function Replace(l: seq<Iface>, a: Iface): (r: seq<Iface>)
    ensures |r| == |l|
    ensures forall j :: 0 <= j < |l| ==> r[j] == (if l[j].id == a.id then a else l[j])
  {
    if |l| == 0 then []
    else [if l[0].id == a.id then a else l[0]] + Replace(l[1..], a)
  }

  /** Deleting the interface with ID `k`. */
  function Remove(l: seq<Iface>, k: Int64): (r: seq<Iface>)
    ensures IdUnused(r, k)
    ensures forall n :: n in r <==> n in l && n.id != k
    ensures |r| <= |l|
  {
    if |l| == 0 then []
    else if l[0].id == k then Remove(l[1..], k)
    else [l[0]] + Remove(l[1..], k)
  }

  /** Deleting keeps the order of the remaining entries: it distributes over concatenation. */
  lemma {:induction false} RemoveConcat(a: seq<Iface>, b: seq<Iface>, k: Int64)
    ensures Remove(a + b, k) == Remove(a, k) + Remove(b, k)
  {
    if |a| > 0 {
      assert (a + b)[0] == a[0] && (a + b)[1..] == a[1..] + b;
      RemoveConcat(a[1..], b, k);
    } else {
      assert a + b == b;
    }
  }

  /** With unique IDs, no later entry shares the first entry's ID, and the rest keeps IDs unique. */
  lemma HeadIdNotInTail(l: seq<Iface>, n: Iface)
    requires UniqueIds(l) && |l| > 0 && n in l[1..]
    ensures l[0].id != n.id && UniqueIds(l[1..])
  {
    var j :| 0 <= j < |l[1..]| && l[1..][j] == n;
    assert l[j + 1] == n;
  }

  /** With unique IDs, fetching by the ID of a listed interface gives that interface. */
  lemma {:induction false} LookupListed(l: seq<Iface>, j: nat)
    requires UniqueIds(l) && j < |l|
    ensures Lookup(l, l[j].id) == Some(l[j])
  {
    if j > 0 {
      assert l[1..][j - 1] == l[j];
      LookupListed(l[1..], j - 1);
    }
  }

  /** After an overwrite, fetching by the overwritten ID gives the new record. */
  lemma {:induction false} LookupReplaced(l: seq<Iface>, a: Iface)
    requires !IdUnused(l, a.id)
    ensures Lookup(Replace(l, a), a.id) == Some(a)
  {
    if l[0].id != a.id {
      assert Replace(l, a)[1..] == Replace(l[1..], a);
      LookupReplaced(l[1..], a);
    }
  }

  /** Creating, overwriting and deleting keep IDs unique. */
  lemma AppendKeepsUnique(l: seq<Iface>, c: Iface)
    requires UniqueIds(l) && IdUnused(l, c.id)
    ensures UniqueIds(l + [c])
  {
  }

  lemma ReplaceKeepsUnique(l: seq<Iface>, a: Iface)
    requires UniqueIds(l)
    ensures UniqueIds(Replace(l, a))
  {
  }

  lemma {:induction false} RemoveKeepsUnique(l: seq<Iface>, k: Int64)
    requires UniqueIds(l)
    ensures UniqueIds(Remove(l, k))
  {
    if |l| > 0 {
      RemoveKeepsUnique(l[1..], k);
      var t := Remove(l[1..], k);
      if l[0].id != k {
        forall j | 0 <= j < |t| ensures t[j].id != l[0].id {
          assert t[j] in t;
          var i :| 0 <= i < |l[1..]| && l[1..][i] == t[j];
          assert l[i + 1] == t[j];
        }
      }
    }
  }
}
