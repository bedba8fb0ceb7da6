/** Destination addresses and the per-job list of those never to be contacted. */
module Network {

  datatype Address = Address(version: int, value: nat)

  datatype Network = Network(version: int, first: nat, last: nat)
  {
    predicate Covers(a: Address) {
      a.version == version && first <= a.value <= last
    }
  }

  /** The contents of a deny-list. */
  datatype Denied = Denied(addresses: set<Address>, networks: seq<Network>)
  {
    predicate Contains(a: Address) {
      a in addresses || exists i :: 0 <= i < |networks| && networks[i].Covers(a)
    }

    function With(more: set<Address>): Denied {
      Denied(addresses + more, networks)
    }

    /** Everything this list denies, the other does too. */
    ghost predicate Within(other: Denied) {
      forall a: Address :: Contains(a) ==> other.Contains(a)
    }
  }

  class TargetDenyList {
    var seeded: bool
    var addresses: set<Address>
    var networks: seq<Network>

    constructor ()
      ensures !seeded && Contents() == Denied({}, [])
    {
      seeded, addresses, networks := false, {}, [];
    }

    function Contents(): Denied
      reads this
    {
      Denied(addresses, networks)
    }

    method Seed(more: set<Address>)
      modifies this
      ensures seeded && addresses == old(addresses) + more && networks == old(networks)
      ensures Contents() == old(Contents()).With(more) && old(Contents()).Within(Contents())
    {
      addresses := addresses + more;
      seeded := true;
    }

    method SeedNetworks(more: seq<Network>)
      modifies this
      ensures seeded && Contents() == Denied(old(addresses), old(networks) + more)
      ensures old(Contents()).Within(Contents())
    {
      GrowsByNetworks(Contents(), more);
      networks := networks + more;
      seeded := true;
    }

    method Add(more: set<Address>)
      modifies this
      ensures seeded == old(seeded) && addresses == old(addresses) + more && networks == old(networks)
      ensures Contents() == old(Contents()).With(more) && old(Contents()).Within(Contents())
    {
      addresses := addresses + more;
    }

    method Contains(a: Address) returns (found: bool)
      ensures found <==> Contents().Contains(a)
      ensures found <==> a in addresses || exists n :: 0 <= n < |networks| && networks[n].version == a.version
                                                       && networks[n].first <= a.value <= networks[n].last
    {
      if a in addresses { return true; }
      for i := 0 to |networks|
        invariant forall k :: 0 <= k < i ==> !networks[k].Covers(a)
      {
        if networks[i].Covers(a) { return true; }
      }
      found := false;
    }
  }

  lemma GrowsByNetworks(denied: Denied, more: seq<Network>)
    ensures denied.Within(Denied(denied.addresses, denied.networks + more))
  {
    forall a: Address | denied.Contains(a) ensures Denied(denied.addresses, denied.networks + more).Contains(a) {
      if a !in denied.addresses {
        var i :| 0 <= i < |denied.networks| && denied.networks[i].Covers(a);
        assert (denied.networks + more)[i].Covers(a);
      }
    }
  }
}
