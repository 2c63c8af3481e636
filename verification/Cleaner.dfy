/**
 The standalone remedy that cleans orphan public IP addresses: list what Kubernetes and Azure know,
 separate, remove the orphans from the load balancer in one batch, then delete them one by one.
 */
module Cleaner {
  import opened Wrappers
  import opened Sequences
  import opened LoadBalancers
  import opened AzureUtils

  datatype Service = Service(isLoadBalancer: bool, ingress: seq<string>)

  function KnownIPs(services: seq<Service>): (ips: seq<string>)
    ensures forall ip :: ip in ips <==> exists svc :: svc in services && svc.isLoadBalancer && ip in svc.ingress
  {
    if services == [] then []
    else
      var before, last := services[..|services| - 1], services[|services| - 1];
      assert forall svc :: svc in services <==> svc in before || svc == last;
      KnownIPs(before) + if last.isLoadBalancer then last.ingress else []
  }

  predicate Contains(s: string, part: string) {
    exists i :: 0 <= i <= |s| && StartsAt(s, part, i)
  }

  predicate StartsAt(s: string, part: string, i: nat) {
    i + |part| <= |s| && s[i..i + |part|] == part
  }

  predicate Orphan(a: AzureAddress, known: seq<string>, shoot: string) {
    Contains(a.name, shoot) && (a.ipAddress.None? || a.ipAddress.value !in known)
  }

  predicate Known(a: AzureAddress, known: seq<string>, shoot: string) {
    Contains(a.name, shoot) && a.ipAddress.Some? && a.ipAddress.value in known
  }

  function NotOrphan(known: seq<string>, shoot: string): AzureAddress -> bool {
    a => !Orphan(a, known, shoot)
  }

  function NotKnown(known: seq<string>, shoot: string): AzureAddress -> bool {
    a => !Known(a, known, shoot)
  }

  function Orphans(addresses: seq<AzureAddress>, known: seq<string>, shoot: string): (orphans: seq<AzureAddress>)
    ensures forall a :: a in orphans <==> a in addresses && Orphan(a, known, shoot)
  {
    KeepMembers(addresses, NotOrphan(known, shoot));
    Keep(addresses, NotOrphan(known, shoot))
  }

  function IDs(addresses: seq<AzureAddress>): seq<string> {
    seq(|addresses|, i requires 0 <= i < |addresses| => addresses[i].id)
  }

  function NamesOf(addresses: seq<AzureAddress>): seq<string> {
    seq(|addresses|, i requires 0 <= i < |addresses| => addresses[i].name)
  }

  method GetKnownK8sIps(services: seq<Service>) returns (ips: seq<string>)
    ensures ips == KnownIPs(services)
  {
    ips := [];
    for i := 0 to |services|
      invariant ips == KnownIPs(services[..i])
    {
      assert services[..i + 1][..i] == services[..i];
      var svc := services[i];
      if svc.isLoadBalancer {
        ghost var before := ips;
        for j := 0 to |svc.ingress|
          invariant ips == before + svc.ingress[..j]
        {
          ips := ips + [svc.ingress[j]];
        }
        assert svc.ingress[..|svc.ingress|] == svc.ingress;
      }
    }
    assert services[..|services|] == services;
  }

  method SeparateOrphanAndKnownIps(k8sIps: seq<string>, azIps: seq<AzureAddress>, shoot: string)
    returns (orphanIps: seq<AzureAddress>, knownIps: seq<AzureAddress>)
    ensures orphanIps == Orphans(azIps, k8sIps, shoot)
    ensures knownIps == Keep(azIps, NotKnown(k8sIps, shoot))
  {
    orphanIps, knownIps := [], [];
    for i := 0 to |azIps|
      invariant orphanIps == Orphans(azIps[..i], k8sIps, shoot)
      invariant knownIps == Keep(azIps[..i], NotKnown(k8sIps, shoot))
    {
      assert azIps[..i + 1][..i] == azIps[..i];
      var azip := azIps[i];
      if !Contains(azip.name, shoot) {
        continue;
      }
      if azip.ipAddress.None? {
        orphanIps := orphanIps + [azip];
        continue;
      }
      var found := false;
      for j := 0 to |k8sIps|
        invariant !found && azip.ipAddress.value !in k8sIps[..j]
      {
        if azip.ipAddress.value == k8sIps[j] {
          found := true;
          break;
        }
      }
      if found {
        knownIps := knownIps + [azip];
      } else {
        assert k8sIps[..|k8sIps|] == k8sIps;
        orphanIps := orphanIps + [azip];
      }
    }
    assert azIps[..|azIps|] == azIps;
  }

  /** The cloud after deleting addresses in order, as long as Azure confirms each deletion. */
  function DeleteAll(cloud: Cloud, names: seq<string>): Cloud {
    cloud.(addresses := cloud.addresses - set name | name in names)
  }

  method CollectIDs(addresses: seq<AzureAddress>) returns (ids: seq<string>)
    ensures ids == IDs(addresses)
  {
    ids := [];
    for i := 0 to |addresses|
      invariant ids == IDs(addresses[..i])
    {
      ids := ids + [addresses[i].id];
    }
    assert addresses[..|addresses|] == addresses;
  }

  /** Deletions were requested in order, and all but the last were confirmed: all of them without an
      error, a proper run up to the failing one with an error. */
  ghost predicate DeletedInOrder(before: Cloud, names: seq<string>, deletion: nat -> DeleteAnswer,
                                 requested: seq<string>, failed: bool, after: Cloud)
  {
    && requested <= names
    && (forall k :: 0 <= k < |requested| - 1 ==> DeleteError(deletion(k)).None?)
    && (!failed ==> requested == names && after == DeleteAll(before, names))
    && (failed ==>
      && requested != []
      && var last := |requested| - 1;
      && DeleteError(deletion(last)).Some?
      && after == Deleted(DeleteAll(before, requested[..last]), requested[last], deletion(last)))
  }

  /** One pass of the remedy. `requested` are the names whose deletion was requested, in order. */
  method Clean(utils: PublicIPAddressUtils, services: Result<seq<Service>, string>, listing: Listing, shoot: string,
               removal: BalancerAnswer, deletion: nat -> DeleteAnswer)
    returns (error: Option<string>, requested: seq<string>)
    modifies utils
    ensures services.Success? && AllAddresses(listing).Success? && removal.Updated? ==>
      var orphans := Orphans(AllAddresses(listing).value, KnownIPs(services.value), shoot);
      DeletedInOrder(RemovedFromBalancer(old(utils.cloud), IDs(orphans), removal), NamesOf(orphans), deletion,
                     requested, error.Some?, utils.cloud)
    ensures !(services.Success? && AllAddresses(listing).Success? && removal.Updated?) ==>
      error.Some? && requested == [] && utils.cloud.addresses == old(utils.cloud).addresses
  {
    requested := [];
    if services.Failure? {
      return Some(services.error), [];
    }
    var k8sIps := GetKnownK8sIps(services.value);
    var azureIps := utils.GetAll(listing);
    if azureIps.Failure? {
      return Some(Wrap("could not get Azure public IPs", azureIps.error)), [];
    }
    var orphanIps, knownIps := SeparateOrphanAndKnownIps(k8sIps, azureIps.value, shoot);
    error, requested := CleanOrphans(utils, orphanIps, removal, deletion);
  }

  /** The part of a pass that changes Azure. */
  method CleanOrphans(utils: PublicIPAddressUtils, orphanIps: seq<AzureAddress>, removal: BalancerAnswer, deletion: nat -> DeleteAnswer)
    returns (error: Option<string>, requested: seq<string>)
    modifies utils
    ensures removal.Updated? ==>
      DeletedInOrder(RemovedFromBalancer(old(utils.cloud), IDs(orphanIps), removal), NamesOf(orphanIps), deletion,
                     requested, error.Some?, utils.cloud)
    ensures !removal.Updated? ==> error.Some? && requested == [] && utils.cloud.addresses == old(utils.cloud).addresses
  {
    var orphanIpIds := CollectIDs(orphanIps);
    var failure := utils.RemoveFromLoadBalancer(orphanIpIds, removal);
    if failure.Some? {
      return Some(Wrap("could not remove orphan public IPs from the load balancer", failure.value)), [];
    }
    error, requested := DeleteOrphans(utils, orphanIps, deletion);
  }

  method DeleteOrphans(utils: PublicIPAddressUtils, orphanIps: seq<AzureAddress>, deletion: nat -> DeleteAnswer)
    returns (error: Option<string>, requested: seq<string>)
    modifies utils
    ensures DeletedInOrder(old(utils.cloud), NamesOf(orphanIps), deletion, requested, error.Some?, utils.cloud)
  {
    requested := [];
    ghost var names := NamesOf(orphanIps);
    for i := 0 to |orphanIps|
      invariant requested == names[..i]
      invariant forall k :: 0 <= k < i ==> DeleteError(deletion(k)).None?
      invariant utils.cloud == DeleteAll(old(utils.cloud), requested)
    {
      ghost var before := requested;
      requested := requested + [orphanIps[i].name];
      assert requested[..i] == before;
      var failure := utils.Delete(orphanIps[i].name, deletion(i));
      if failure.Some? {
        return Some(Wrap("could not delete orphan public IP", failure.value)), requested;
      }
      DeleteOneMore(old(utils.cloud), before, orphanIps[i].name);
    }
    error := None;
  }

  lemma DeleteOneMore(cloud: Cloud, names: seq<string>, name: string)
    ensures DeleteAll(cloud, names + [name]) ==
      DeleteAll(cloud, names).(addresses := DeleteAll(cloud, names).addresses - {name})
  {
  }

  // ----- What a pass guarantees -----

  lemma ContainsParts(s: string, part: string) returns (left: string, right: string)
    requires Contains(s, part)
    ensures s == left + part + right
  {
    var i :| 0 <= i <= |s| && StartsAt(s, part, i);
    left, right := s[..i], s[i + |part|..];
  }

  /** What a pass takes for an orphan: an address whose name contains that of the shoot, without an IP, or
      with one that no LoadBalancer service lists. */
  lemma OrphanIff(a: AzureAddress, services: seq<Service>, shoot: string)
    ensures Orphan(a, KnownIPs(services), shoot) <==>
      && (exists left, right: string :: a.name == left + shoot + right)
      && (a.ipAddress.Some? ==> forall svc :: svc in services && svc.isLoadBalancer ==> a.ipAddress.value !in svc.ingress)
  {
    if Contains(a.name, shoot) {
      var left, right := ContainsParts(a.name, shoot);
    }
    if left, right: string :| a.name == left + shoot + right {
      assert StartsAt(a.name, shoot, |left|);
    }
  }

  /** Orphan and known addresses partition the addresses of the shoot. */
  lemma {:induction false} Partition(addresses: seq<AzureAddress>, known: seq<string>, shoot: string, foreign: AzureAddress -> bool)
    requires forall a :: foreign(a) <==> !Contains(a.name, shoot)
    ensures multiset(Orphans(addresses, known, shoot)) + multiset(Keep(addresses, NotKnown(known, shoot)))
      == multiset(Keep(addresses, foreign))
  {
    if addresses != [] {
      var before, last := addresses[..|addresses| - 1], addresses[|addresses| - 1];
      assert before + [last] == addresses;
      Partition(before, known, shoot, foreign);
      KeepSnocCount(before, last, NotOrphan(known, shoot));
      KeepSnocCount(before, last, NotKnown(known, shoot));
      KeepSnocCount(before, last, foreign);
      assert !foreign(last) <==> !NotOrphan(known, shoot)(last) || !NotKnown(known, shoot)(last);
      assert NotOrphan(known, shoot)(last) || NotKnown(known, shoot)(last);
    }
  }

  lemma KeepSnocCount(s: seq<AzureAddress>, x: AzureAddress, gone: AzureAddress -> bool)
    ensures multiset(Keep(s + [x], gone)) == multiset(Keep(s, gone)) + if gone(x) then multiset{} else multiset{x}
  {
  }

  /** Whatever a pass requests, and whatever Azure then does with the last request, an address of the
      snapshot survives if a LoadBalancer service lists its IP or if it belongs to another shoot. */
  lemma KnownAndForeignSurvive(addresses: seq<AzureAddress>, services: seq<Service>, shoot: string, a: AzureAddress,
                               before: Cloud, deletion: nat -> DeleteAnswer, requested: seq<string>, failed: bool,
                               after: Cloud)
    requires DeletedInOrder(before, NamesOf(Orphans(addresses, KnownIPs(services), shoot)), deletion,
                            requested, failed, after)
    requires a in addresses
    requires forall b :: b in addresses && b.name == a.name ==> b == a
    requires (forall before, after: string :: a.name != before + shoot + after)
      || (a.ipAddress.Some? && exists svc :: svc in services && svc.isLoadBalancer && a.ipAddress.value in svc.ingress)
    ensures a.name !in requested
    ensures a.name in before.addresses ==>
      a.name in after.addresses && after.addresses[a.name] == before.addresses[a.name]
  {
    var orphans := Orphans(addresses, KnownIPs(services), shoot);
    if Contains(a.name, shoot) {
      var left, right := ContainsParts(a.name, shoot);
    }
    forall i | 0 <= i < |requested|
      ensures requested[i] != a.name
    {
      assert requested[i] == NamesOf(orphans)[i] == orphans[i].name;
      assert orphans[i] in orphans;
    }
  }

  /** The names that disappear are a prefix of the orphans: all of them without an error. */
  lemma GoneIsPrefix(before: Cloud, names: seq<string>, deletion: nat -> DeleteAnswer, requested: seq<string>,
                     failed: bool, after: Cloud)
    returns (n: nat)
    requires DeletedInOrder(before, names, deletion, requested, failed, after)
    ensures n <= |requested| <= |names|
    ensures after == DeleteAll(before, names[..n])
    ensures n == if failed then |requested| - (if after == DeleteAll(before, requested) then 0 else 1) else |names|
  {
    if !failed {
      assert names[..|names|] == names;
      n := |names|;
    } else {
      var last := |requested| - 1;
      assert requested == requested[..last] + [requested[last]];
      DeleteOneMore(before, requested[..last], requested[last]);
      n := if after == DeleteAll(before, requested) then |requested| else last;
      assert names[..n] == requested[..n];
      assert requested[..|requested|] == requested;
    }
  }

  /** After a pass without an error every orphan of the snapshot has been requested and is gone; after any
      pass an orphan that is still there was requested last or not at all. */
  lemma OrphansGone(addresses: seq<AzureAddress>, services: seq<Service>, left: string, shoot: string, right: string,
                    a: AzureAddress, before: Cloud,
                    deletion: nat -> DeleteAnswer, requested: seq<string>, failed: bool, after: Cloud)
    requires DeletedInOrder(before, NamesOf(Orphans(addresses, KnownIPs(services), shoot)), deletion, requested, failed, after)
    requires a in addresses && a.name == left + shoot + right
    requires a.ipAddress.Some? ==>
      forall svc :: svc in services && svc.isLoadBalancer ==> a.ipAddress.value !in svc.ingress
    ensures !failed ==> a.name in requested && a.name !in after.addresses
    ensures a.name in after.addresses ==> failed && a.name !in requested[..|requested| - 1]
  {
    assert StartsAt(a.name, shoot, |left|);
    var orphans := Orphans(addresses, KnownIPs(services), shoot);
    assert Orphan(a, KnownIPs(services), shoot);
    var i :| 0 <= i < |orphans| && orphans[i] == a;
    assert NamesOf(orphans)[i] == a.name;
  }

  /** When an orphan is deleted, no frontend with an ID uses it any more. */
  lemma OrphansDetached(cloud: Cloud, orphans: seq<AzureAddress>, a: AzureAddress, fc: Frontend)
    requires a in orphans && cloud.balancer.frontends.Some?
    requires fc in RemovedFromBalancer(cloud, IDs(orphans), Updated).balancer.frontends.value
    ensures fc in cloud.balancer.frontends.value
    ensures fc.id.Some? ==> fc.publicIP != Some(a.id)
  {
    var i :| 0 <= i < |orphans| && orphans[i] == a;
    assert IDs(orphans)[i] == a.id;
    NoFrontendUsesRemoved(cloud.balancer, IDs(orphans), fc);
  }
}
