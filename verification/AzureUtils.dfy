/**
 Azure public IP address utilities: paged lookups with request counting, removal of addresses from
 the load balancer, and deletion. What Azure answers to each request is an input.
 */
module AzureUtils {
  import opened Wrappers
  import opened LoadBalancers

  datatype AzureAddress = AzureAddress(
    id: string,
    name: string,
    ipAddress: Option<string>,
    tags: map<string, string>,
    provisioningState: Option<string>)

  /** A paged list of addresses. Request 0 starts the list, request k advances to page k; the request
      after the last page ends the list. `failure` is the number and the error of a failing request. */
  datatype Listing = Listing(pages: seq<seq<AzureAddress>>, failure: Option<(nat, string)>)

  function Wrap(context: string, error: string): string {
    context + ": " + error
  }

  predicate HasIP(a: AzureAddress, ip: string) {
    a.ipAddress == Some(ip)
  }

  function Flatten(pages: seq<seq<AzureAddress>>): seq<AzureAddress> {
    if pages == [] then [] else Flatten(pages[..|pages| - 1]) + pages[|pages| - 1]
  }

  /** The first address with the given IP. */
  function FirstMatch(addresses: seq<AzureAddress>, ip: string): (r: Option<AzureAddress>)
    ensures r.Some? ==> r.value in addresses && HasIP(r.value, ip)
    ensures r.None? <==> forall a :: a in addresses ==> !HasIP(a, ip)
  {
    if addresses == [] then None
    else if HasIP(addresses[0], ip) then Some(addresses[0])
    else FirstMatch(addresses[1..], ip)
  }

  /** The number of pages fetched before the list ends or fails. */
  function Fetched(listing: Listing): (n: nat)
    ensures n <= |listing.pages|
  {
    if Fails(listing) && listing.failure.value.0 < |listing.pages| then listing.failure.value.0
    else |listing.pages|
  }

  predicate Fails(listing: Listing) {
    listing.failure.Some? && listing.failure.value.0 <= |listing.pages|
  }

  /** What listing everything yields. */
  function AllAddresses(listing: Listing): Result<seq<AzureAddress>, string> {
    if Fails(listing) then Failure(ListError(listing)) else Success(Flatten(listing.pages))
  }

  /** What searching by IP yields: a match on a fetched page wins over a later failure. */
  function AddressByIP(listing: Listing, ip: string): Result<Option<AzureAddress>, string> {
    var found := FirstMatch(Flatten(listing.pages[..Fetched(listing)]), ip);
    if found.None? && Fails(listing) then Failure(ListError(listing)) else Success(found)
  }

  function ListError(listing: Listing): string
    requires Fails(listing)
  {
    Wrap(if listing.failure.value.0 == 0 then "could not list Azure PublicIPAddresses"
         else "could not advance to the next page of Azure PublicIPAddresses",
         listing.failure.value.1)
  }

  /** The state of the cloud that the utilities change. */
  datatype Cloud = Cloud(addresses: map<string, AzureAddress>, balancer: Balancer)

  /** What Azure answers to the requests of one load-balancer update, and whether it took effect. */
  datatype BalancerAnswer =
    | GetRejected(error: string)
    | UpdateRejected(error: string)
    | WaitFailed(error: string, applied: bool)
    | Updated

  datatype DeleteAnswer =
    | DeleteRejected(error: string)
    | NotFound
    | DeleteWaitFailed(error: string, applied: bool)
    | DeleteCompleted

  function BalancerError(answer: BalancerAnswer): Option<string> {
    match answer
    case GetRejected(e) => Some(Wrap("could not get Azure LoadBalancer", e))
    case UpdateRejected(e) => Some(Wrap("could not update Azure LoadBalancer", e))
    case WaitFailed(e, _) => Some(Wrap("could not wait for the Azure LoadBalancer update to complete", e))
    case Updated => None
  }

  function DeleteError(answer: DeleteAnswer): Option<string> {
    match answer
    case DeleteRejected(e) => Some(Wrap("could not delete Azure PublicIPAddress", e))
    case NotFound => None
    case DeleteWaitFailed(e, _) => Some(Wrap("could not wait for the Azure PublicIPAddress deletion to complete", e))
    case DeleteCompleted => None
  }

  function RemovedFromBalancer(cloud: Cloud, ids: seq<string>, answer: BalancerAnswer): Cloud {
    if answer.Updated? || (answer.WaitFailed? && answer.applied)
    then cloud.(balancer := Remove(cloud.balancer, ids))
    else cloud
  }

  /** A 404 says that no address has that name, so the name is absent afterwards as well. */
  function Deleted(cloud: Cloud, name: string, answer: DeleteAnswer): Cloud {
    if answer.DeleteCompleted? || answer.NotFound? || (answer.DeleteWaitFailed? && answer.applied)
    then cloud.(addresses := cloud.addresses - {name})
    else cloud
  }

  class PublicIPAddressUtils {
    var cloud: Cloud
    var readRequests: nat
    var writeRequests: nat

    constructor (cloud: Cloud)
      ensures this.cloud == cloud && readRequests == writeRequests == 0
    {
      this.cloud := cloud;
      readRequests, writeRequests := 0, 0;
    }

    /** Match on page k: k reads. No match: one read per fetched page and one for the end or the failure. */
    method GetByIP(ip: string, listing: Listing) returns (r: Result<Option<AzureAddress>, string>)
      modifies this`readRequests
      ensures r == AddressByIP(listing, ip)
      ensures r.Success? && r.value.Some? ==>
        exists k :: 0 <= k < Fetched(listing) && r.value == FirstMatch(listing.pages[k], ip)
          && FirstMatch(Flatten(listing.pages[..k]), ip).None? && readRequests == old(readRequests) + k + 1
      ensures !(r.Success? && r.value.Some?) ==> readRequests == old(readRequests) + Fetched(listing) + 1
    {
      readRequests := readRequests + 1;
      if listing.failure.Some? && listing.failure.value.0 == 0 {
        assert listing.pages[..0] == [];
        return Failure(Wrap("could not list Azure PublicIPAddresses", listing.failure.value.1));
      }
      var k := 0;
      while k < |listing.pages|
        invariant 0 <= k <= Fetched(listing)
        invariant readRequests == old(readRequests) + k + 1
        invariant FirstMatch(Flatten(listing.pages[..k]), ip).None?
        invariant Fails(listing) ==> k < listing.failure.value.0
        decreases |listing.pages| - k
      {
        assert listing.pages[..k + 1][..k] == listing.pages[..k];
        var page := listing.pages[k];
        for i := 0 to |page|
          invariant readRequests == old(readRequests) + k + 1
          invariant forall j :: 0 <= j < i ==> !HasIP(page[j], ip)
        {
          if page[i].ipAddress.Some? && page[i].ipAddress.value == ip {
            FirstMatchAt(page, ip, i);
            MatchOnPage(listing.pages, k, Fetched(listing), ip);
            return Success(Some(page[i]));
          }
        }
        MatchConcat(Flatten(listing.pages[..k]), page, ip);
        k := k + 1;
        readRequests := readRequests + 1;
        if listing.failure.Some? && listing.failure.value.0 == k {
          return Failure(Wrap("could not advance to the next page of Azure PublicIPAddresses", listing.failure.value.1));
        }
      }
      r := Success(None);
    }

    method GetAll(listing: Listing) returns (r: Result<seq<AzureAddress>, string>)
      modifies this`readRequests
      ensures r == AllAddresses(listing)
      ensures readRequests == old(readRequests) + Fetched(listing) + 1
    {
      readRequests := readRequests + 1;
      if listing.failure.Some? && listing.failure.value.0 == 0 {
        return Failure(Wrap("could not list Azure PublicIPAddresses", listing.failure.value.1));
      }
      var all := [];
      var k := 0;
      while k < |listing.pages|
        invariant 0 <= k <= Fetched(listing)
        invariant readRequests == old(readRequests) + k + 1
        invariant all == Flatten(listing.pages[..k])
        invariant Fails(listing) ==> k < listing.failure.value.0
        decreases |listing.pages| - k
      {
        assert listing.pages[..k + 1][..k] == listing.pages[..k];
        all := all + listing.pages[k];
        k := k + 1;
        readRequests := readRequests + 1;
        if listing.failure.Some? && listing.failure.value.0 == k {
          return Failure(Wrap("could not advance to the next page of Azure PublicIPAddresses", listing.failure.value.1));
        }
      }
      assert listing.pages[..k] == listing.pages;
      r := Success(all);
    }

    method RemoveFromLoadBalancer(ids: seq<string>, answer: BalancerAnswer) returns (error: Option<string>)
      modifies this
      ensures cloud == RemovedFromBalancer(old(cloud), ids, answer)
      ensures error == BalancerError(answer)
      ensures writeRequests == old(writeRequests) + if answer.GetRejected? then 0 else 1
      ensures readRequests == old(readRequests) + if answer.GetRejected? || answer.UpdateRejected? then 1 else 2
    {
      readRequests := readRequests + 1;
      if answer.GetRejected? {
        return Some(Wrap("could not get Azure LoadBalancer", answer.error));
      }
      var lb := new LoadBalancer(cloud.balancer);
      lb.RemovePublicIPs(ids);
      writeRequests := writeRequests + 1;
      if answer.UpdateRejected? {
        return Some(Wrap("could not update Azure LoadBalancer", answer.error));
      }
      if answer.Updated? || answer.applied {
        cloud := cloud.(balancer := Balancer(lb.frontends, lb.rules, lb.probes));
      }
      readRequests := readRequests + 1;
      if answer.WaitFailed? {
        return Some(Wrap("could not wait for the Azure LoadBalancer update to complete", answer.error));
      }
      error := None;
    }

    method Delete(name: string, answer: DeleteAnswer) returns (error: Option<string>)
      modifies this
      ensures cloud == Deleted(old(cloud), name, answer)
      ensures error == DeleteError(answer)
      ensures writeRequests == old(writeRequests) + 1
      ensures readRequests == old(readRequests) + if answer.DeleteCompleted? || answer.DeleteWaitFailed? then 1 else 0
    {
      writeRequests := writeRequests + 1;
      if answer.DeleteRejected? {
        return Some(Wrap("could not delete Azure PublicIPAddress", answer.error));
      }
      if answer.NotFound? || answer.DeleteCompleted? || answer.applied {
        cloud := cloud.(addresses := cloud.addresses - {name});
      }
      if answer.NotFound? {
        return None;
      }
      readRequests := readRequests + 1;
      if answer.DeleteWaitFailed? {
        return Some(Wrap("could not wait for the Azure PublicIPAddress deletion to complete", answer.error));
      }
      error := None;
    }
  }

  lemma {:induction false} FirstMatchAt(page: seq<AzureAddress>, ip: string, i: nat)
    requires i < |page| && HasIP(page[i], ip)
    requires forall j :: 0 <= j < i ==> !HasIP(page[j], ip)
    ensures FirstMatch(page, ip) == Some(page[i])
  {
    if i > 0 {
      FirstMatchAt(page[1..], ip, i - 1);
    }
  }

  lemma {:induction false} MatchConcat(s: seq<AzureAddress>, t: seq<AzureAddress>, ip: string)
    ensures FirstMatch(s + t, ip) == if FirstMatch(s, ip).Some? then FirstMatch(s, ip) else FirstMatch(t, ip)
  {
    if s == [] {
      assert s + t == t;
    } else {
      MatchConcat(s[1..], t, ip);
      assert (s + t)[1..] == s[1..] + t;
    }
  }

  /** One more page is searched only if there is no match before it. */
  lemma OneMorePage(pages: seq<seq<AzureAddress>>, n: nat, ip: string)
    requires n < |pages|
    ensures FirstMatch(Flatten(pages[..n + 1]), ip) ==
      if FirstMatch(Flatten(pages[..n]), ip).Some? then FirstMatch(Flatten(pages[..n]), ip) else FirstMatch(pages[n], ip)
  {
    assert pages[..n + 1][..n] == pages[..n];
    MatchConcat(Flatten(pages[..n]), pages[n], ip);
  }

  /** The first match of page k decides the search of every longer prefix of the pages. */
  lemma {:induction false} MatchOnPage(pages: seq<seq<AzureAddress>>, k: nat, n: nat, ip: string)
    requires k < n <= |pages|
    requires FirstMatch(Flatten(pages[..k]), ip).None? && FirstMatch(pages[k], ip).Some?
    ensures FirstMatch(Flatten(pages[..n]), ip) == FirstMatch(pages[k], ip)
  {
    if k < n - 1 {
      MatchOnPage(pages, k, n - 1, ip);
    }
    OneMorePage(pages, n - 1, ip);
  }

  /** Searching by IP refines searching the whole list: they agree whenever the whole list can be
      fetched; not finding an address means the whole list can be fetched and has no match; and the
      search fails exactly if the list fails and no page before the failure has a match. */
  lemma SearchRefinesList(listing: Listing, ip: string)
    ensures AllAddresses(listing).Success? ==>
      AddressByIP(listing, ip) == Success(FirstMatch(AllAddresses(listing).value, ip))
    ensures AddressByIP(listing, ip) == Success(None) ==>
      AllAddresses(listing).Success? && forall a :: a in AllAddresses(listing).value ==> !HasIP(a, ip)
    ensures AddressByIP(listing, ip).Failure? <==>
      Fails(listing) && forall k :: 0 <= k < Fetched(listing) ==> FirstMatch(listing.pages[k], ip).None?
  {
    assert listing.pages[..|listing.pages|] == listing.pages;
    NoMatchIff(listing.pages, Fetched(listing), ip);
  }

  lemma {:induction false} NoMatchIff(pages: seq<seq<AzureAddress>>, n: nat, ip: string)
    requires n <= |pages|
    ensures FirstMatch(Flatten(pages[..n]), ip).None? <==>
      forall k :: 0 <= k < n ==> FirstMatch(pages[k], ip).None?
  {
    if n > 0 {
      NoMatchIff(pages, n - 1, ip);
      OneMorePage(pages, n - 1, ip);
    }
  }

  // ----- Listings and answers in plain terms -----

  /** The number of addresses on the first n pages. */
  function Total(pages: seq<seq<AzureAddress>>, n: nat): nat
    requires n <= |pages|
  {
    if n == 0 then 0 else Total(pages, n - 1) + |pages[n - 1]|
  }

  /** A whole list has every address of every page, with or without an IP, in its place, and no others. */
  lemma {:induction false} ListedInOrder(pages: seq<seq<AzureAddress>>, k: nat, i: nat)
    requires k < |pages| && i < |pages[k]|
    ensures |Flatten(pages)| == Total(pages, |pages|)
    ensures Total(pages, k) + i < |Flatten(pages)| && Flatten(pages)[Total(pages, k) + i] == pages[k][i]
  {
    var n := |pages| - 1;
    ListedLength(pages);
    ListedLength(pages[..n]);
    TotalOfPrefix(pages, n, n);
    if k < n {
      ListedInOrder(pages[..n], k, i);
      TotalOfPrefix(pages, n, k);
    }
  }

  lemma {:induction false} ListedLength(pages: seq<seq<AzureAddress>>)
    ensures |Flatten(pages)| == Total(pages, |pages|)
  {
    if pages != [] {
      ListedLength(pages[..|pages| - 1]);
      TotalOfPrefix(pages, |pages| - 1, |pages| - 1);
    }
  }

  lemma {:induction false} TotalOfPrefix(pages: seq<seq<AzureAddress>>, n: nat, k: nat)
    requires k <= n <= |pages|
    ensures Total(pages[..n], k) == Total(pages, k)
  {
    if k > 0 {
      TotalOfPrefix(pages, n, k - 1);
    }
  }

  /** The i-th address of page k, which is read before any request fails, has the IP. */
  predicate Matches(listing: Listing, ip: string, k: nat, i: nat) {
    && k < |listing.pages| && i < |listing.pages[k]|
    && (listing.failure.Some? ==> k < listing.failure.value.0)
    && listing.pages[k][i].ipAddress == Some(ip)
  }

  /** Searching by IP yields the first match in the order of the pages; only without a match it yields the
      error of the request that fails, or none if there is no such request. */
  lemma SearchFindsFirst(listing: Listing, ip: string) returns (k: nat, i: nat)
    ensures var found := AddressByIP(listing, ip);
      if found.Success? && found.value.Some? then
        && Matches(listing, ip, k, i) && found.value.value == listing.pages[k][i]
        && forall k', i' :: Matches(listing, ip, k', i') ==> k < k' || (k == k' && i <= i')
      else
        && (forall k', i' :: !Matches(listing, ip, k', i'))
        && (found.Failure? <==> listing.failure.Some? && listing.failure.value.0 <= |listing.pages|)
        && (found.Failure? ==>
              found.error == (if listing.failure.value.0 == 0 then "could not list Azure PublicIPAddresses"
                              else "could not advance to the next page of Azure PublicIPAddresses")
                + ": " + listing.failure.value.1)
  {
    k, i := FirstOnPages(listing.pages, Fetched(listing), ip);
  }

  lemma {:induction false} FirstOnPage(page: seq<AzureAddress>, ip: string) returns (i: nat)
    ensures FirstMatch(page, ip).Some? ==> i < |page| && FirstMatch(page, ip) == Some(page[i]) && page[i].ipAddress == Some(ip)
    ensures FirstMatch(page, ip).Some? ==> forall j :: 0 <= j < i ==> page[j].ipAddress != Some(ip)
    ensures FirstMatch(page, ip).None? ==> forall j :: 0 <= j < |page| ==> page[j].ipAddress != Some(ip)
  {
    i := 0;
    if page != [] && page[0].ipAddress != Some(ip) {
      var rest := FirstOnPage(page[1..], ip);
      i := rest + 1;
      assert forall j :: 0 < j < |page| ==> page[j] == page[1..][j - 1];
    }
  }

  lemma {:induction false} FirstOnPages(pages: seq<seq<AzureAddress>>, n: nat, ip: string) returns (k: nat, i: nat)
    requires n <= |pages|
    ensures var found := FirstMatch(Flatten(pages[..n]), ip);
      if found.Some? then
        && k < n && i < |pages[k]| && found == Some(pages[k][i]) && pages[k][i].ipAddress == Some(ip)
        && forall k', i' :: 0 <= k' < n && 0 <= i' < |pages[k']| && pages[k'][i'].ipAddress == Some(ip) ==>
             k < k' || (k == k' && i <= i')
      else
        forall k', i' :: 0 <= k' < n && 0 <= i' < |pages[k']| ==> pages[k'][i'].ipAddress != Some(ip)
  {
    k, i := 0, 0;
    if n > 0 {
      OneMorePage(pages, n - 1, ip);
      k, i := FirstOnPages(pages, n - 1, ip);
      if FirstMatch(Flatten(pages[..n - 1]), ip).None? {
        k := n - 1;
        i := FirstOnPage(pages[n - 1], ip);
      }
    }
  }

  /** A removal from the balancer ends without an error exactly if Azure confirms the update, and then it has
      taken effect; it never has an effect on the addresses, nor any if its request is rejected. */
  lemma RemovalMeans(cloud: Cloud, ids: seq<string>, answer: BalancerAnswer)
    ensures BalancerError(answer).None? <==> answer.Updated?
    ensures RemovedFromBalancer(cloud, ids, answer).addresses == cloud.addresses
    ensures RemovedFromBalancer(cloud, ids, answer).balancer == match answer
      case Updated => Remove(cloud.balancer, ids)
      case WaitFailed(_, applied) => if applied then Remove(cloud.balancer, ids) else cloud.balancer
      case _ => cloud.balancer
  {
  }

  /** A deletion ends without an error exactly if Azure confirms it or has no such address; then the address
      is gone. No other address is touched, nor the balancer. */
  lemma DeletionMeans(cloud: Cloud, name: string, answer: DeleteAnswer)
    ensures DeleteError(answer).None? <==> answer.DeleteCompleted? || answer.NotFound?
    ensures DeleteError(answer).None? ==> name !in Deleted(cloud, name, answer).addresses
    ensures answer.DeleteRejected? || (answer.DeleteWaitFailed? && !answer.applied) ==> Deleted(cloud, name, answer) == cloud
    ensures answer.DeleteWaitFailed? && answer.applied ==> name !in Deleted(cloud, name, answer).addresses
    ensures Deleted(cloud, name, answer).balancer == cloud.balancer
    ensures forall other :: other != name ==>
      && (other in Deleted(cloud, name, answer).addresses <==> other in cloud.addresses)
      && (other in cloud.addresses ==> Deleted(cloud, name, answer).addresses[other] == cloud.addresses[other])
  {
  }
}
