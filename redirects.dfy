/** Http.followRedirects: while the response is a redirect, following is
    enabled and fewer than maxRedirects hops were made, re-issue the same call
    against the Location header. */
module Redirects {
  import opened HttpTypes

  /** One call made to the transport: the URL and the header it was given. */
  datatype Hop = Hop(url: string, header: HttpHeader)

  function Max0(n: int): nat
  {
    if n < 0 then 0 else n
  }

  /** The response the redirect loop ends with and the hops it makes, starting
      from `response` after `retryCount` hops. A hop whose call throws ends the
      loop with that throwable. */
  function Followed(httpCall: HttpCall, header: HttpHeader, follow: bool, maxRedirects: int,
                    response: HttpResponse, retryCount: nat): (Completion<HttpResponse>, seq<Hop>)
    decreases maxRedirects - retryCount
  {
    if response.isRedirect && follow && retryCount < maxRedirects then
      var hop := Hop(response.locationHeader, header);
      match httpCall(hop.url, hop.header)
      case Abrupt(e) => (Abrupt(e), [hop])
      case Normal(next) =>
        var rest := Followed(httpCall, header, follow, maxRedirects, next, retryCount + 1);
        (rest.0, [hop] + rest.1)
    else
      (Normal(response), [])
  }

  method FollowRedirects(httpCall: HttpCall, fullRequestHeader: HttpHeader,
                         shouldFollowRedirects: bool, maxRedirects: int, response: HttpResponse)
    returns (fetched: Completion<HttpResponse>, hops: seq<Hop>)
    ensures var spec := Followed(httpCall, fullRequestHeader, shouldFollowRedirects, maxRedirects, response, 0);
            fetched == spec.0 && hops == spec.1
    ensures !response.isRedirect || !shouldFollowRedirects ==> fetched == Normal(response) && hops == []
    ensures |hops| <= Max0(maxRedirects)
  {
    var current := response;
    var retryCount: nat := 0;
    hops := [];
    // The source post-increments retryCount in the guard; the extra increment
    // on the failing test is never read again.
    while current.isRedirect && shouldFollowRedirects && retryCount < maxRedirects
      invariant |hops| == retryCount <= Max0(maxRedirects)
      invariant !response.isRedirect || !shouldFollowRedirects ==> current == response && hops == []
      invariant var whole := Followed(httpCall, fullRequestHeader, shouldFollowRedirects, maxRedirects, response, 0);
                var rest := Followed(httpCall, fullRequestHeader, shouldFollowRedirects, maxRedirects, current, retryCount);
                whole.0 == rest.0 && whole.1 == hops + rest.1
      decreases maxRedirects - retryCount
    {
      var hop := Hop(current.locationHeader, fullRequestHeader);
      var next := httpCall(hop.url, hop.header);
      hops := hops + [hop];
      retryCount := retryCount + 1;
      if next.Abrupt? {
        fetched := next;
        return;
      }
      current := next.value;
    }
    fetched := Normal(current);
  }

  /** The loop never makes more than maxRedirects hops. */
  lemma {:induction false} HopsBounded(httpCall: HttpCall, header: HttpHeader, follow: bool, maxRedirects: int,
                                       response: HttpResponse, retryCount: nat)
    ensures |Followed(httpCall, header, follow, maxRedirects, response, retryCount).1| <= Max0(maxRedirects - retryCount)
    decreases maxRedirects - retryCount
  {
    if response.isRedirect && follow && retryCount < maxRedirects {
      var next := httpCall(response.locationHeader, header);
      if next.Normal? {
        HopsBounded(httpCall, header, follow, maxRedirects, next.value, retryCount + 1);
      }
    }
  }

  /** When every call answers with another redirect and following is enabled,
      exactly max(maxRedirects, 0) hops happen and the last fetched response is
      returned, with no error. */
  lemma {:induction false} EndlessRedirectsStopAtMax(httpCall: HttpCall, header: HttpHeader, maxRedirects: int,
                                                     response: HttpResponse, retryCount: nat)
    requires forall url, h :: httpCall(url, h).Normal? && httpCall(url, h).value.isRedirect
    requires response.isRedirect
    ensures var (fetched, hops) := Followed(httpCall, header, true, maxRedirects, response, retryCount);
            && |hops| == Max0(maxRedirects - retryCount)
            && fetched.Normal? && fetched.value.isRedirect
            && (hops != [] ==> fetched == httpCall(hops[|hops| - 1].url, header))
    decreases maxRedirects - retryCount
  {
    if retryCount < maxRedirects {
      var next := httpCall(response.locationHeader, header);
      EndlessRedirectsStopAtMax(httpCall, header, maxRedirects, next.value, retryCount + 1);
    }
  }

  /** Every hop calls the transport with the same header, against the Location
      header of the response it replaces; a loop that ends normally hands on
      the answer of its last hop. */
  lemma {:induction false} HopTargets(httpCall: HttpCall, header: HttpHeader, follow: bool, maxRedirects: int,
                                      response: HttpResponse, retryCount: nat)
    ensures var (fetched, hops) := Followed(httpCall, header, follow, maxRedirects, response, retryCount);
            && (forall k :: 0 <= k < |hops| ==> hops[k].header == header)
            && (hops != [] ==> hops[0].url == response.locationHeader)
            && (forall k :: 0 <= k < |hops| - 1 ==>
                  httpCall(hops[k].url, header).Normal? &&
                  httpCall(hops[k].url, header).value.isRedirect &&
                  hops[k + 1].url == httpCall(hops[k].url, header).value.locationHeader)
            && (hops != [] ==> fetched == httpCall(hops[|hops| - 1].url, header))
    decreases maxRedirects - retryCount
  {
    if response.isRedirect && follow && retryCount < maxRedirects {
      var next := httpCall(response.locationHeader, header);
      if next.Normal? {
        HopTargets(httpCall, header, follow, maxRedirects, next.value, retryCount + 1);
      }
    }
  }

  /** A loop that ends normally stops for one of its three reasons: the
      response is not a redirect, following is off, or the hop budget is
      spent. */
  lemma {:induction false} StopReason(httpCall: HttpCall, header: HttpHeader, follow: bool, maxRedirects: int,
                                      response: HttpResponse, retryCount: nat)
    ensures var (fetched, hops) := Followed(httpCall, header, follow, maxRedirects, response, retryCount);
            fetched.Normal? ==>
              !fetched.value.isRedirect || !follow || retryCount + |hops| >= maxRedirects
    decreases maxRedirects - retryCount
  {
    if response.isRedirect && follow && retryCount < maxRedirects {
      var next := httpCall(response.locationHeader, header);
      if next.Normal? {
        StopReason(httpCall, header, follow, maxRedirects, next.value, retryCount + 1);
      }
    }
  }
}
