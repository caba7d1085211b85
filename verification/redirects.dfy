/** The redirect chain of a URL, as `_get_redirect_chain` assembles it. */
module Redirects {
  import opened Wrappers
  import opened Evidence

  /** Python's `list(zip(xs, ys))`: pairs up to the shorter length. */
  function Zip<A, B>(xs: seq<A>, ys: seq<B>): (r: seq<(A, B)>)
    ensures |r| == if |xs| < |ys| then |xs| else |ys|
    ensures forall k :: 0 <= k < |r| ==> r[k] == (xs[k], ys[k])
    decreases |xs|
  {
    if |xs| == 0 || |ys| == 0 then [] else [(xs[0], ys[0])] + Zip(xs[1..], ys[1..])
  }

  /**
   * The chain a HEAD request yields: one (url, status) pair per redirect
   * response in order, then the pair of the final response; the sentinel
   * when the request failed.
   */
  function RedirectChain(head: Option<HeadResult>): (r: Field<seq<(string, int)>>)
    ensures head.None? <==> r == Non
    ensures r != Absent
    ensures head.Some? ==> var h := head.value;
      && |r.value| == |h.history| + 1
      && (forall k :: 0 <= k < |h.history| ==> r.value[k] == (h.history[k].url, h.history[k].statusCode))
      && r.value[|h.history|] == (h.final.url, h.final.statusCode)
  {
    match head
    case None => Non
    case Some(h) =>
      var last := |h.history|;
      var pairs := seq(last + 1, k requires 0 <= k <= last =>
                       var resp := if k < last then h.history[k] else h.final;
                       (resp.url, resp.statusCode));
      assert pairs[last] == (h.final.url, h.final.statusCode);
      Val(pairs)
  }

  /**
   * `_get_redirect_chain`, given the answer of its HEAD request: collects the
   * URLs and the status codes in two lists, appends the final response to
   * both and zips them.
   */
  method GetRedirectChain(head: Option<HeadResult>) returns (r: Field<seq<(string, int)>>)
    ensures r == RedirectChain(head)
  {
    if head.None? {
      return Non;
    }
    var response := head.value;
    var chain: seq<string> := [];
    var statuses: seq<int> := [];
    for k := 0 to |response.history|
      invariant |chain| == k && |statuses| == k
      invariant forall j :: 0 <= j < k ==> chain[j] == response.history[j].url
      invariant forall j :: 0 <= j < k ==> statuses[j] == response.history[j].statusCode
    {
      chain := chain + [response.history[k].url];
      statuses := statuses + [response.history[k].statusCode];
    }
    chain := chain + [response.final.url];
    statuses := statuses + [response.final.statusCode];
    r := Val(Zip(chain, statuses));
    assert r.value == RedirectChain(head).value;
  }
}
