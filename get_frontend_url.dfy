/**
 The `GetFrontendUrl` plugin of the Paytrail GraphQL extension. After the
 payment provider redirects back, it replaces the receipt controller's success
 URL and cart URL with URLs on a decoupled (PWA) storefront.

 Every framework lookup the plugin makes is an input here: whether the
 `Magento_UpwardConnector` module is enabled, the two PWA settings under
 `payment/paytrail/pwa/`, the secure web base URL of the order's store, the
 order's increment id and the masked id of the order's quote.
 */
module GetFrontendUrl {
  import opened SlashTrim

  /** What the plugin reads from the module manager and the store config. */
  datatype Environment = Environment(
    upwardConnectorEnabled: bool,  // module `Magento_UpwardConnector` is enabled
    usePwa: bool,                  // flag `payment/paytrail/pwa/use_pwa` is set
    pwaFrontendUrl: string         // value of `payment/paytrail/pwa/pwa_frontend_url`
  )

  /** What the plugin reads about the order being paid for. */
  datatype Order = Order(
    storeSecureBaseUrl: string,    // secure web base URL of the order's store
    incrementId: string,           // the order's increment id
    maskedId: string               // masked id of the order's quote
  )

  /** Path appended to the base of the success URL, before the increment id. */
  const SuccessPath: string := "/checkout/success/"
  /** Segment between the increment id and the masked id of the success URL. */
  const MaskedIdSegment: string := "/maskedId/"
  /** Path and query appended to the base of the cart URL, before the masked id. */
  const CartPath: string := "/cart/?paytrailRestore=true&maskedId="

  /** `getBaseUrl`: the configured PWA frontend URL when PWA use is switched
      on, and the empty string otherwise. */
  function PwaBaseUrl(env: Environment): (r: string)
    ensures env.usePwa ==> r == env.pwaFrontendUrl
    ensures !env.usePwa ==> r == ""
  {
    if env.usePwa then env.pwaFrontendUrl else ""
  }

  /** The base both URLs are built on: the store's own secure URL when the
      UPWARD connector is enabled, whatever the PWA settings; otherwise the
      PWA base URL. */
  function FrontendBaseUrl(env: Environment, order: Order): (r: string)
    ensures r == order.storeSecureBaseUrl || r == env.pwaFrontendUrl || r == ""
    ensures env.upwardConnectorEnabled ==> r == order.storeSecureBaseUrl
    ensures !env.upwardConnectorEnabled ==> r == PwaBaseUrl(env)
  {
    if env.upwardConnectorEnabled then order.storeSecureBaseUrl else PwaBaseUrl(env)
  }

  /** The base, trimmed, joined to `path` (which begins with the one '/'). */
  function JoinBase(base: string, path: string): (r: string) {
    Trim(base) + path
  }

  /** `url` is the trimmed `base` followed by exactly one '/' and then by a
      character other than '/'. */
  ghost predicate SingleSlashAfterBase(url: string, base: string) {
    var t := Trim(base);
    && |url| > |t| + 1
    && url[..|t|] == t
    && url[|t|] == Slash
    && (t == [] || url[|t| - 1] != Slash)
    && url[|t| + 1] != Slash
  }

  /** Joining a trimmed base to a path that starts with a single '/' puts
      exactly one '/' between the two, and ends on the path. */
  lemma JoinLayout(base: string, path: string)
    requires |path| > 1 && path[0] == Slash && path[1] != Slash
    ensures SingleSlashAfterBase(JoinBase(base, path), base)
    ensures JoinBase(base, path)[|JoinBase(base, path)| - |path|..] == path
  {
    var t := Trim(base);
    assert NoEdgeSlash(t);
    assert (t + path)[..|t|] == t;
  }

  /** The success route after the base: increment id, then masked id. */
  function SuccessRoute(order: Order): (r: string) {
    SuccessPath + order.incrementId + (MaskedIdSegment + order.maskedId)
  }

  /** `afterGetSuccessUrl`: the incoming URL `result` is discarded and the
      success route of the frontend is built from the order. */
  function AfterGetSuccessUrl(env: Environment, result: string, order: Order): (r: string)
    ensures SingleSlashAfterBase(r, FrontendBaseUrl(env, order))
    ensures |r| == |Trim(FrontendBaseUrl(env, order))| + |SuccessRoute(order)|
    ensures |r| >= |MaskedIdSegment + order.maskedId|
    ensures r[|r| - |MaskedIdSegment + order.maskedId|..] == MaskedIdSegment + order.maskedId
  {
    var tail := MaskedIdSegment + order.maskedId;
    var path := SuccessRoute(order);
    assert path[0] == SuccessPath[0] && path[1] == SuccessPath[1];
    JoinLayout(FrontendBaseUrl(env, order), path);
    assert path[|path| - |tail|..] == tail;
    JoinBase(FrontendBaseUrl(env, order), path)
  }

  /** `afterGetCartUrl`: the incoming URL `result` is discarded and the cart
      route of the frontend, which restores the quote, is built from the
      order's masked id. */
  function AfterGetCartUrl(env: Environment, result: string, order: Order): (r: string)
    ensures SingleSlashAfterBase(r, FrontendBaseUrl(env, order))
    ensures |r| == |Trim(FrontendBaseUrl(env, order))| + |CartPath + order.maskedId|
    ensures r[|r| - |CartPath + order.maskedId|..] == CartPath + order.maskedId
  {
    JoinLayout(FrontendBaseUrl(env, order), CartPath + order.maskedId);
    JoinBase(FrontendBaseUrl(env, order), CartPath + order.maskedId)
  }

  /** Joining onto a base is the reference trim of the base followed by
      the path. */
  lemma JoinOnTrim(base: string, path: string, t: string)
    requires IsTrimOf(base, t)
    ensures JoinBase(base, path) == t + path
  {
    TrimIsTheTrim(base, t);
  }

  /** Concatenation regrouped. */
  lemma Regroup(a: string, b: string, c: string)
    ensures a + (b + c) == a + b + c
  {
  }

  /** The success URL, stated against the reference trim of the selected
      base: the trimmed base, "/checkout/success/", the increment id,
      "/maskedId/" and the masked id, in that order and nothing between. */
  lemma SuccessUrlLayout(env: Environment, result: string, order: Order, t: string)
    requires IsTrimOf(FrontendBaseUrl(env, order), t)
    ensures AfterGetSuccessUrl(env, result, order) == t + (SuccessPath + order.incrementId + (MaskedIdSegment + order.maskedId))
  {
    JoinOnTrim(FrontendBaseUrl(env, order), SuccessRoute(order), t);
  }

  /** The cart URL, stated against the reference trim of the selected base:
      the trimmed base directly followed by the cart route and the masked id. */
  lemma CartUrlLayout(env: Environment, result: string, order: Order, t: string)
    requires IsTrimOf(FrontendBaseUrl(env, order), t)
    ensures AfterGetCartUrl(env, result, order) == t + CartPath + order.maskedId
  {
    JoinOnTrim(FrontendBaseUrl(env, order), CartPath + order.maskedId, t);
    Regroup(t, CartPath, order.maskedId);
  }

  // Base-URL selection

  /** With the UPWARD connector enabled the base is the store's secure URL,
      and the PWA settings, whatever they are, change neither URL. */
  lemma UpwardConnectorOverridesPwa(env: Environment, result: string, order: Order, usePwa: bool, pwaUrl: string)
    requires env.upwardConnectorEnabled
    ensures FrontendBaseUrl(env, order) == order.storeSecureBaseUrl
    ensures var other := env.(usePwa := usePwa, pwaFrontendUrl := pwaUrl);
      && AfterGetSuccessUrl(other, result, order) == AfterGetSuccessUrl(env, result, order)
      && AfterGetCartUrl(other, result, order) == AfterGetCartUrl(env, result, order)
  {
  }

  /** With the connector disabled the base is the PWA frontend URL when PWA
      use is on and empty when it is off, and the store's URL plays no part. */
  lemma DisabledConnectorUsesPwaConfig(env: Environment, result: string, order: Order, storeUrl: string)
    requires !env.upwardConnectorEnabled
    ensures FrontendBaseUrl(env, order) == if env.usePwa then env.pwaFrontendUrl else ""
    ensures var other := order.(storeSecureBaseUrl := storeUrl);
      && AfterGetSuccessUrl(env, result, other) == AfterGetSuccessUrl(env, result, order)
      && AfterGetCartUrl(env, result, other) == AfterGetCartUrl(env, result, order)
  {
  }

  // URL assembly

  /** The URL the controller had computed is overridden: it has no influence
      on either result. */
  lemma IncomingResultIgnored(env: Environment, order: Order, result1: string, result2: string)
    ensures AfterGetSuccessUrl(env, result1, order) == AfterGetSuccessUrl(env, result2, order)
    ensures AfterGetCartUrl(env, result1, order) == AfterGetCartUrl(env, result2, order)
  {
  }

  /** On a fixed prefix, the rest of a concatenation is determined. */
  lemma SamePrefixSameRest(t: string, a: string, b: string)
    requires t + a == t + b
    ensures a == b
  {
    assert a == (t + a)[|t|..];
    assert b == (t + b)[|t|..];
  }

  /** Extending a known prefix by one character. */
  lemma PrefixOneMore(url: string, t: string)
    requires |url| > |t| && url[..|t|] == t
    ensures url[..|t| + 1] == t + [url[|t|]]
  {
    assert url[..|t| + 1] == url[..|t|] + [url[|t|]];
  }

  /** A URL laid out on `base` starts with the trimmed base and one '/'. */
  lemma PrefixBeforeRoute(url: string, base: string)
    requires SingleSlashAfterBase(url, base)
    ensures url[..|Trim(base)| + 1] == Trim(base) + [Slash]
  {
    PrefixOneMore(url, Trim(base));
  }

  /** For one order and one configuration the success URL and the cart URL
      share the prefix "trimmed base + '/'". */
  lemma SuccessAndCartShareBase(env: Environment, result: string, order: Order)
    ensures var prefix := Trim(FrontendBaseUrl(env, order)) + [Slash];
      && AfterGetSuccessUrl(env, result, order)[..|prefix|] == prefix
      && AfterGetCartUrl(env, result, order)[..|prefix|] == prefix
  {
    PrefixBeforeRoute(AfterGetSuccessUrl(env, result, order), FrontendBaseUrl(env, order));
    PrefixBeforeRoute(AfterGetCartUrl(env, result, order), FrontendBaseUrl(env, order));
  }

  /** Adding '/' characters before or after the configured base URLs, be it
      the store's URL or the PWA frontend URL, changes neither URL. */
  lemma OuterSlashesOnBaseIrrelevant(env: Environment, result: string, order: Order, before: string, after: string)
    requires AllSlashes(before) && AllSlashes(after)
    ensures var env' := env.(pwaFrontendUrl := before + env.pwaFrontendUrl + after);
      var order' := order.(storeSecureBaseUrl := before + order.storeSecureBaseUrl + after);
      && AfterGetSuccessUrl(env', result, order') == AfterGetSuccessUrl(env, result, order)
      && AfterGetCartUrl(env', result, order') == AfterGetCartUrl(env, result, order)
  {
    var env' := env.(pwaFrontendUrl := before + env.pwaFrontendUrl + after);
    var order' := order.(storeSecureBaseUrl := before + order.storeSecureBaseUrl + after);
    if env.upwardConnectorEnabled {
      TrimIgnoresOuterSlashes(before, order.storeSecureBaseUrl, after);
    } else if env.usePwa {
      TrimIgnoresOuterSlashes(before, env.pwaFrontendUrl, after);
    }
    assert Trim(FrontendBaseUrl(env', order')) == Trim(FrontendBaseUrl(env, order));
  }

  /** A base that is empty or only '/' characters yields the bare routes,
      relative to the host: "/checkout/success/..." and "/cart/...". */
  lemma SlashOnlyBaseGivesRelativeRoutes(env: Environment, result: string, order: Order)
    requires AllSlashes(FrontendBaseUrl(env, order))
    ensures AfterGetSuccessUrl(env, result, order) == SuccessPath + order.incrementId + MaskedIdSegment + order.maskedId
    ensures AfterGetCartUrl(env, result, order) == CartPath + order.maskedId
  {
    var base := FrontendBaseUrl(env, order);
    TrimEmptyIffAllSlashes(base);
    TrimMeetsDefinition(base);
    SuccessUrlLayout(env, result, order, []);
    CartUrlLayout(env, result, order, []);
    Regroup(SuccessPath + order.incrementId, MaskedIdSegment, order.maskedId);
    Regroup([], CartPath, order.maskedId);
  }

  /** Both URLs start with '/' exactly when the selected base is empty or
      only '/' characters; any other base starts them with its own text. */
  lemma StartsWithSlashIffNoBase(env: Environment, result: string, order: Order)
    ensures AfterGetSuccessUrl(env, result, order)[0] == Slash <==> AllSlashes(FrontendBaseUrl(env, order))
    ensures AfterGetCartUrl(env, result, order)[0] == Slash <==> AllSlashes(FrontendBaseUrl(env, order))
  {
    var t := Trim(FrontendBaseUrl(env, order));
    TrimEmptyIffAllSlashes(FrontendBaseUrl(env, order));
    if t != [] {
      assert AfterGetSuccessUrl(env, result, order)[0] == t[0];
      assert AfterGetCartUrl(env, result, order)[0] == t[0];
    }
  }

  /** In `inc + rest`, where `inc` has no '/' and `rest` starts with one, the
      first '/' is at index `|inc|`. */
  lemma FirstSlashAfter(inc: string, rest: string)
    requires Slash !in inc && |rest| > 0 && rest[0] == Slash
    ensures (inc + rest)[|inc|] == Slash
    ensures forall k :: 0 <= k < |inc| ==> (inc + rest)[k] != Slash
  {
    assert forall k :: 0 <= k < |inc| ==> (inc + rest)[k] == inc[k];
  }

  /** The success route determines the increment id and the masked id
      when increment ids hold no '/'. */
  lemma SuccessRouteDeterminesIds(order1: Order, order2: Order)
    requires Slash !in order1.incrementId && Slash !in order2.incrementId
    requires SuccessRoute(order1) == SuccessRoute(order2)
    ensures order1.incrementId == order2.incrementId && order1.maskedId == order2.maskedId
  {
    var inc1, inc2 := order1.incrementId, order2.incrementId;
    var rest1, rest2 := MaskedIdSegment + order1.maskedId, MaskedIdSegment + order2.maskedId;
    assert SuccessRoute(order1) == SuccessPath + (inc1 + rest1);
    assert SuccessRoute(order2) == SuccessPath + (inc2 + rest2);
    SamePrefixSameRest(SuccessPath, inc1 + rest1, inc2 + rest2);
    FirstSlashAfter(inc1, rest1);
    FirstSlashAfter(inc2, rest2);
    assert |inc1| == |inc2|;
    assert inc1 == (inc1 + rest1)[..|inc1|];
    assert inc2 == (inc2 + rest2)[..|inc2|];
    SamePrefixSameRest(inc1, rest1, rest2);
    SamePrefixSameRest(MaskedIdSegment, order1.maskedId, order2.maskedId);
  }

  /** On one base, the success URL determines the increment id and the
      masked id, provided increment ids hold no '/': the frontend can take
      them back out of the route. */
  lemma SuccessUrlDeterminesIds(env: Environment, result: string, order1: Order, order2: Order)
    requires FrontendBaseUrl(env, order1) == FrontendBaseUrl(env, order2)
    requires Slash !in order1.incrementId && Slash !in order2.incrementId
    requires AfterGetSuccessUrl(env, result, order1) == AfterGetSuccessUrl(env, result, order2)
    ensures order1.incrementId == order2.incrementId && order1.maskedId == order2.maskedId
  {
    SamePrefixSameRest(Trim(FrontendBaseUrl(env, order1)), SuccessRoute(order1), SuccessRoute(order2));
    SuccessRouteDeterminesIds(order1, order2);
  }

  /** Without that proviso the success URL is ambiguous: nothing is encoded,
      so an increment id holding "/maskedId/" yields the same URL as another
      split of the same text. */
  lemma SuccessUrlAmbiguousWithSlashInId(env: Environment, result: string, storeUrl: string)
    ensures AfterGetSuccessUrl(env, result, Order(storeUrl, "1/maskedId/a", "b"))
         == AfterGetSuccessUrl(env, result, Order(storeUrl, "1", "a/maskedId/b"))
  {
    assert SuccessPath + "1/maskedId/a" + (MaskedIdSegment + "b")
        == SuccessPath + "1" + (MaskedIdSegment + "a/maskedId/b");
  }

  /** On one base, the cart URL determines the masked id of the quote to
      restore. */
  lemma CartUrlDeterminesMaskedId(env: Environment, result: string, order1: Order, order2: Order)
    requires FrontendBaseUrl(env, order1) == FrontendBaseUrl(env, order2)
    requires AfterGetCartUrl(env, result, order1) == AfterGetCartUrl(env, result, order2)
    ensures order1.maskedId == order2.maskedId
  {
    var t := Trim(FrontendBaseUrl(env, order1));
    SamePrefixSameRest(t, CartPath + order1.maskedId, CartPath + order2.maskedId);
    SamePrefixSameRest(CartPath, order1.maskedId, order2.maskedId);
  }
}
