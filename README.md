# Paytrail GraphQL: frontend URL plugin

A Dafny model of the `GetFrontendUrl` plugin of the Paytrail payment extension's
GraphQL module for Adobe Commerce (Magento). When the payment provider redirects
the shopper back, the receipt controller asks for a success URL and a cart URL;
the plugin throws away the URLs the controller computed and returns URLs on a
decoupled (PWA) storefront instead.

The plugin does two things, and the model follows it:

- **Base-URL selection.** If the `Magento_UpwardConnector` module is enabled the
  base is the secure web base URL of the order's store; otherwise, if the flag
  `payment/paytrail/pwa/use_pwa` is set, it is the configured
  `payment/paytrail/pwa/pwa_frontend_url`; otherwise it is the empty string.
- **URL assembly.** PHP's `trim($base, '/')` removes every `/` at both ends of
  the base; then `/checkout/success/<increment id>/maskedId/<masked id>` (success
  URL) or `/cart/?paytrailRestore=true&maskedId=<masked id>` (cart URL) is
  appended. Nothing is URL-encoded or validated.

The code is pure (a conditional choice and string concatenation), so the model is
datatypes, functions and lemmas:

- `slash_trim.dfy`, module `SlashTrim`: PHP's `trim` with the character list
  `'/'`, computed as `TrimRight(TrimLeft(s))` and checked against a reference
  definition `IsTrimOf` (a piece of the string such that only `/` is cut off and
  the piece has no `/` at either end), which admits exactly one trim per string.
- `get_frontend_url.dfy`, module `GetFrontendUrl`: the framework lookups as the
  fields of two datatypes, `Environment` (module flag, `use_pwa` flag, PWA URL)
  and `Order` (store's secure base URL, increment id, masked id), and the three
  plugin methods as functions, with the properties of the URLs they build.

PHP's `trim` works on bytes; `/` is ASCII and is never part of a multi-byte
UTF-8 sequence, so trimming characters is the same operation. PHP evaluates
`a . b . c . d` left to right; the model groups the same concatenation
differently, which gives the same string.

## Model

| member | source | states |
|---|---|---|
| SlashTrim.TrimLeft | Plugin/GetFrontendUrl.php:51 | the result is a suffix of the input, everything dropped before it is `/`, and it does not start with `/` |
| SlashTrim.TrimRight | Plugin/GetFrontendUrl.php:51 | the result is a prefix of the input, everything dropped after it is `/`, and it does not end with `/` |
| SlashTrim.Trim | Plugin/GetFrontendUrl.php:51 | `trim($s, '/')`: the result neither starts nor ends with `/` |
| SlashTrim.TrimMeetsDefinition | Plugin/GetFrontendUrl.php:51 | trimming removes only `/` characters, and only at the two ends: the result is `s[i..j]` with only `/` in `s[..i]` and `s[j..]` |
| SlashTrim.TrimOfUnique | Plugin/GetFrontendUrl.php:51 | the reference definition of the trim allows one result per string |
| SlashTrim.TrimIsTheTrim | Plugin/GetFrontendUrl.php:51 | any string meeting the reference definition is what `Trim` returns |
| SlashTrim.TrimIdempotent | Plugin/GetFrontendUrl.php:80 | trimming twice gives the same as trimming once |
| SlashTrim.TrimIgnoresOuterSlashes | Plugin/GetFrontendUrl.php:80 | adding `/` characters before or after a string does not change its trim |
| SlashTrim.TrimEmptyIffAllSlashes | Plugin/GetFrontendUrl.php:51 | the trim is empty if and only if the string is empty or only `/` characters |
| SlashTrim.TrimKeepsUnslashedEnds | Plugin/GetFrontendUrl.php:80 | a string without `/` at either end is returned unchanged |
| GetFrontendUrl.PwaBaseUrl | Plugin/GetFrontendUrl.php:104-112 | `getBaseUrl`: the PWA frontend URL when `use_pwa` is set, the empty string when it is not |
| GetFrontendUrl.FrontendBaseUrl | Plugin/GetFrontendUrl.php:41-48 | the base is one of the three sources; the store's secure URL when the UPWARD connector is enabled, otherwise the PWA base |
| GetFrontendUrl.JoinLayout | Plugin/GetFrontendUrl.php:51-52 | a trimmed base joined to a path starting with a single `/` has exactly one `/` at the join and ends with the path |
| GetFrontendUrl.AfterGetSuccessUrl | Plugin/GetFrontendUrl.php:39-55 | the success URL starts with the trimmed base, has exactly one `/` at the join, ends with `/maskedId/` and the masked id, and is as long as the trimmed base plus the success route; `SuccessUrlLayout` gives the whole URL |
| GetFrontendUrl.SuccessUrlLayout | Plugin/GetFrontendUrl.php:51-52 | for the reference trim `t` of the selected base, the success URL is exactly `t`, `/checkout/success/`, the increment id, `/maskedId/` and the masked id, with nothing between |
| GetFrontendUrl.AfterGetCartUrl | Plugin/GetFrontendUrl.php:68-83 | the cart URL starts with the trimmed base, has exactly one `/` at the join, ends with `/cart/?paytrailRestore=true&maskedId=` and the masked id, and is exactly as long as those two together, so nothing lies between them |
| GetFrontendUrl.CartUrlLayout | Plugin/GetFrontendUrl.php:80 | for the reference trim `t` of the selected base, the cart URL is exactly `t` followed by `/cart/?paytrailRestore=true&maskedId=` and the masked id |
| GetFrontendUrl.UpwardConnectorOverridesPwa | Plugin/GetFrontendUrl.php:41-45 | with the connector enabled the base is the store's secure URL and no PWA setting changes either URL |
| GetFrontendUrl.DisabledConnectorUsesPwaConfig | Plugin/GetFrontendUrl.php:46-48 | with the connector disabled the base is the PWA URL if `use_pwa` is set and empty otherwise, and the store's URL changes neither URL |
| GetFrontendUrl.IncomingResultIgnored | Plugin/GetFrontendUrl.php:39-80 | the `$result` passed in has no influence on either returned URL |
| GetFrontendUrl.SuccessAndCartShareBase | Plugin/GetFrontendUrl.php:51-80 | for one order and configuration both URLs start with the same trimmed base followed by `/` |
| GetFrontendUrl.OuterSlashesOnBaseIrrelevant | Plugin/GetFrontendUrl.php:51-80 | adding `/` characters before or after the configured store URL or PWA URL changes neither URL |
| GetFrontendUrl.SlashOnlyBaseGivesRelativeRoutes | Plugin/GetFrontendUrl.php:51-80 | an empty or slash-only base yields exactly `/checkout/success/<increment id>/maskedId/<masked id>` and `/cart/?paytrailRestore=true&maskedId=<masked id>` |
| GetFrontendUrl.StartsWithSlashIffNoBase | Plugin/GetFrontendUrl.php:51-80 | either URL starts with `/` if and only if the selected base is empty or only `/` characters |
| GetFrontendUrl.SuccessRouteDeterminesIds | Plugin/GetFrontendUrl.php:51-52 | the route after the base determines increment id and masked id when increment ids contain no `/` |
| GetFrontendUrl.SuccessUrlDeterminesIds | Plugin/GetFrontendUrl.php:51-52 | on one base, equal success URLs mean equal increment ids and masked ids when increment ids contain no `/` |
| GetFrontendUrl.SuccessUrlAmbiguousWithSlashInId | Plugin/GetFrontendUrl.php:51-52 | since nothing is encoded, increment id `1/maskedId/a` with masked id `b` gives the same success URL as increment id `1` with masked id `a/maskedId/b` |
| GetFrontendUrl.CartUrlDeterminesMaskedId | Plugin/GetFrontendUrl.php:80 | on one base, equal cart URLs mean equal masked ids |

## Left out

- `getMaskedId` (Plugin/GetFrontendUrl.php:92-97): the quote-id-mask load is a framework lookup; its result is the input `Order.maskedId`. A quote with no mask row, whose `getMaskedId()` gives `null`, is not modelled: `getMaskedId` declares a `string` return type, so PHP would raise a `TypeError` there rather than build a URL.
- The store lookup `getStore($order->getStoreId())->getBaseUrl(URL_TYPE_WEB, true)` is the input `Order.storeSecureBaseUrl`; the `NoSuchEntityException` it can throw for an unknown store is host-framework error behaviour and is not modelled.
- The module manager and the scope-config reads (`isEnabled`, `isSetFlag`, `getValue`) are the inputs of `Environment`; how Magento turns a stored setting into a flag is not modelled.
- A missing (`null`) `pwa_frontend_url` with `use_pwa` set is not modelled: `getBaseUrl` declares a `string` return type, so PHP would raise a `TypeError` there rather than trim an empty string; the model takes the setting as a string.
- The `$subject` argument (the receipt controller) and the plugin (interceptor) mechanism that calls these methods are host infrastructure.
- Model/Resolver/PaymentDetails.php, the GraphQL resolver: apart from a default three-key result, a check of the payment method code against the Paytrail method code and a catch-all that logs an exception and copies its message into `error`, it forwards to a command pool, a provider form builder and an error-processing service whose behaviour is not part of this model, so none of its outcomes can be stated without inventing theirs.
