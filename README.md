# ProductCard data derivation, in Dafny

This project models the logic inside the product tile of the ScandiPWA base
theme, `src/app/component/ProductCard/ProductCard.component.js`. Given the
card's props (a product and the currently selected `customFilters`), the
card works out these facts:

- which variant of a configurable product to show, and which of that
  variant's parameters to carry into the link (`getConfigurableParameters`,
  including its `Object.entries(...).reduce` fold);
- the link to the product page and the review deep link (`getLinkTo` and the
  `#reviews` location);
- the thumbnail path (`getThumbnail`) and the price (`render`);
- which action button to show (`renderAddOrConfigureButton`).

The source is pure, so every operation is a Dafny `function` over plain
datatypes, with lemmas beside it:

- `js.dfy` (module `Js`): the JavaScript semantics the card relies on. This
  covers truthiness, `Number.isNaN`, and a thrown `TypeError` (modelled as
  `Result.TypeError`). It also covers plain objects, as ordered key/value
  lists: `Get` is `o[k]` and `Put` is `{ ...o, [k]: v }`.
- `product_card.dfy` (module `ProductCard`): the card itself.

Two helpers are imported by the card but defined elsewhere: `getVariantIndex`
and `convertKeyValueObjectToQueryString`. They are function-typed parameters
(`VariantIndexFn`, `QueryStringFn`), and nothing is assumed about them.

Points where JavaScript semantics decide the behaviour:

- An empty `variants` array is truthy in JavaScript. So with `variants: []`
  the resolver is consulted when a filter key exists (line 44), and either
  way the card throws: at line 48 when the selection reads
  `variants[index]`, otherwise at `getThumbnail(0)` (line 80). It does not
  fall back to the base product.
- A variant whose `thumbnail` is `null` makes `getThumbnail` throw a
  `TypeError` (line 80). It does not fall back to the base thumbnail.
- The parameters come from `variants[index].product.parameters` (line 48),
  not from a field of the variant itself.
- A parameter is kept when `customFilters[key]` is truthy (line 50), not
  merely when the key is present.
- The choice of variant and the query-string encoding belong to the two
  external helpers. Their first-match and percent-encoding behaviour is not
  part of this model.

## Model

| member | source | states |
|---|---|---|
| ProductCard.ConfigurableParameters | src/app/component/ProductCard/ProductCard.component.js:40-59 | As written, the card never selects a variant. Any successful result is `{index: 0, parameters: {}}`. It throws exactly when variants are present, a filter key exists and the resolver returns NaN. |
| ProductCard.NoFiltersNoSelection | src/app/component/ProductCard/ProductCard.component.js:41-58 | With no variants, with `null` filters, or with the default `{}` filters (line 225), both versions return `{index: 0, parameters: {}}`. |
| ProductCard.NumericIndexIgnored | src/app/component/ProductCard/ProductCard.component.js:45-58 | As written, a resolver that returns any number is ignored, and the result is `{index: 0, parameters: {}}`. |
| ProductCard.ConfigurableParametersFixed | src/app/component/ProductCard/ProductCard.component.js:40-59 | With the guard negated, a non-zero index in a successful result is always a valid position in `variants`. |
| ProductCard.FixedSelectsResolvedVariant | src/app/component/ProductCard/ProductCard.component.js:45-54 | The corrected selection returns the resolver's index. Its parameters have unique keys: exactly the variant's parameter keys whose filter value is truthy, each with the variant's own value. |
| ProductCard.FixedFallbacks | src/app/component/ProductCard/ProductCard.component.js:45-58 | The corrected selection defaults when the resolver returns NaN. It throws when the index lies outside the array. |
| ProductCard.KeepFiltered | src/app/component/ProductCard/ProductCard.component.js:49-52 | The fold's keys are exactly the parameter keys whose `customFilters[key]` is truthy. No other key appears. |
| ProductCard.KeptParameters | src/app/component/ProductCard/ProductCard.component.js:49-52 | For an object with unique keys, the fold equals the in-order filter `Select`. The result keeps unique keys, and each kept key holds the parameter's value, not the filter's. |
| ProductCard.SelectAppend | src/app/component/ProductCard/ProductCard.component.js:49-52 | The reference filter processes entries left to right, as `reduce` does: appending an entry appends it to the result exactly when its filter is truthy. |
| ProductCard.SelectValues | src/app/component/ProductCard/ProductCard.component.js:49-52 | Every key kept by the reference filter maps to its value in the source object. |
| Js.Put | src/app/component/ProductCard/ProductCard.component.js:50 | `{ ...acc, [key]: param }` adds `key` with value `param` and leaves every other key's value alone. A new key goes last. Unique keys stay unique. |
| Js.Get | src/app/component/ProductCard/ProductCard.component.js:50 | `customFilters[key]` is `undefined` for a key the object lacks. For a key it has, the value is one stored under that key. |
| Js.OptStr | src/app/component/ProductCard/ProductCard.component.js:64 | A string field is truthy exactly when it is present and non-empty. |
| Js.UniqueAppend | src/app/component/ProductCard/ProductCard.component.js:49 | Appending an entry keeps keys unique exactly when its key is new. |
| Js.KeysAppend | src/app/component/ProductCard/ProductCard.component.js:49 | The keys of a concatenation are the union of the keys of its parts. |
| ProductCard.LinkTo | src/app/component/ProductCard/ProductCard.component.js:61-70 | The result is absent exactly when `url_key` is falsy, the empty string included. Otherwise it holds pathname `"/product/" + url_key`, the product as state, `search == qs(parameters)`, and no hash. |
| ProductCard.ReviewLinkTo | src/app/component/ProductCard/ProductCard.component.js:142-147 | The review link exists exactly when a review summary with a truthy count exists. It carries `#reviews` and the link's pathname, state and search unchanged; when there is no link, those fields are absent. |
| ProductCard.ReviewLinkAddsOnlyHash | src/app/component/ProductCard/ProductCard.component.js:147 | For a linkable product, the review link is the card's link with only `hash: '#reviews'` added. |
| ProductCard.ThumbnailOf | src/app/component/ProductCard/ProductCard.component.js:78-82 | The variant's path when it is non-empty, otherwise the base `thumbnail.path` (absent if the base has no thumbnail). It throws when variants are present and the index is out of bounds or the variant has no thumbnail. |
| ProductCard.PriceOf | src/app/component/ProductCard/ProductCard.component.js:180-182 | For a configurable product with variants, the price is the price of `variants[index].product`, and it throws out of bounds. Otherwise it is the product's own price. |
| ProductCard.PriceIgnoresIndex | src/app/component/ProductCard/ProductCard.component.js:180-182 | Outside the configurable-with-variants case, the price is the same for every index and never throws. |
| ProductCard.ActionButton | src/app/component/ProductCard/ProductCard.component.js:98-129 | `notReady` gives the placeholder whatever the type. Otherwise `configurable` gives the configure link, `grouped` gives the details link, and any other type gives add-to-cart. Each is an if-and-only-if. |
| ProductCard.Derive | src/app/component/ProductCard/ProductCard.component.js:160-206 | `render` from the selection onwards. It succeeds exactly when the selection, the thumbnail and the price at the selected index all succeed. Then price and thumbnail are those of the selected index. The card is loading exactly when `url_key` is falsy, which is exactly when there is no link. The link is `getLinkTo(parameters)`, so its search comes from the selected parameters. The button is the action rule applied to `notReady = !price` (line 204), so the placeholder appears exactly when the price is falsy. The review link is built from the card's link. |
| ProductCard.RenderAsWritten | src/app/component/ProductCard/ProductCard.component.js:174-182 | `render` as written. It succeeds exactly when the selection, the thumbnail at index 0 and the price at index 0 succeed. It then shows the price and thumbnail of index 0, and its link's search is `qs({})`. |
| ProductCard.Render | src/app/component/ProductCard/ProductCard.component.js:174-182 | `render` with the corrected selection. When the resolver returns index `i`, a successful card shows the price and thumbnail of index `i`. Its link's search is `qs` of variant `i`'s parameters filtered by the truthy filters. When the resolver is not consulted or returns NaN, a successful card shows index 0 and links with `qs({})`. |
| ProductCard.EmptyVariantsThrow | src/app/component/ProductCard/ProductCard.component.js:44-80 | With `variants: []`, both the as-written and the corrected card throw; neither falls back to the base product. |
| ProductCard.AsWrittenIgnoresFilters | src/app/component/ProductCard/ProductCard.component.js:174-182 | As written, whenever the card renders, it renders exactly what it would with the default empty filters. |
| ProductCard.RedCapScenario | src/app/component/ProductCard/ProductCard.component.js:40-59 | Example: a blue/red cap with filter `{color: 'red'}`, where the resolver returns 1. The corrected card shows `/r.jpg` at price 12, links to `/product/cap` with the red parameters, and offers the configure link. The card as written shows `/b.jpg` at price 10 and links with no parameters. |

## Left out

- `getVariantIndex` (Util/Product) and `convertKeyValueObjectToQueryString` (Util/Url) are not part of this model. They are uninterpreted parameters, so no first-match or encoding round-trip law is stated.
- JSX markup, the CSS `block`/`elem`/`mods`/`mix` hooks, the `Image` source prefix, `TextPlaceholder` content, the `Link`/`div` tag choice (captured only as `isLoading`) and `renderAddToWishlistButton`: these are rendering, with no logic beyond the `notReady` test already modelled.
- `getReviewText`, `getTabIndex` and the `__()` translations: these are helpers defined outside the card.
- `handleConfigurableClick`, and the `AddToCart` and `ProductWishlistButton` components: they are callbacks into the cart and wishlist.
- The constructor's method binding, `propTypes`, and the React lifecycle: they carry no logic. A missing `customFilters` prop is taken to be `DefaultCustomFilters` (line 225) before the model sees it.
- Numbers are integers or NaN. A fractional index such as 1.5 (which reads `undefined` and throws) is not represented.
- `Get` sees an object's own properties only. A filter key that names an inherited property (such as `constructor`) would be truthy in JavaScript but is `undefined` here.
- The model takes the order of an `Obj` sequence as the `Object.entries` order. JavaScript's rule that integer-like keys come first is not modelled.
- The product nested in a variant always has a `parameters` object (possibly empty). The case where it is missing, which would make `Object.entries` throw on the corrected path, is not modelled.
- ProductCard.ConfigurableParametersFixed: its own ensures states only that the index is in bounds. The full behaviour is stated in FixedSelectsResolvedVariant and FixedFallbacks.

## Findings

| source | as written | input that shows it | evidently intended | confidence | as-written member | corrected member |
|---|---|---|---|---|---|---|
| src/app/component/ProductCard/ProductCard.component.js:47 | `if (Number.isNaN(index))` enters the match branch only when no variant was found. `variants[NaN]` is then `undefined`, and destructuring it throws. | A cap with variants `[blue, red]`, `customFilters = {color: 'red'}`, and `getVariantIndex` returning `1`: the card shows the blue thumbnail and price and links without `color=red`. If `getVariantIndex` returns NaN, the card throws a `TypeError`. | `if (!Number.isNaN(index))`: use the variant the resolver found, and keep the default otherwise. | not executed; high | ProductCard.ConfigurableParameters, ProductCard.RedCapScenario | ProductCard.ConfigurableParametersFixed, ProductCard.FixedSelectsResolvedVariant |
