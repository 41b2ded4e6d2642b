/**
 The data derivation behind the product tile of a catalogue listing: which
 variant of a configurable product the tile shows, the parameters it carries
 into the product page link, the thumbnail, the price and the action button.
 Everything here is a pure function of the card's props; the two helpers the
 card imports from elsewhere, the variant-index resolver and the query-string
 builder, are function-typed parameters about which nothing is assumed.
 */
module ProductCard {
  import opened Js

  /** `{ path }`; the path itself may be missing. */
  datatype Thumbnail = Thumbnail(path: Option<string>)

  datatype ReviewSummary = ReviewSummary(reviewCount: JsValue)

  /** The product record the card receives (`url_key`, `type_id`,
      `thumbnail`, `price`, `variants`, `parameters`, `review_summary`).
      `variants` is an array when present; the product nested in a variant
      has the same shape and carries that variant's attribute `parameters`. */
  datatype Product = Product(
    urlKey: Option<string>,
    typeId: string,
    thumbnail: Option<Thumbnail>,
    price: JsValue,
    variants: Option<seq<Variant>>,
    parameters: Obj,
    reviewSummary: Option<ReviewSummary>)

  datatype Variant = Variant(product: Product)

  /** The props the derivation reads. `customFilters` is `None` when the
      caller passes `null`; a missing prop is `DefaultCustomFilters`. */
  datatype Props = Props(product: Product, customFilters: Option<Obj>)

  /** The default value of the `customFilters` prop. */
  const DefaultCustomFilters: Obj := []

  /** `{ index, parameters }`: the variant shown and the parameters to link with. */
  datatype Selection = Selection(index: int, parameters: Obj)

  /** `{ index: 0, parameters: {} }`. */
  const NoSelection := Selection(0, [])

  /** A router location; a field that is `None` is absent from the object. */
  datatype Location = Location(
    pathname: Option<string>,
    state: Option<Product>,
    search: Option<string>,
    hash: Option<string>)

  /** What the card renders in its action slot. */
  datatype Button = Placeholder | ConfigureLink | ViewDetailsLink | AddToCart

  /** `getVariantIndex(variants, customFilters)`, defined outside the card. */
  type VariantIndexFn = (seq<Variant>, Obj) -> Num

  /** `convertKeyValueObjectToQueryString(parameters)`, defined outside the card. */
  type QueryStringFn = Obj -> string

  /** `customFilters && Object.keys(customFilters).length` is truthy. */
  predicate FiltersExist(customFilters: Option<Obj>) {
    customFilters.Some? && customFilters.value != []
  }

  // ---------------------------------------------------------------------
  // The parameter fold

  /** The `Object.entries(params).reduce(...)` fold: walks the entries in
      order and copies `[key]: param` into the accumulator whenever
      `customFilters[key]` is truthy. The value copied is the variant's own
      `param`, never the filter's. */
  function KeepFiltered(params: Obj, filters: Obj): (r: Obj)
    ensures Keys(r) == set k | k in Keys(params) && Truthy(Get(filters, k))
    decreases |params|
  {
    if params == [] then []
    else
      var n := |params| - 1;
      var acc := KeepFiltered(params[..n], filters);
      var (key, param) := params[n];
      assert params == params[..n] + [params[n]];
      KeysAppend(params[..n], [params[n]]);
      assert Keys([params[n]]) == {key};
      if Truthy(Get(filters, key)) then Put(acc, key, param) else acc
  }

  /** Reference definition: the entries of `params` whose key is truthy in
      `filters`, in their original order. */
  function Select(params: Obj, filters: Obj): (r: Obj)
    ensures Keys(r) <= Keys(params)
    ensures Unique(params) ==> Unique(r)
  {
    if params == [] then []
    else if Truthy(Get(filters, params[0].0)) then [params[0]] + Select(params[1..], filters)
    else Select(params[1..], filters)
  }

  lemma {:induction false} SelectAppend(a: Obj, e: (string, JsValue), filters: Obj)
    ensures Select(a + [e], filters) ==
      Select(a, filters) + (if Truthy(Get(filters, e.0)) then [e] else [])
  {
    if a == [] {
      assert a + [e] == [e];
    } else {
      assert (a + [e])[1..] == a[1..] + [e];
      SelectAppend(a[1..], e, filters);
    }
  }

  /** Each kept key maps to the value the source object gives it. */
  lemma {:induction false} SelectValues(params: Obj, filters: Obj, k: string)
    requires Unique(params)
    requires k in Keys(Select(params, filters))
    ensures Get(Select(params, filters), k) == Get(params, k)
  {
    if params[0].0 != k {
      SelectValues(params[1..], filters, k);
    }
  }

  /** With unique keys (as `Object.entries` always yields) the fold is
      exactly the filter: same entries, same order, keys still unique, and
      each kept key carries the variant's value. */
  lemma {:induction false} KeptParameters(params: Obj, filters: Obj)
    requires Unique(params)
    ensures KeepFiltered(params, filters) == Select(params, filters)
    ensures Unique(KeepFiltered(params, filters))
    ensures forall k :: k in Keys(KeepFiltered(params, filters)) ==>
      Get(KeepFiltered(params, filters), k) == Get(params, k)
  {
    if params != [] {
      var n := |params| - 1;
      var e := params[n];
      assert params == params[..n] + [e];
      UniqueAppend(params[..n], e);
      KeptParameters(params[..n], filters);
      SelectAppend(params[..n], e, filters);
    }
    assert KeepFiltered(params, filters) == Select(params, filters);
    forall k | k in Keys(KeepFiltered(params, filters))
      ensures Get(KeepFiltered(params, filters), k) == Get(params, k)
    {
      SelectValues(params, filters, k);
    }
  }

  // ---------------------------------------------------------------------
  // Variant selection

  /** `getConfigurableParameters` as written. The match branch is guarded by
      `Number.isNaN(index)`, so it is entered only when the resolver finds
      nothing, and then `variants[NaN]` is `undefined` and destructuring it
      throws. The card therefore never selects a variant. */
  function ConfigurableParameters(props: Props, getVariantIndex: VariantIndexFn): (r: Result<Selection>)
    ensures r.Ok? ==> r.value == NoSelection
    ensures r.TypeError? <==>
      && props.product.variants.Some?
      && FiltersExist(props.customFilters)
      && IsNaN(getVariantIndex(props.product.variants.value, props.customFilters.value))
  {
    var variants := props.product.variants;
    if variants.Some? && FiltersExist(props.customFilters) then
      var index := getVariantIndex(variants.value, props.customFilters.value);
      if IsNaN(index) then TypeError
      else Ok(NoSelection)
    else Ok(NoSelection)
  }

  /** `getConfigurableParameters` with the guard the surrounding code
      evidently intends, `!Number.isNaN(index)`. An index outside the array
      still throws, as `variants[index].product` does. */
  function ConfigurableParametersFixed(props: Props, getVariantIndex: VariantIndexFn): (r: Result<Selection>)
    ensures r.Ok? && r.value.index != 0 ==>
      props.product.variants.Some? && 0 <= r.value.index < |props.product.variants.value|
  {
    var variants := props.product.variants;
    if variants.Some? && FiltersExist(props.customFilters) then
      var filters := props.customFilters.value;
      var index := getVariantIndex(variants.value, filters);
      if IsNaN(index) then Ok(NoSelection)
      else if 0 <= index.i < |variants.value| then
        Ok(Selection(index.i, KeepFiltered(variants.value[index.i].product.parameters, filters)))
      else TypeError
    else Ok(NoSelection)
  }

  /** Without variants, or without a filter key (the default `{}` included),
      both versions return `{ index: 0, parameters: {} }`. */
  lemma NoFiltersNoSelection(props: Props, getVariantIndex: VariantIndexFn)
    requires props.product.variants.None? || props.customFilters.None?
      || props.customFilters == Some(DefaultCustomFilters)
    ensures ConfigurableParameters(props, getVariantIndex) == Ok(NoSelection)
    ensures ConfigurableParametersFixed(props, getVariantIndex) == Ok(NoSelection)
  {
  }

  /** As written, a resolver that answers with any number is ignored. */
  lemma NumericIndexIgnored(props: Props, getVariantIndex: VariantIndexFn)
    requires props.product.variants.Some? && FiltersExist(props.customFilters)
    requires !IsNaN(getVariantIndex(props.product.variants.value, props.customFilters.value))
    ensures ConfigurableParameters(props, getVariantIndex) == Ok(NoSelection)
  {
  }

  /** The corrected selection takes the resolver's index and keeps exactly
      the variant parameters whose filter is truthy, with the variant's values. */
  lemma FixedSelectsResolvedVariant(props: Props, getVariantIndex: VariantIndexFn, i: int)
    requires props.product.variants.Some? && FiltersExist(props.customFilters)
    requires getVariantIndex(props.product.variants.value, props.customFilters.value) == Int(i)
    requires 0 <= i < |props.product.variants.value|
    requires Unique(props.product.variants.value[i].product.parameters)
    ensures var r := ConfigurableParametersFixed(props, getVariantIndex);
      var params := props.product.variants.value[i].product.parameters;
      var filters := props.customFilters.value;
      && r.Ok? && r.value.index == i
      && Unique(r.value.parameters)
      && Keys(r.value.parameters) == set k | k in Keys(params) && Truthy(Get(filters, k))
      && (forall k :: k in Keys(r.value.parameters) ==> Get(r.value.parameters, k) == Get(params, k))
  {
    KeptParameters(props.product.variants.value[i].product.parameters, props.customFilters.value);
  }

  /** The corrected selection falls back to the default when the resolver
      finds nothing, and throws on an index outside the array. */
  lemma FixedFallbacks(props: Props, getVariantIndex: VariantIndexFn)
    requires props.product.variants.Some? && FiltersExist(props.customFilters)
    ensures var index := getVariantIndex(props.product.variants.value, props.customFilters.value);
      && (IsNaN(index) ==> ConfigurableParametersFixed(props, getVariantIndex) == Ok(NoSelection))
      && (index.Int? && !(0 <= index.i < |props.product.variants.value|) ==>
            ConfigurableParametersFixed(props, getVariantIndex).TypeError?)
  {
  }

  // ---------------------------------------------------------------------
  // Link targets

  /** `getLinkTo(parameters)`: nothing while `url_key` is falsy (missing or
      empty); otherwise the product page with the product as router state
      and the parameters as query string. */
  function LinkTo(product: Product, parameters: Obj, qs: QueryStringFn): (r: Option<Location>)
    ensures r.None? <==> !Truthy(OptStr(product.urlKey))
    ensures r.Some? ==>
      && r.value.pathname == Some("/product/" + product.urlKey.value)
      && r.value.state == Some(product)
      && r.value.search == Some(qs(parameters))
      && r.value.hash == None
  {
    if !Truthy(OptStr(product.urlKey)) then None
    else Some(Location(Some("/product/" + product.urlKey.value), Some(product), Some(qs(parameters)), None))
  }

  /** The review deep link, `{ ...linkTo, hash: '#reviews' }`, rendered only
      when the product has a review summary with a truthy review count. */
  function ReviewLinkTo(product: Product, linkTo: Option<Location>): (r: Option<Location>)
    ensures r.Some? <==> product.reviewSummary.Some? && Truthy(product.reviewSummary.value.reviewCount)
    ensures r.Some? ==>
      && r.value.hash == Some("#reviews")
      && r.value.pathname == (if linkTo.Some? then linkTo.value.pathname else None)
      && r.value.state == (if linkTo.Some? then linkTo.value.state else None)
      && r.value.search == (if linkTo.Some? then linkTo.value.search else None)
  {
    if product.reviewSummary.None? || !Truthy(product.reviewSummary.value.reviewCount) then None
    else
      var base := if linkTo.Some? then linkTo.value else Location(None, None, None, None);
      Some(base.(hash := Some("#reviews")))
  }

  /** The review link is the card's own link with only the fragment added. */
  lemma ReviewLinkAddsOnlyHash(product: Product, parameters: Obj, qs: QueryStringFn)
    requires Truthy(OptStr(product.urlKey))
    requires product.reviewSummary.Some? && Truthy(product.reviewSummary.value.reviewCount)
    ensures var link := LinkTo(product, parameters, qs);
      ReviewLinkTo(product, link) == Some(link.value.(hash := Some("#reviews")))
  {
  }

  // ---------------------------------------------------------------------
  // Presentation facts

  /** `getThumbnail(index)`: the variant's thumbnail path when it is a
      non-empty string, otherwise `thumbnail && thumbnail.path` of the base
      product. Reading the variant throws when the index is outside the
      array or the variant has no thumbnail. */
  function ThumbnailOf(product: Product, index: int): (r: Result<Option<string>>)
    ensures product.variants.None? ==>
      r == Ok(if product.thumbnail.Some? then product.thumbnail.value.path else None)
    ensures product.variants.Some? ==>
      var vs := product.variants.value;
      if !(0 <= index < |vs|) || vs[index].product.thumbnail.None? then r.TypeError?
      else if Truthy(OptStr(vs[index].product.thumbnail.value.path)) then
        r == Ok(vs[index].product.thumbnail.value.path)
      else r == Ok(if product.thumbnail.Some? then product.thumbnail.value.path else None)
  {
    var variantThumbnail :=
      if product.variants.None? then Ok(None)
      else VariantThumbnailPath(product.variants.value, index);
    match variantThumbnail
    case TypeError => TypeError
    case Ok(path) =>
      if Truthy(OptStr(path)) then Ok(path)
      else Ok(match product.thumbnail case None => None case Some(t) => t.path)
  }

  /** `variants[index].product.thumbnail.path`. */
  function VariantThumbnailPath(variants: seq<Variant>, index: int): Result<Option<string>>
  {
    if 0 <= index < |variants| then
      match variants[index].product.thumbnail
      case None => TypeError
      case Some(t) => Ok(t.path)
    else TypeError
  }

  /** The price `render` shows: the variant's for a configurable product
      with variants, otherwise the product's own, whatever the index. */
  function PriceOf(product: Product, index: int): (r: Result<JsValue>)
    ensures product.typeId != "configurable" || product.variants.None? ==> r == Ok(product.price)
    ensures product.typeId == "configurable" && product.variants.Some? ==>
      var vs := product.variants.value;
      r == if 0 <= index < |vs| then Ok(vs[index].product.price) else TypeError
  {
    if product.typeId == "configurable" && product.variants.Some? then
      var vs := product.variants.value;
      if 0 <= index < |vs| then Ok(vs[index].product.price) else TypeError
    else Ok(product.price)
  }

  /** Outside the configurable-with-variants case the selected index has no
      effect on the price, and the price never throws. */
  lemma PriceIgnoresIndex(product: Product, i: int, j: int)
    requires product.typeId != "configurable" || product.variants.None?
    ensures PriceOf(product, i) == PriceOf(product, j) == Ok(product.price)
  {
  }

  /** `renderAddOrConfigureButton(notReady, linkTo)`. */
  function ActionButton(notReady: bool, typeId: string): (b: Button)
    ensures b == Placeholder <==> notReady
    ensures b == ConfigureLink <==> !notReady && typeId == "configurable"
    ensures b == ViewDetailsLink <==> !notReady && typeId == "grouped"
    ensures b == AddToCart <==> !notReady && typeId != "configurable" && typeId != "grouped"
  {
    if notReady then Placeholder
    else if typeId == "configurable" then ConfigureLink
    else if typeId == "grouped" then ViewDetailsLink
    else AddToCart
  }

  // ---------------------------------------------------------------------
  // The card

  /** What `render` derives from the props. */
  datatype CardFacts = CardFacts(
    thumbnail: Option<string>,
    isLoading: bool,
    linkTo: Option<Location>,
    price: JsValue,
    button: Button,
    reviewLink: Option<Location>)

  /** `render` from the selection onwards: every derived fact, or the
      `TypeError` that one of the reads throws. */
  function Derive(props: Props, selection: Result<Selection>, qs: QueryStringFn): (r: Result<CardFacts>)
    ensures r.Ok? <==>
      && selection.Ok?
      && ThumbnailOf(props.product, selection.value.index).Ok?
      && PriceOf(props.product, selection.value.index).Ok?
    ensures r.Ok? ==>
      && Ok(r.value.price) == PriceOf(props.product, selection.value.index)
      && Ok(r.value.thumbnail) == ThumbnailOf(props.product, selection.value.index)
      && (r.value.isLoading <==> !Truthy(OptStr(props.product.urlKey)))
      && (r.value.isLoading <==> r.value.linkTo.None?)
      && r.value.linkTo == LinkTo(props.product, selection.value.parameters, qs)
      // corollary of the link clause and the contract of LinkTo
      && (r.value.linkTo.Some? ==> r.value.linkTo.value.search == Some(qs(selection.value.parameters)))
      && r.value.button == ActionButton(!Truthy(r.value.price), props.product.typeId)
      // corollary of the button clause and the contract of ActionButton
      && (r.value.button == Placeholder <==> !Truthy(r.value.price))
      && r.value.reviewLink == ReviewLinkTo(props.product, r.value.linkTo)
  {
    match selection
    case TypeError => TypeError
    case Ok(sel) =>
      var product := props.product;
      var thumbnail := ThumbnailOf(product, sel.index);
      var linkTo := LinkTo(product, sel.parameters, qs);
      var price := PriceOf(product, sel.index);
      if thumbnail.TypeError? || price.TypeError? then TypeError
      else
        Ok(CardFacts(
          thumbnail.value,
          !Truthy(OptStr(product.urlKey)),
          linkTo,
          price.value,
          ActionButton(!Truthy(price.value), product.typeId),
          ReviewLinkTo(product, linkTo)))
  }

  /** `render` as written: whenever it renders, it shows the variant at
      index 0 and links without parameters, whatever the filters. */
  function RenderAsWritten(props: Props, getVariantIndex: VariantIndexFn, qs: QueryStringFn): (r: Result<CardFacts>)
    ensures r.Ok? <==>
      && ConfigurableParameters(props, getVariantIndex).Ok?
      && ThumbnailOf(props.product, 0).Ok?
      && PriceOf(props.product, 0).Ok?
    ensures r.Ok? ==>
      && Ok(r.value.price) == PriceOf(props.product, 0)
      && Ok(r.value.thumbnail) == ThumbnailOf(props.product, 0)
      && (r.value.linkTo.Some? ==> r.value.linkTo.value.search == Some(qs([])))
  {
    Derive(props, ConfigurableParameters(props, getVariantIndex), qs)
  }

  /** `render` with the corrected variant selection: a resolved in-range
      index decides thumbnail and price, and the link carries that
      variant's filtered parameters. */
  function Render(props: Props, getVariantIndex: VariantIndexFn, qs: QueryStringFn): (r: Result<CardFacts>)
    ensures var sel := ConfigurableParametersFixed(props, getVariantIndex);
      r.Ok? <==>
        && sel.Ok?
        && ThumbnailOf(props.product, sel.value.index).Ok?
        && PriceOf(props.product, sel.value.index).Ok?
    ensures forall i ::
      && r.Ok?
      && props.product.variants.Some? && FiltersExist(props.customFilters)
      && getVariantIndex(props.product.variants.value, props.customFilters.value) == Int(i)
      ==>
      && Ok(r.value.price) == PriceOf(props.product, i)
      && Ok(r.value.thumbnail) == ThumbnailOf(props.product, i)
      && (r.value.linkTo.Some? ==>
            var params := props.product.variants.value[i].product.parameters;
            r.value.linkTo.value.search == Some(qs(KeepFiltered(params, props.customFilters.value))))
    ensures var consulted := props.product.variants.Some? && FiltersExist(props.customFilters);
      r.Ok? && !(consulted && getVariantIndex(props.product.variants.value, props.customFilters.value).Int?) ==>
      && Ok(r.value.price) == PriceOf(props.product, 0)
      && Ok(r.value.thumbnail) == ThumbnailOf(props.product, 0)
      && (r.value.linkTo.Some? ==> r.value.linkTo.value.search == Some(qs([])))
  {
    Derive(props, ConfigurableParametersFixed(props, getVariantIndex), qs)
  }

  /** An empty `variants` array is truthy, so the card never falls back to
      the base product: both versions throw, either when the selection
      reads `variants[index]` or when `getThumbnail(0)` does. */
  lemma EmptyVariantsThrow(props: Props, getVariantIndex: VariantIndexFn, qs: QueryStringFn)
    requires props.product.variants == Some([])
    ensures RenderAsWritten(props, getVariantIndex, qs) == TypeError
    ensures Render(props, getVariantIndex, qs) == TypeError
  {
  }

  /** As written, the filters never reach the card: whenever it renders, it
      renders exactly what it would with no filters at all. */
  lemma AsWrittenIgnoresFilters(props: Props, getVariantIndex: VariantIndexFn, qs: QueryStringFn)
    ensures var r := RenderAsWritten(props, getVariantIndex, qs);
      r.Ok? ==> r == RenderAsWritten(props.(customFilters := Some(DefaultCustomFilters)), getVariantIndex, qs)
  {
  }

  // ---------------------------------------------------------------------
  // A worked example: a cap in blue and red, with red selected

  function Cap(): Product
  {
    var blue := Product(None, "simple", Some(Thumbnail(Some("/b.jpg"))), Number(Int(10)), None,
                        [("color", Str("blue"))], None);
    var red := Product(None, "simple", Some(Thumbnail(Some("/r.jpg"))), Number(Int(12)), None,
                       [("color", Str("red"))], None);
    Product(Some("cap"), "configurable", None, Null, Some([Variant(blue), Variant(red)]), [], None)
  }

  const RedFilter: Obj := [("color", Str("red"))]

  /** A resolver that finds the red variant renders it; the card as written
      renders the blue one and links without the colour. */
  lemma RedCapScenario(getVariantIndex: VariantIndexFn, qs: QueryStringFn)
    requires getVariantIndex(Cap().variants.value, RedFilter) == Int(1)
    ensures var r := Render(Props(Cap(), Some(RedFilter)), getVariantIndex, qs);
      && r.Ok?
      && r.value.thumbnail == Some("/r.jpg")
      && r.value.price == Number(Int(12))
      && r.value.button == ConfigureLink
      && r.value.linkTo.value.pathname == Some("/product/cap")
      && r.value.linkTo.value.search == Some(qs(RedFilter))
    ensures var w := RenderAsWritten(Props(Cap(), Some(RedFilter)), getVariantIndex, qs);
      && w.Ok?
      && w.value.thumbnail == Some("/b.jpg")
      && w.value.price == Number(Int(10))
      && w.value.linkTo.value.search == Some(qs([]))
  {
    var params := Cap().variants.value[1].product.parameters;
    assert params == RedFilter;
    assert "/product/" + "cap" == "/product/cap";
    assert KeepFiltered(params, RedFilter) == RedFilter by {
      assert params[..0] == [];
    }
  }
}
