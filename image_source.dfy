/**
 * Resolution of an image's real source from its data attributes:
 * `img.dataset[`src_${deviceType}`] || img.dataset.src`.
 */
module ImageSource {
  import opened Wrappers
  import opened Viewport

  /** An element's `dataset`: attribute names without the `data-` prefix, mapped to their values. */
  type Dataset = map<string, string>

  /** The key of the generic fallback attribute `data-src`. */
  const FallbackKey: string := "src"

  /** The key of the per-tier attribute, `src_desktop`, `src_tablet` or `src_mobile`. */
  function TierKey(t: DeviceType): string
  {
    "src_" + Name(t)
  }

  /** Reading a dataset entry: an absent attribute reads as `undefined`. */
  function Lookup(ds: Dataset, key: string): Option<string>
  {
    if key in ds then Some(ds[key]) else None
  }

  /** JavaScript truthiness of a string-or-undefined: `undefined` and `""` are falsy. */
  predicate Truthy(v: Option<string>)
  {
    v.Some? && v.value != ""
  }

  /** JavaScript `a || b`: the left operand when it is truthy, the right one otherwise. */
  function JsOr(a: Option<string>, b: Option<string>): Option<string>
  {
    if Truthy(a) then a else b
  }

  /** What an assignment to `img.src` stores: `undefined` is converted to the string "undefined". */
  function JsString(v: Option<string>): string
  {
    match v
    case Some(s) => s
    case None => "undefined"
  }

  /** The source an image should show on a tier: the per-tier attribute if non-empty, else the fallback. */
  function Resolve(ds: Dataset, t: DeviceType): (r: Option<string>)
    ensures Truthy(r) <==> Truthy(Lookup(ds, TierKey(t))) || Truthy(Lookup(ds, FallbackKey))
    ensures Truthy(Lookup(ds, TierKey(t))) ==> r == Some(ds[TierKey(t)])
    ensures !Truthy(Lookup(ds, TierKey(t))) ==> r == Lookup(ds, FallbackKey)
  {
    JsOr(Lookup(ds, TierKey(t)), Lookup(ds, FallbackKey))
  }

  /** No tier key is the fallback key, and distinct tiers read distinct keys. */
  lemma TierKeysDistinct(t1: DeviceType, t2: DeviceType)
    ensures TierKey(t1) != FallbackKey
    ensures TierKey(t1) == TierKey(t2) ==> t1 == t2
  {
    assert |TierKey(t1)| > |FallbackKey|;
    if TierKey(t1) == TierKey(t2) {
      assert Name(t1) == TierKey(t1)[4..] && Name(t2) == TierKey(t2)[4..];
      NamesDistinct(t1, t2);
    }
  }

  /** Resolution reads only the tier's own attribute and the fallback: other entries never matter. */
  lemma ResolveReadsTwoKeys(ds1: Dataset, ds2: Dataset, t: DeviceType)
    requires Lookup(ds1, TierKey(t)) == Lookup(ds2, TierKey(t))
    requires Lookup(ds1, FallbackKey) == Lookup(ds2, FallbackKey)
    ensures Resolve(ds1, t) == Resolve(ds2, t)
  {
  }
}
