/** The data the dashboard receives from the indexer, and the JavaScript
    number values its limit arithmetic works on. */
module Records {
  import opened Optional

  /** One `GeneralizedLiquidation` record as the indexer returns it. The
      optional asset fields may be absent or null; both read as `None`. */
  datatype Liquidation = Liquidation(
    id: string,
    chainId: int,
    timestamp: string,
    protocol: string,
    borrower: string,
    liquidator: string,
    txHash: string,
    collateralAsset: Option<string>,
    debtAsset: Option<string>,
    repaidAssets: Option<string>,
    seizedAssets: Option<string>)

  /** A decoded JSON response body: either it has no `data` object, or it has
      one whose `GeneralizedLiquidation` list may be missing. */
  datatype Payload = NoData | Data(liquidations: Option<seq<Liquidation>>)

  /** `json.data?.GeneralizedLiquidation ?? []`. */
  function Rows(p: Payload): (rows: seq<Liquidation>)
    ensures p.Data? && p.liquidations.Some? ==> rows == p.liquidations.value
    ensures (p.NoData? || p.liquidations.None?) ==> rows == []
  {
    match p
    case NoData => []
    case Data(list) => list.GetOr([])
  }

  /** A JavaScript number as `Number(...)` may produce it: a finite value or
      one of the three non-finite values. Signed zero is not distinguished. */
  datatype JsNumber = Finite(value: real) | NaN | PosInfinity | NegInfinity {

    /** `Number.isFinite`. */
    predicate IsFinite() {
      Finite?
    }
  }

  /** `Math.min(a, b)`: NaN if either argument is NaN. */
  function JsMin(a: JsNumber, b: JsNumber): (r: JsNumber)
    ensures r.NaN? <==> a.NaN? || b.NaN?
    ensures a.Finite? && b.Finite? ==>
              r.Finite? && r.value <= a.value && r.value <= b.value && (r.value == a.value || r.value == b.value)
  {
    if a.NaN? || b.NaN? then NaN
    else if a.NegInfinity? || b.NegInfinity? then NegInfinity
    else if a.PosInfinity? then b
    else if b.PosInfinity? then a
    else if a.value <= b.value then a else b
  }

  /** `Math.max(a, b)`: NaN if either argument is NaN. */
  function JsMax(a: JsNumber, b: JsNumber): (r: JsNumber)
    ensures r.NaN? <==> a.NaN? || b.NaN?
    ensures a.Finite? && b.Finite? ==>
              r.Finite? && r.value >= a.value && r.value >= b.value && (r.value == a.value || r.value == b.value)
  {
    if a.NaN? || b.NaN? then NaN
    else if a.PosInfinity? || b.PosInfinity? then PosInfinity
    else if a.NegInfinity? then b
    else if b.NegInfinity? then a
    else if a.value >= b.value then a else b
  }

  /** JavaScript truthiness of a number: false exactly for NaN and zero. */
  predicate Truthy(n: JsNumber) {
    !n.NaN? && n != Finite(0.0)
  }

  /** `n || fallback` on numbers. */
  function OrElse(n: JsNumber, fallback: JsNumber): JsNumber {
    if Truthy(n) then n else fallback
  }
}
