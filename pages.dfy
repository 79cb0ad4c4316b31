/** The server-rendered pages: the `limit` query parameter of the home page
    and the leaderboard, and the leaderboard's table rows. */
module Pages {
  import opened Optional
  import opened Records
  import opened Network
  import opened Format

  // ---------------------------------------------------------------------------
  // The limit parameter
  // ---------------------------------------------------------------------------

  /** The `limit` search parameter: absent, given once, or repeated. Each
      given value is already read by `Number(...)`. */
  datatype LimitParam = Absent | One(parsed: JsNumber) | Many(values: seq<JsNumber>)

  /** `Array.isArray(sp.limit) ? sp.limit[0] : sp.limit`: a repeated
      parameter counts by its first value. */
  function RawLimit(param: LimitParam): (raw: Option<JsNumber>)
    ensures param.Many? && |param.values| > 0 ==> raw == Some(param.values[0])
    ensures raw.None? <==> param.Absent? || (param.Many? && |param.values| == 0)
  {
    match param
    case Absent => None
    case One(n) => Some(n)
    case Many(ns) => if |ns| > 0 then Some(ns[0]) else None
  }

  /** `Math.max(1, Math.min(100, Number(rawLimit ?? d))) || d`, for a default
      `d` inside the range. */
  function PageLimit(param: LimitParam, default: real): (limit: real)
    requires 1.0 <= default <= 100.0
    ensures 1.0 <= limit <= 100.0
    ensures RawLimit(param).None? ==> limit == default
    ensures RawLimit(param) == Some(NaN) ==> limit == default
    ensures RawLimit(param) == Some(PosInfinity) ==> limit == 100.0
    ensures RawLimit(param) == Some(NegInfinity) ==> limit == 1.0
    ensures RawLimit(param).Some? && RawLimit(param).value.Finite? ==>
              var x := RawLimit(param).value.value;
              && (x < 1.0 ==> limit == 1.0)
              && (x > 100.0 ==> limit == 100.0)
              && (1.0 <= x <= 100.0 ==> limit == x)
  {
    var requested := RawLimit(param).GetOr(Finite(default));
    OrElse(JsMax(Finite(1.0), JsMin(Finite(100.0), requested)), Finite(default)).value
  }

  /** The home page's limit: 10 by default. */
  function HomeLimit(param: LimitParam): (limit: real)
    ensures 1.0 <= limit <= 100.0
    ensures RawLimit(param).None? || RawLimit(param) == Some(NaN) ==> limit == 10.0
  {
    PageLimit(param, 10.0)
  }

  /** The leaderboard's limit: 50 by default. */
  function LeaderboardLimit(param: LimitParam): (limit: real)
    ensures 1.0 <= limit <= 100.0
    ensures RawLimit(param).None? || RawLimit(param) == Some(NaN) ==> limit == 50.0
  {
    PageLimit(param, 50.0)
  }

  /** The limit a page settles on is a fixed point: requesting it again gives
      it again. */
  lemma PageLimitIdempotent(param: LimitParam, default: real)
    requires 1.0 <= default <= 100.0
    ensures PageLimit(One(Finite(PageLimit(param, default))), default) == PageLimit(param, default)
  {
  }

  /** `?limit=0` and `?limit=` (which `Number` reads as 0) show one row: zero
      is clamped up before `|| d` could replace it. */
  lemma ZeroLimitShowsOneRow()
    ensures HomeLimit(One(Finite(0.0))) == 1.0
    ensures LeaderboardLimit(One(Finite(0.0))) == 1.0
  {
  }

  // ---------------------------------------------------------------------------
  // Leaderboard rows
  // ---------------------------------------------------------------------------

  /** One row of the `Liquidator` query. */
  datatype LiquidatorRow = LiquidatorRow(
    id: string,
    liquidator: string,
    chainId: Option<int>,
    aaveLiquidations: string,
    eulerLiquidations: string,
    morphoLiquidations: string,
    totalLiquidations: string,
    firstLiquidationTimestamp: Option<string>,
    lastLiquidationTimestamp: Option<string>)

  /** The chain badge: its colour classes, icon and name. */
  datatype ChainBadge = ChainBadge(color: string, icon: Option<IconElement>, name: string)

  /** What a table row shows: its rank, the liquidator's explorer link and
      shortened address, and the chain badge (`None` renders `-`). */
  datatype RenderedRow = RenderedRow(
    rank: int,
    liquidatorLink: string,
    liquidatorText: string,
    chain: Option<ChainBadge>,
    totalLiquidations: string)

  /** The chain id a link is built for: a missing one stands for Ethereum. */
  function LinkChain(row: LiquidatorRow): int {
    row.chainId.GetOr(1)
  }

  /** The badge is shown only for a truthy chain id: present and not 0. */
  function Badge(row: LiquidatorRow): (badge: Option<ChainBadge>)
    ensures badge.Some? <==> row.chainId.Some? && row.chainId.value != 0
    ensures badge.Some? ==> badge.value.name == GetChainName(row.chainId.value)
                            && badge.value.color == GetChainColor(row.chainId.value)
                            && (badge.value.icon.Some? <==> row.chainId.value in NetworkConfigs)
  {
    match row.chainId
    case Some(c) =>
      if c != 0 then Some(ChainBadge(GetChainColor(c), GetNetworkIcon(c, Some(16), None, None), GetChainName(c)))
      else None
    case None => None
  }

  function RenderRow(row: LiquidatorRow, index: nat): RenderedRow {
    RenderedRow(index + 1, GetAddressUrl(LinkChain(row), row.liquidator),
                FormatAddressAsWritten(Some(row.liquidator), 4), Badge(row), row.totalLiquidations)
  }

  /** `rows.map((r, idx) => ...)`: one rendered row per fetched row, in the
      fetched order, ranked from 1 upwards. */
  function RenderRows(rows: seq<LiquidatorRow>): (rendered: seq<RenderedRow>)
    ensures |rendered| == |rows|
    ensures forall i :: 0 <= i < |rows| ==> rendered[i] == RenderRow(rows[i], i)
  {
    seq(|rows|, i requires 0 <= i < |rows| => RenderRow(rows[i], i))
  }

  /** Ranks run 1, 2, ..., n down the table, so they are distinct, increasing,
      and the row ranked k is the k-th row the query returned. */
  lemma RanksFollowOrder(rows: seq<LiquidatorRow>)
    ensures var rendered := RenderRows(rows);
            && (forall i :: 0 <= i < |rendered| ==> rendered[i].rank == i + 1)
            && (forall i, j :: 0 <= i < j < |rendered| ==> rendered[i].rank < rendered[j].rank)
            && (forall i :: 0 <= i < |rendered| ==>
                  rendered[i].totalLiquidations == rows[rendered[i].rank - 1].totalLiquidations)
  {
    var rendered := RenderRows(rows);
    forall i | 0 <= i < |rendered|
      ensures rendered[i].rank == i + 1 && rendered[i].totalLiquidations == rows[i].totalLiquidations
    {
      RenderRowKeepsRankAndTotal(rows[i], i);
    }
  }

  lemma RenderRowKeepsRankAndTotal(row: LiquidatorRow, index: nat)
    ensures RenderRow(row, index).rank == index + 1
    ensures RenderRow(row, index).totalLiquidations == row.totalLiquidations
  {
  }

  /** The liquidator column shows `-` for an empty address, and otherwise
      the first six and the last four characters of a full address around
      the separator of lib/utils.ts as written. */
  lemma LiquidatorTextShowsEnds(row: LiquidatorRow, index: nat)
    ensures row.liquidator == "" ==> RenderRow(row, index).liquidatorText == "-"
    ensures |row.liquidator| >= 10 ==>
              var a := row.liquidator;
              RenderRow(row, index).liquidatorText == a[..6] + MisencodedEllipsis + a[|a| - 4..]
  {
    if |row.liquidator| >= 10 {
      ShortenAddressKeepsEnds(MisencodedEllipsis, row.liquidator, 4);
      var r := RenderRow(row, index).liquidatorText;
      assert r == r[..6] + r[6..9] + r[|r| - 4..];
    }
  }

  /** A row without a chain id links to Etherscan, while a chain id of 0
      links nowhere and shows no badge. */
  lemma MissingChainLinksToEthereum(row: LiquidatorRow)
    ensures row.chainId.None? ==>
              RenderRow(row, 0).liquidatorLink == "https://etherscan.io/address/" + row.liquidator
              && RenderRow(row, 0).chain.None?
    ensures row.chainId == Some(0) ==> RenderRow(row, 0).liquidatorLink == "#" && RenderRow(row, 0).chain.None?
  {
    assert 0 !in NetworkConfigs;
  }
}
