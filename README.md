# liqo dashboard core, modelled in Dafny

liqo is a dashboard of liquidations on lending protocols (Aave, Euler,
Morpho) across several EVM chains. Its data comes from an indexer through a
GraphQL endpoint. This project models the logic of the dashboard's core and
proves what that logic promises.

- **CSV export endpoint** (`app/api/export/route.ts`, module `ExportRoute`):
  - email validation and the clamped `limit`;
  - serialisation of liquidation records as CSV: byte-order mark, fixed
    header, `csvEscape` quoting;
  - the GET handler's status codes and headers.
  - The module `CsvReader` is a reader for the same CSV dialect. It is proved
    to read back exactly the header and every record's fields.
- **Table filters** (`lib/table.ts`, module `Table`):
  - the free-text filter over a record's searchable text;
  - the protocol and chain multi-select filters.
- **Formatters** (`lib/utils.ts`, module `Format`): `formatAddress` and
  `formatToken`, over JavaScript `slice` semantics. This includes negative
  and zero widths. Lengths and cuts count code points, not UTF-16 code
  units; see "## Left out".
- **Chain table** (`lib/network.tsx`, module `Network`): the chain
  configuration and its lookups (name, colour, explorer links, icon).
- **Pages** (`app/page.tsx`, `app/leaderboard/page.tsx`, module `Pages`):
  - the `limit` search parameter, including repeated, missing and
    non-numeric values;
  - the leaderboard's ranked rows.
- **Polling** (`hooks/useLiquidationsData.ts`, module `Polling`;
  `app/components/RecentLiquidations.tsx`, module `RecentLiquidations`):
  - a class per component, holding the in-flight flag, the per-run `aborted`
    flag and the baseline that each effect run compares against;
  - timer ticks, fetch completions, effect restarts and unmounting are
    methods that the environment calls.
- **Download dialog** (`app/components/DownloadCsv.tsx`, module
  `DownloadCsv`):
  - a class with the dialog's state and handlers;
  - the request URL it builds, which is proved to carry the email and the
    limit.
  - `FormUrlencoded` and `Utf8` model the `URLSearchParams` serialisation
    the URL uses: UTF-8, then percent-encoding with `+` for space.
- **Shared modules:** `Optional`, `Text` (decimal text, ASCII lower-casing,
  substring search, `join`, `slice`) and `Records` (the liquidation record,
  the response payload and JavaScript numbers with `Math.min` and
  `Math.max`).

## Model

| member | source | states |
|---|---|---|
| ExportRoute.EmailPatternIsShape | app/api/export/route.ts:10-14 | The regular expression `^[^\s@]+@[^\s@]+\.[^\s@]+$` matches exactly the strings that have one `@`, with a non-empty local part before it and, after it, non-empty runs on both sides of some dot, none containing whitespace or `@` |
| ExportRoute.IsValidEmail | app/api/export/route.ts:10-14 | A missing or empty email is rejected; otherwise the email is valid if and only if it has that shape |
| ExportRoute.CsvEscape | app/api/export/route.ts:30-36 | An absent value becomes empty text; a value without quote, comma or line feed is written unchanged; any other value is wrapped in quotes |
| ExportRoute.RowTextsAreStringified | app/api/export/route.ts:52-66 | The cells of a data line stringify to the record's ten fields in header order, with empty text for absent optional fields and the decimal chain id |
| ExportRoute.ToCsv | app/api/export/route.ts:38-72 | The document starts with the byte-order mark; with no rows it is the header line followed by a line feed |
| ExportRoute.BareCarriageReturnNotQuoted | app/api/export/route.ts:32 | A field holding a carriage return but none of the three special characters is written unquoted |
| ExportRoute.ExportLimit | app/api/export/route.ts:78-82 | The limit lies in [1, 10000]; a missing or non-finite parameter gives 1000; a finite one is clamped into the range |
| ExportRoute.HandleExport | app/api/export/route.ts:74-142 | An invalid email gives 400 without any upstream request; otherwise upstream is asked with the clamped limit. A response that is not ok gives 502; a rejected fetch or a body that is not JSON gives 500 "Failed to generate CSV". The status is 200 exactly when the email is valid and upstream returned JSON. The 200 response carries the CSV of the returned rows as `text/csv; charset=utf-8` with `no-store, max-age=0`, and for an integral limit the `Content-Disposition` names the file `liqo_recent_<limit>.csv` |
| ExportRoute.LimitText | app/api/export/route.ts:132 | The limit has a text exactly when it is integral, and that text reads back as the limit |
| ExportRoute.AttachmentNamedAfterClampedLimit | app/api/export/route.ts:78-82 | For an integral requested limit, or none, the attachment is named after the clamped limit: the limit itself within [1, 10000], 1 below, 10000 above, 1000 when missing |
| ExportRoute.FilenameCarriesLimit | app/api/export/route.ts:132 | The attachment name is `liqo_recent_`, the limit's digits and `.csv`, and those digits read back as the limit |
| CsvReader.QuotedFieldRoundTrip | app/api/export/route.ts:30-36 | Reading a quoted, quote-doubled field gives back the original text and stops at the next separator |
| CsvReader.FieldRoundTrip | app/api/export/route.ts:30-36 | Reading any escaped cell followed by a separator gives back its stringified value and the remaining input |
| CsvReader.RecordRoundTrip | app/api/export/route.ts:52-66 | Reading comma-joined escaped cells gives back the list of stringified values |
| CsvReader.LinesRoundTrip | app/api/export/route.ts:52-69 | Reading the data lines joined by line feeds gives back one record per row |
| CsvReader.HeaderRoundTrip | app/api/export/route.ts:39-50 | The header line reads back as the ten column names |
| CsvReader.DocumentRoundTrip | app/api/export/route.ts:38-72 | Reading an exported document gives back the header followed by each row's ten field texts, in row order |
| Table.MultiColumnFilter | lib/table.ts:5-20 | A missing or empty filter value matches every row |
| Table.LowerLayout | lib/table.ts:10-18 | Lower-casing the searchable text equals laying out the lower-cased fields |
| Table.LayoutSearch | lib/table.ts:10-19 | A non-empty term without line feed or space occurs in the laid-out text if and only if it occurs in one of the fields |
| Table.SearchMatchesSomeField | lib/table.ts:5-20 | For such a term, a row matches if and only if the lower-cased term occurs in one of the six lower-cased fields: borrower, liquidator, protocol, transaction hash, collateral asset and debt asset (absent assets count as empty) |
| Table.FieldMatchMatchesRow | lib/table.ts:5-20 | A term that occurs in any of those fields matches the row, whatever characters it contains |
| Table.SpaceMatchesEveryRow | lib/table.ts:10-19 | A single space matches every row, because the template's indentation contains one |
| Table.SearchIgnoresTermCase | lib/table.ts:18-19 | Lower-casing the term beforehand does not change which rows match |
| Table.ProtocolFilter | lib/table.ts:22-30 | A missing or empty selection matches every row; otherwise a row matches if and only if its protocol is selected |
| Table.ChainFilter | lib/table.ts:32-40 | A missing or empty selection matches every row; otherwise a row matches if and only if its chain id is selected |
| Table.WiderSelectionKeepsMatches | lib/table.ts:27-29 | Adding a value to a non-empty selection never drops a row that matched |
| Table.FirstSelectionNarrows | lib/table.ts:27-29 | Selecting a first value turns the match-all filter into one that drops the rows of other protocols |
| Format.ShortenAddress | lib/utils.ts:8-11 | A missing or empty address shows `-`; otherwise the result is at least as long as the separator |
| Format.ShortenAddressShape | lib/utils.ts:8-11 | For a positive size the result is the first `2 + size` characters (or all), the separator, and the last `size` characters (or all). A size of 0 keeps the whole address after the separator |
| Format.ShortenAddressKeepsEnds | lib/utils.ts:8-11 | An address of at least `2 + 2*size` characters shows exactly its first `2 + size` and last `size` characters around the separator |
| Format.FormatAddressLength | app/page.tsx:95-98 | A cut address is `2*size + 3` characters long, and the character after the kept prefix is the ellipsis |
| Format.FormatAddressAsWrittenLength | lib/utils.ts:8-11 | With the separator as written in lib/utils.ts, a cut address is `2*size + 5` characters long |
| Format.SeparatorIsMisreadEllipsis | lib/utils.ts:10 | The separator in lib/utils.ts is the three UTF-8 bytes of the ellipsis read as Windows-1252 |
| Format.AsWrittenSeparatorDiffers | lib/utils.ts:10 | For `0x12345678` and size 2, the formatter as written and the pages' copy give different text |
| Format.FormatToken | lib/utils.ts:30-33 | A missing or empty token shows `-`; a token that fits is unchanged; a longer one keeps its first `maxLength` characters followed by `...` |
| Format.FormatTokenIdempotent | lib/utils.ts:30-33 | For any positive width, formatting a formatted token again changes nothing |
| Format.FormatTokenNegativeWidth | lib/utils.ts:32 | A negative width drops that many characters from the end before the dots, as `slice` does |
| Network.TableKeys | lib/network.tsx:30-107 | The table holds exactly the nine chain ids 1, 10, 56, 100, 137, 8453, 42161, 43114 and 534352 |
| Network.EntryWellFormed | lib/network.tsx:30-107 | Each entry is filed under its own chain id and has a non-empty name, a colour other than the default and a non-empty explorer URL |
| Network.GetChainName | lib/network.tsx:112-115 | The name is never empty: the configured name, or `Chain ` and the decimal id |
| Network.ChainNameIdentifiesChain | lib/network.tsx:112-115 | Two chain ids with the same displayed name are equal |
| Network.GetChainColor | lib/network.tsx:139-142 | The configured colour, or the grey default for an unconfigured chain |
| Network.DefaultColorOnlyForUnknownChains | lib/network.tsx:109-110 | A chain shows the default colour if and only if it is not configured |
| Network.GetAddressUrl | lib/network.tsx:144-147 | The URL is `#` if and only if the chain is unconfigured; otherwise it is the explorer's `/address/` page for the address |
| Network.GetTxUrl | lib/network.tsx:149-152 | The URL is `#` if and only if the chain is unconfigured; otherwise it is the explorer's `/tx/` page for the hash |
| Network.ExplorerLinksDistinct | lib/network.tsx:144-152 | On a configured chain an address link never equals a transaction link, and each link ends with the address or hash it was built from |
| Network.GetNetworkIcon | lib/network.tsx:117-137 | No icon if and only if the chain is unconfigured. Otherwise the icon is the chain's own, with size 20, the branded variant and an empty class by default, and `shrink-0` put before the class |
| Network.IconIdentifiesChain | lib/network.tsx:30-107 | No two configured chains share an icon |
| Pages.RawLimit | app/page.tsx:112 | A repeated parameter counts by its first value; a missing one is absent |
| Pages.PageLimit | app/page.tsx:112-113 | The limit lies in [1, 100]. A missing or NaN parameter gives the default, +Infinity gives 100 and -Infinity gives 1; a finite value is clamped |
| Pages.HomeLimit | app/page.tsx:112-113 | The home page's limit lies in [1, 100] and defaults to 10 |
| Pages.LeaderboardLimit | app/leaderboard/page.tsx:68-69 | The leaderboard's limit lies in [1, 100] and defaults to 50 |
| Pages.PageLimitIdempotent | app/page.tsx:113 | Requesting the limit a page settled on gives the same limit again |
| Pages.ZeroLimitShowsOneRow | app/page.tsx:113 | `limit=0` gives 1 on both pages, not the default, because zero is clamped before the fallback to the default is applied |
| Pages.Badge | app/leaderboard/page.tsx:158-170 | A badge is shown if and only if the chain id is present and not 0. It carries the chain's name and colour, and an icon if and only if the chain is configured |
| Pages.RenderRows | app/leaderboard/page.tsx:131-170 | There is one rendered row per fetched row, in the fetched order, with the row at index i rendered as rank i + 1 |
| Pages.RanksFollowOrder | app/leaderboard/page.tsx:133 | Ranks run 1 to n, strictly increasing, and rank k shows the k-th fetched row's total |
| Pages.LiquidatorTextShowsEnds | app/leaderboard/page.tsx:145 | The liquidator column shows `-` for an empty address; for a full address it shows the first six and the last four characters around the separator of lib/utils.ts as written |
| Pages.MissingChainLinksToEthereum | app/leaderboard/page.tsx:137-140 | A row without a chain id links to Etherscan and shows no badge; chain id 0 links to `#` and shows no badge |
| Polling.HasChangeSound | hooks/useLiquidationsData.ts:63-65 | A detected change is a real difference |
| Polling.ChangeBehindSameHeadMissed | hooks/useLiquidationsData.ts:63-65 | With equal lengths, a change behind an unchanged (or empty) first id goes undetected |
| Polling.LiquidationsHook.constructor | hooks/useLiquidationsData.ts:17-18 | The snapshot and the first run's baseline are the initial items, and the first poll is in flight |
| Polling.LiquidationsHook.Tick | hooks/useLiquidationsData.ts:46-48 | A fetch is issued if and only if none is outstanding; nothing else changes |
| Polling.LiquidationsHook.Complete | hooks/useLiquidationsData.ts:56-71 | The flag is cleared on every path. The snapshot is replaced if and only if the response is ok, the issuing run is not aborted and the rows changed against that run's baseline |
| Polling.LiquidationsHook.Restart | hooks/useLiquidationsData.ts:43-82 | The running run is aborted; the new run's baseline is the current snapshot, and its immediate poll is dropped while the old fetch is out |
| Polling.LiquidationsHook.Unmount | hooks/useLiquidationsData.ts:78-81 | After unmounting every run counts as aborted; nothing else changes |
| Polling.StaleBaselineReapplies | hooks/useLiquidationsData.ts:63-66 | A change already taken is detected and applied again at the next poll, because the baseline is the run's captured snapshot |
| Polling.LateResultDropped | hooks/useLiquidationsData.ts:61 | A result arriving after unmount leaves the snapshot unchanged |
| Polling.RestartDuringFetch | hooks/useLiquidationsData.ts:46-61 | After a restart during a fetch, the new run's poll is dropped and the old result is ignored |
| Polling.FailureThenRetry | hooks/useLiquidationsData.ts:56-71 | A failed fetch leaves the snapshot unchanged and frees the flag, so the next tick fetches again |
| RecentLiquidations.RecentLiquidationsPanel.constructor | app/components/RecentLiquidations.tsx:45-46 | The items and the first run's baseline are the server-rendered items, no re-run is pending, and the first poll is in flight |
| RecentLiquidations.RecentLiquidationsPanel.Tick | app/components/RecentLiquidations.tsx:72-74 | A fetch is issued if and only if none is outstanding; nothing else changes |
| RecentLiquidations.RecentLiquidationsPanel.Complete | app/components/RecentLiquidations.tsx:72-98 | Same as the hook's completion, and an update marks the effect for a re-run |
| RecentLiquidations.RecentLiquidationsPanel.CommitEffects | app/components/RecentLiquidations.tsx:69-108 | The re-run aborts the running run and starts a new one whose baseline is the current items |
| RecentLiquidations.RecentLiquidationsPanel.Unmount | app/components/RecentLiquidations.tsx:104-107 | After unmounting every run counts as aborted; nothing else changes |
| RecentLiquidations.PanelSettles | app/components/RecentLiquidations.tsx:88-108 | After taking a change and re-running its effect, the panel does not take the same rows again |
| RecentLiquidations.ReplacedRunIgnored | app/components/RecentLiquidations.tsx:87-107 | A fetch issued by a replaced run is ignored, whatever it returns |
| DownloadCsv.EnabledButtonPassesServerCheck | app/components/DownloadCsv.tsx:16 | An enabled button implies the export endpoint accepts the email |
| DownloadCsv.HrefCarriesEmailAndLimit | app/components/DownloadCsv.tsx:18-21 | The URL is `/api/export?` followed by a query that parses back to exactly `email` and `limit`, with the typed email and the limit's decimal text |
| DownloadCsv.ServerKeepsDialogLimit | app/components/DownloadCsv.tsx:51 | For a default limit within [1, 10000] the server keeps that limit, and the saved name's digits read back as it |
| DownloadCsv.DownloadDialog.constructor | app/components/DownloadCsv.tsx:11-16 | The dialog starts closed and idle with an empty email, which disables the button; the default limit is 1000 |
| DownloadCsv.DownloadDialog.Open | app/components/DownloadCsv.tsx:69 | The dialog opens; the email and the busy flag are unchanged |
| DownloadCsv.DownloadDialog.Close | app/components/DownloadCsv.tsx:77-98 | The backdrop and the close button close the dialog; the email and the busy flag are unchanged |
| DownloadCsv.DownloadDialog.SetEmail | app/components/DownloadCsv.tsx:110 | Typing sets the email; the busy flag and the open state are unchanged |
| DownloadCsv.DownloadDialog.KeyDown | app/components/DownloadCsv.tsx:23-35 | Only Escape closes the dialog, and only while it is open |
| DownloadCsv.DownloadDialog.BeginDownload | app/components/DownloadCsv.tsx:37-41 | No request if and only if the button was disabled. Otherwise the dialog turns busy and requests the export URL for an email the server accepts |
| DownloadCsv.DownloadDialog.FinishDownload | app/components/DownloadCsv.tsx:42-59 | Busy is cleared on every path. Only a saved file closes the dialog, under the name `liqo_recent_<limit>.csv`, and only a response that is not ok alerts |
| DownloadCsv.DownloadOnce | app/components/DownloadCsv.tsx:37-60 | A full download from a fresh dialog requests the URL for limit 1000, saves `liqo_recent_1000.csv`, and leaves the dialog closed and idle |
| DownloadCsv.BusyBlocksSecondRequest | app/components/DownloadCsv.tsx:16-38 | A second click while a download runs requests nothing |
| FormUrlencoded.QueryRoundTrip | app/components/DownloadCsv.tsx:19-20 | Parsing a serialised query gives back exactly its name-value pairs, in order |
| Utf8.DecodeEncode | app/components/DownloadCsv.tsx:19-20 | Decoding the UTF-8 encoding of any text gives it back |

## Left out

- **Network I/O:**
  - fetch, the GraphQL proxy (`app/api/graphql/route.ts`), the blob download
    and `alert` are outside the model;
  - their outcomes are parameters, such as `UpstreamOutcome`, `FetchOutcome`
    and `DownloadOutcome`.
- **Timers and React:**
  - timers, React rendering and effect scheduling are steps that the
    environment calls;
  - the time at which they happen, and the interval length `pollMs`, are not
    modelled.
- **JSON and numbers:**
  - `res.json()` and `Number(...)` are abstracted: a body is a `Payload` or
    absent, and a parameter is a `JsNumber`;
  - signed zero and fractional chain ids are not distinguished;
  - in the export handler, a JSON `null` body makes reading `data` throw and
    a `GeneralizedLiquidation` that is not an array makes `toCsv`'s `map`
    throw; the handler catches both as 500, and the model maps both bodies to
    `Ok(None)` in `UpstreamOutcome`;
  - in the polling hook and the recent-liquidations panel, only a JSON `null`
    body throws (reading `data`); it is ignored, and the model maps it to
    `Threw` in `FetchOutcome`.
- **Non-array lists in polling:** the hook and the panel store a
  `GeneralizedLiquidation` that is not an array as the new snapshot whenever
  its `length` differs from the current one, since neither calls `map` on
  it. `Payload` cannot represent such a list, so the model treats that body
  as `Threw`, which leaves the snapshot unchanged.
- **Number to text:**
  - JavaScript's conversion of non-integral numbers to text is not modelled;
  - the limit in the export filename and the dialog's `String(defaultLimit)`
    are modelled for integers only;
  - `Text.DecimalString` is `String(n)` only for |n| < 10^21. From 10^21 on,
    JavaScript writes exponent form. The export limit stays within [1, 10000]
    and the dialog's limit is 1000; a chain id that large, in the CSV
    `chainId` cell or in `getChainName`, is not modelled faithfully.
- `formatTime`, `formatTimeCompact`, `formatUSD` and `cn` (`lib/utils.ts`)
  depend on the clock, the locale and class merging, and are not modelled.
  So the badge's `cn` class composition is left out too.
- Format.ShortenAddress: lengths and cuts are counted in code points, not
  in the UTF-16 code units that JavaScript's `length` and `slice` count.
  The two agree on addresses without characters beyond U+FFFF, such as the
  ASCII hex addresses and hashes the pages pass.
- Format.FormatToken: `token.length` and `slice` are counted in code points,
  not UTF-16 code units. The two agree on symbols without characters beyond
  U+FFFF, such as the ASCII token symbols the pages pass; a token such as
  four U+1F600 emoji with width 6 is cut by the source and kept whole here.
- **Unicode case mapping:** `toLowerCase` is modelled on ASCII letters only.
- **The table library:**
  - the library's sorting and pagination are not modelled;
  - neither is the way it ANDs the column filters together;
  - the three filters are modelled one by one.
- **Presentation-only files** are not modelled:
  - `Columns.tsx`, apart from the filter wiring;
  - `Navbar.tsx`, `ThemeToggle.tsx`, `CopyButton.tsx` and `layout.tsx`;
  - the markup of the pages.
- **Double clicks:** a second click before React re-renders the dialog reads
  a stale `disabled` value. The model applies each event to the latest state,
  so it does not capture this.
- **FormUrlencoded.Deserialize:**
  - it returns no result on malformed UTF-8, where a browser substitutes
    U+FFFD;
  - it is used only to state the round trip of well-formed queries;
  - lone surrogates are not representable in Dafny strings.
- **ExportRoute.ToCsv:**
  - it separates lines with a line feed and does not quote a bare carriage
    return, as the source does;
  - section 2 of RFC 4180 asks for CR LF and quoting;
  - the reader in `CsvReader` follows the source's dialect.
- **ExportRoute.HandleExport:**
  - the upstream request is kept only as the `limit` variable it carries;
    the GraphQL query text and the request headers are not modelled;
  - the `Content-Disposition` of a fractional limit is `None`, because the
    text JavaScript gives a fractional number is not modelled;
  - a body that is not JSON and a rejected fetch are both the caught error
    that gives 500.

## Findings

| source | as written | input that shows it | evidently intended | confidence | as-written member | corrected member |
|---|---|---|---|---|---|---|
| lib/utils.ts:10 | The separator between the kept ends is the three characters `â€¦`: the UTF-8 bytes of `…` read as Windows-1252 | `formatAddress("0x12345678", 2)` gives `0x12â€¦78` | `0x12…78`, with U+2026 as the separator, as the copies in app/page.tsx:97 and app/components/RecentLiquidations.tsx:31 write it | not executed | Format.AsWrittenSeparatorDiffers | Format.FormatAddressLength |

The leaderboard imports the shared formatter, so its liquidator column shows
the misencoded separator too. The model renders it as written, with
`Format.FormatAddressAsWritten`; see `Pages.LiquidatorTextShowsEnds`.
