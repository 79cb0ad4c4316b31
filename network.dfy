/** The chain table of lib/network.tsx and the lookups built on it. Every
    lookup falls back to a default for a chain id the table does not hold. */
module Network {
  import opened Optional
  import opened Text

  /** The icon component of each configured network. */
  datatype Icon =
    | EthereumIcon | OptimismIcon | BscIcon | PolygonIcon | BaseIcon
    | ArbitrumIcon | ScrollIcon | AvalancheIcon | GnosisIcon

  datatype NetworkConfig = NetworkConfig(
    chainId: int,
    name: string,
    networkName: string,
    color: string,
    explorerUrl: string,
    icon: Icon)

  /** The badge classes every configured chain uses, in its own hue. */
  function Palette(hue: string): string {
    "bg-" + hue + "-100 text-" + hue + "-800 dark:bg-" + hue + "-900/40 dark:text-foreground"
  }

  /** `NETWORK_CONFIGS`. */
  const NetworkConfigs: map<int, NetworkConfig> := map[
    1 := NetworkConfig(1, "Ethereum", "ethereum",
      Palette("blue"),
      "https://etherscan.io", EthereumIcon),
    10 := NetworkConfig(10, "Optimism", "optimism",
      Palette("red"),
      "https://optimistic.etherscan.io", OptimismIcon),
    56 := NetworkConfig(56, "BSC", "bsc",
      Palette("yellow"),
      "https://bscscan.com", BscIcon),
    137 := NetworkConfig(137, "Polygon", "polygon",
      Palette("purple"),
      "https://polygonscan.com", PolygonIcon),
    8453 := NetworkConfig(8453, "Base", "base",
      Palette("blue"),
      "https://basescan.org", BaseIcon),
    42161 := NetworkConfig(42161, "Arbitrum", "arbitrum",
      Palette("blue"),
      "https://arbiscan.io", ArbitrumIcon),
    534352 := NetworkConfig(534352, "Scroll", "scroll",
      Palette("orange"),
      "https://scrollscan.com", ScrollIcon),
    43114 := NetworkConfig(43114, "Avalanche", "avalanche",
      Palette("red"),
      "https://snowtrace.io", AvalancheIcon),
    100 := NetworkConfig(100, "Gnosis", "gnosis",
      Palette("green"),
      "https://gnosisscan.io", GnosisIcon)
  ]

  /** `DEFAULT_NETWORK_COLOR`. */
  const DefaultNetworkColor: string := "bg-gray-100 text-gray-800 " + "dark:bg-gray-900/60 dark:text-foreground"

  /** The table holds exactly nine chains. */
  lemma TableKeys()
    ensures NetworkConfigs.Keys == {1, 10, 56, 100, 137, 8453, 42161, 43114, 534352}
  {
  }

  /** Each entry is filed under its own id and has a non-empty name that does
      not start with `C`, a non-empty colour other than the default, and a non-empty
      explorer URL. */
  lemma EntryWellFormed(id: int)
    requires id in NetworkConfigs
    ensures var c := NetworkConfigs[id];
            c.chainId == id && c.name != "" && c.name[0] != 'C'
            && c.color != "" && c.color != DefaultNetworkColor && c.explorerUrl != ""
  {
    TableKeys();
    var c := NetworkConfigs[id];
    if id == 1 {
      assert c.color == Palette("blue");
      assert c.color[3] == 'b';
    } else if id == 10 {
    } else if id == 56 {
    } else if id == 100 {
    } else if id == 137 {
    } else if id == 8453 {
      assert c.color == Palette("blue");
      assert c.color[3] == 'b';
    } else if id == 42161 {
      assert c.color == Palette("blue");
      assert c.color[3] == 'b';
    } else if id == 43114 {
    } else {
      assert id == 534352;
    }
  }

  /** `getChainName`: the configured name, or `Chain <id>`. */
  function GetChainName(chainId: int): (name: string)
    ensures name != ""
    ensures chainId in NetworkConfigs ==> name == NetworkConfigs[chainId].name
    ensures chainId !in NetworkConfigs ==> name == "Chain " + DecimalString(chainId)
  {
    if chainId in NetworkConfigs && NetworkConfigs[chainId].name != "" then NetworkConfigs[chainId].name
    else "Chain " + DecimalString(chainId)
  }

  /** Different chains never share a displayed name: configured names are
      distinct and none starts with `C`, and the fallback names carry the id. */
  lemma ChainNameIdentifiesChain(a: int, b: int)
    requires GetChainName(a) == GetChainName(b)
    ensures a == b
  {
    if a !in NetworkConfigs && b !in NetworkConfigs {
      assert DecimalString(a) == GetChainName(a)[6..] == GetChainName(b)[6..] == DecimalString(b);
      DecimalStringInjective(a, b);
    } else if a in NetworkConfigs && b in NetworkConfigs {
      EntryWellFormed(a);
      EntryWellFormed(b);
    } else if a in NetworkConfigs {
      EntryWellFormed(a);
    } else {
      EntryWellFormed(b);
    }
  }

  /** `getChainColor`: the configured colour, or the grey default. */
  function GetChainColor(chainId: int): (color: string)
    ensures chainId in NetworkConfigs ==> color == NetworkConfigs[chainId].color
    ensures chainId !in NetworkConfigs ==> color == DefaultNetworkColor
  {
    if chainId in NetworkConfigs && NetworkConfigs[chainId].color != "" then NetworkConfigs[chainId].color
    else DefaultNetworkColor
  }

  /** The default colour is told apart from every configured colour. */
  lemma DefaultColorOnlyForUnknownChains(chainId: int)
    ensures GetChainColor(chainId) == DefaultNetworkColor <==> chainId !in NetworkConfigs
  {
    if chainId in NetworkConfigs {
      EntryWellFormed(chainId);
    }
  }

  /** `getAddressUrl`: the explorer's address page, or `#`. */
  function GetAddressUrl(chainId: int, address: string): (url: string)
    ensures url == "#" <==> chainId !in NetworkConfigs
    ensures chainId in NetworkConfigs ==> url == NetworkConfigs[chainId].explorerUrl + "/address/" + address
  {
    if chainId in NetworkConfigs then NetworkConfigs[chainId].explorerUrl + "/address/" + address else "#"
  }

  /** `getTxUrl`: the explorer's transaction page, or `#`. */
  function GetTxUrl(chainId: int, txHash: string): (url: string)
    ensures url == "#" <==> chainId !in NetworkConfigs
    ensures chainId in NetworkConfigs ==> url == NetworkConfigs[chainId].explorerUrl + "/tx/" + txHash
  {
    if chainId in NetworkConfigs then NetworkConfigs[chainId].explorerUrl + "/tx/" + txHash else "#"
  }

  /** On a configured chain an address link and a transaction link never
      coincide, and each gives back the address or hash it was built from. */
  lemma ExplorerLinksDistinct(chainId: int, address: string, txHash: string)
    requires chainId in NetworkConfigs
    ensures GetAddressUrl(chainId, address) != GetTxUrl(chainId, txHash)
    ensures var base := NetworkConfigs[chainId].explorerUrl;
            GetAddressUrl(chainId, address)[|base| + 9..] == address
            && GetTxUrl(chainId, txHash)[|base| + 4..] == txHash
  {
    var base := NetworkConfigs[chainId].explorerUrl;
    assert GetAddressUrl(chainId, address)[|base| + 1] == 'a';
    assert GetTxUrl(chainId, txHash)[|base| + 1] == 't';
  }

  datatype Variant = Branded | Mono

  /** The element `getNetworkIcon` renders: the chain's icon with its props. */
  datatype IconElement = IconElement(icon: Icon, size: int, variant: Variant, className: string)

  /** `getNetworkIcon`, with each optional prop `None` when it is not passed:
      the size defaults to 20, the variant to branded, the class to empty. */
  function GetNetworkIcon(chainId: int, size: Option<int>, variant: Option<Variant>, className: Option<string>): (r: Option<IconElement>)
    ensures r.None? <==> chainId !in NetworkConfigs
    ensures r.Some? ==> r.value.icon == NetworkConfigs[chainId].icon
                        && r.value.size == size.GetOr(20)
                        && r.value.variant == variant.GetOr(Branded)
                        && r.value.className == "shrink-0 " + className.GetOr("")
  {
    if chainId !in NetworkConfigs then None
    else Some(IconElement(NetworkConfigs[chainId].icon, size.GetOr(20), variant.GetOr(Branded),
                          "shrink-0 " + className.GetOr("")))
  }

  /** Each configured chain has its own icon. */
  lemma IconIdentifiesChain(a: int, b: int)
    requires a in NetworkConfigs && b in NetworkConfigs
    requires NetworkConfigs[a].icon == NetworkConfigs[b].icon
    ensures a == b
  {
  }
}
