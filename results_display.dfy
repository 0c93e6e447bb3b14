/** The service a result points to, and the address the engage button opens. */
module ResultsDisplay {

  import opened Text

  datatype Service = XVirality | InBaddiesWeTrust | PrintMoney

  /**
   * The nested conditional of `handleEngageClick` on `result.includes(...)`:
   * each service is selected exactly under its condition, with XVIRALITY
   * first, INBADDIESWETRUST second and PRINTMONEY as the default.
   */
  function SelectService(result: string): (service: Service)
    ensures service == XVirality <==> Contains(result, "XVIRALITY")
    ensures service == InBaddiesWeTrust <==>
              !Contains(result, "XVIRALITY") && Contains(result, "INBADDIESWETRUST")
    ensures service == PrintMoney <==>
              !Contains(result, "XVIRALITY") && !Contains(result, "INBADDIESWETRUST")
  {
    if Contains(result, "XVIRALITY") then XVirality
    else if Contains(result, "INBADDIESWETRUST") then InBaddiesWeTrust
    else PrintMoney
  }

  /** The `urls` map: every address is a secure `.pro` site. */
  function ServiceUrl(service: Service): (url: string)
    ensures IsPrefix("https://", url)
    ensures |url| > 12 && url[|url| - 4..] == ".pro"
  {
    match service
    case XVirality => "https://xvirality.pro"
    case InBaddiesWeTrust => "https://inbaddieswetrust.pro"
    case PrintMoney => "https://printmoney.pro"
  }

  /**
   * The address opened for a result: one of the three sites, XVIRALITY's
   * whenever the result names it, PRINTMONEY's when it names neither.
   */
  function EngageUrl(result: string): (url: string)
    ensures url in {"https://xvirality.pro", "https://inbaddieswetrust.pro", "https://printmoney.pro"}
    ensures Contains(result, "XVIRALITY") ==> url == "https://xvirality.pro"
    ensures !Contains(result, "XVIRALITY") && Contains(result, "INBADDIESWETRUST") ==>
              url == "https://inbaddieswetrust.pro"
    ensures !Contains(result, "XVIRALITY") && !Contains(result, "INBADDIESWETRUST") ==>
              url == "https://printmoney.pro"
  {
    ServiceUrl(SelectService(result))
  }

  /** When both names appear, XVIRALITY wins. */
  lemma XViralityWinsTies(result: string)
    requires Contains(result, "XVIRALITY") && Contains(result, "INBADDIESWETRUST")
    ensures SelectService(result) == XVirality
  {
  }

  /** A result naming a service somewhere in its text selects it, whatever surrounds it. */
  lemma NamedServiceSelected(before: string, after: string)
    ensures SelectService(before + "XVIRALITY" + after) == XVirality
  {
    ContainsSelf("XVIRALITY");
    ContainsInside(before, "XVIRALITY", after, "XVIRALITY");
  }

  /** Distinct services open distinct addresses, so every selection has its own URL. */
  lemma UrlsDistinct(a: Service, b: Service)
    ensures ServiceUrl(a) == ServiceUrl(b) <==> a == b
  {
  }
}
