/** The payment boundary: which completed results count as paid (buyer/app/payment_verifier.py). */
module PaymentVerifier {
  import opened Common
  import PyText

  const PAYECOM_HOST := "payecom.ru"
  const PAYECOM_PATH := "/pay_ru"
  const YOOMONEY_HOST := "yoomoney.ru"
  const YOOMONEY_PATH := "/checkout/payments/v2/contract"
  const LITRES_SOURCE := "litres_payecom_iframe"
  const BRANDSHOP_SOURCE := "brandshop_yoomoney_sberpay_redirect"

  /** The parts of a parsed URL (section 3 of RFC 3986) and the values of its `orderId` parameters. */
  datatype Url = Url(scheme: string, netloc: string, path: string, params: string, orderIds: seq<string>)

  /** A payment URL as reported, and what the parser makes of it; `None` if it does not parse. */
  datatype Evidence = Evidence(source: string, url: string, parsed: Option<Url>)

  datatype AgentOutput = AgentOutput(status: string, message: string, orderId: Option<string>, evidence: Option<Evidence>,
                                     transientFailure: bool)

  datatype ProviderEvidence = ProviderEvidence(provider: string, host: string, orderId: string, url: string)

  datatype Verification =
    | Accepted(evidence: ProviderEvidence)
    | Unverified(evidence: ProviderEvidence)
    | Rejected

  function NormalizeDomain(value: string): string {
    var text := PyText.Lower(PyText.Strip(value));
    if |text| >= 4 && text[..4] == "www." then text[4..] else text
  }

  predicate EndsWith(s: string, suffix: string) {
    |s| >= |suffix| && s[|s| - |suffix|..] == suffix
  }

  predicate IsInDomain(domain: string, item: string) {
    var target := NormalizeDomain(domain);
    target != "" && (target == item || EndsWith(target, "." + item))
  }

  function ProviderOrderId(parsed: Option<Url>, host: string, path: string): Option<string> {
    match parsed
    case None => None
    case Some(u) =>
      if u.scheme != "https" || u.netloc != host || u.path != path || u.params != "" then None
      else if |u.orderIds| != 1 then None
      else
        var order := PyText.Strip(u.orderIds[0]);
        if order == "" then None else Some(order)
  }

  function ParsePayecom(e: Evidence): Option<ProviderEvidence> {
    match ProviderOrderId(e.parsed, PAYECOM_HOST, PAYECOM_PATH)
    case None => None
    case Some(order) => Some(ProviderEvidence("payecom", PAYECOM_HOST, order, e.url))
  }

  function ParseYoomoney(e: Evidence): Option<ProviderEvidence> {
    match ProviderOrderId(e.parsed, YOOMONEY_HOST, YOOMONEY_PATH)
    case None => None
    case Some(order) => Some(ProviderEvidence("yoomoney", YOOMONEY_HOST, order, e.url))
  }

  function OrderId(out: AgentOutput): string {
    match out.orderId case Some(order) => PyText.Strip(order) case None => ""
  }

  // ----- what the verdicts mean

  /** The reported URL is this provider's payment page and names exactly this one order. */
  predicate NamesOrder(e: Evidence, host: string, path: string, order: string) {
    && e.parsed.Some?
    && var u := e.parsed.value;
    && u.scheme == "https" && u.netloc == host && u.path == path && u.params == ""
    && |u.orderIds| == 1 && PyText.Strip(u.orderIds[0]) == order
  }

  predicate ProvesOrder(out: AgentOutput, source: string, host: string, path: string) {
    && OrderId(out) != ""
    && out.evidence.Some? && out.evidence.value.source == source
    && NamesOrder(out.evidence.value, host, path, OrderId(out))
  }

  /** The right merchant together with the page of its own payment provider, for the reported order. */
  predicate IsProvenPayment(domain: string, out: AgentOutput) {
    if IsInDomain(domain, "litres.ru") then ProvesOrder(out, LITRES_SOURCE, PAYECOM_HOST, PAYECOM_PATH)
    else IsInDomain(domain, "brandshop.ru") && ProvesOrder(out, BRANDSHOP_SOURCE, YOOMONEY_HOST, YOOMONEY_PATH)
  }

  /** A provider's page for the reported order, but no policy for the merchant. */
  predicate IsUnknownMerchantPayment(domain: string, out: AgentOutput) {
    && !IsInDomain(domain, "litres.ru") && !IsInDomain(domain, "brandshop.ru")
    && NamesKnownProvider(out)
  }

  predicate NamesKnownProvider(out: AgentOutput) {
    && OrderId(out) != "" && out.evidence.Some?
    && (NamesOrder(out.evidence.value, PAYECOM_HOST, PAYECOM_PATH, OrderId(out))
        || NamesOrder(out.evidence.value, YOOMONEY_HOST, YOOMONEY_PATH, OrderId(out)))
  }

  predicate IsFor(evidence: ProviderEvidence, out: AgentOutput) {
    evidence.orderId == OrderId(out) && evidence.host in {PAYECOM_HOST, YOOMONEY_HOST}
  }

  // ----- the verdicts

  function VerifyLitres(out: AgentOutput): (v: Verification)
    ensures v.Accepted? <==> ProvesOrder(out, LITRES_SOURCE, PAYECOM_HOST, PAYECOM_PATH)
    ensures !v.Unverified? && (v.Accepted? ==> IsFor(v.evidence, out))
  {
    var order := OrderId(out);
    if order == "" then Rejected
    else if out.evidence.None? || out.evidence.value.source != LITRES_SOURCE then Rejected
    else
      match ParsePayecom(out.evidence.value)
      case Some(found) => if found.orderId == order then Accepted(found) else Rejected
      case None => Rejected
  }

  function VerifyBrandshop(out: AgentOutput): (v: Verification)
    ensures v.Accepted? <==> ProvesOrder(out, BRANDSHOP_SOURCE, YOOMONEY_HOST, YOOMONEY_PATH)
    ensures !v.Unverified? && (v.Accepted? ==> IsFor(v.evidence, out))
  {
    var order := OrderId(out);
    if order == "" then Rejected
    else if out.evidence.None? || out.evidence.value.source != BRANDSHOP_SOURCE then Rejected
    else
      match ParseYoomoney(out.evidence.value)
      case None => Rejected
      case Some(found) => if found.orderId != order then Rejected else Accepted(found)
  }

  function VerifyUnknownMerchant(out: AgentOutput): (v: Verification)
    ensures v.Unverified? <==> NamesKnownProvider(out)
    ensures !v.Accepted? && (v.Unverified? ==> IsFor(v.evidence, out))
  {
    var order := OrderId(out);
    if order == "" || out.evidence.None? then Rejected
    else
      var direct := out.evidence.value;
      match (if ParsePayecom(direct).Some? then ParsePayecom(direct) else ParseYoomoney(direct))
      case Some(found) => if found.orderId == order then Unverified(found) else Rejected
      case None => Rejected
  }

  /** `domain` is the host name of the session's start URL. */
  function VerifyCompletedPayment(domain: string, out: AgentOutput): (v: Verification)
    ensures v.Accepted? <==> IsProvenPayment(domain, out)
    ensures v.Unverified? <==> IsUnknownMerchantPayment(domain, out)
    ensures !v.Rejected? ==> IsFor(v.evidence, out)
  {
    if IsInDomain(domain, "litres.ru") then VerifyLitres(out)
    else if IsInDomain(domain, "brandshop.ru") then VerifyBrandshop(out)
    else VerifyUnknownMerchant(out)
  }
}
