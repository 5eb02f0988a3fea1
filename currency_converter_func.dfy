/**
 * The HTTP-triggered function `CurrencyConverterFunc.Run`: it reads the
 * `currency` query parameter, asks the exchange-rate service for the rate
 * table quoted against the fixed base EUR, and answers with the rate of the
 * requested currency, or with a 400 or 404 response.
 *
 * The HTTP call is an argument `fetch` from the requested URL to the reply,
 * and the reply's body is already deserialised.  `Run` also returns the list
 * of URLs it requested, so that "the service is not called" can be stated.
 */
module CurrencyConverterFunc {
  import opened Wrappers
  import opened Ascii

  /** An unsigned 32-bit integer (C# `uint`). */
  newtype uint32 = x: int | 0 <= x < 0x1_0000_0000

  /** The deserialised body of the exchange-rate service's reply. `R` is the rate type (C# `decimal`), only passed through. */
  datatype ExchangeRateApiResponse<R> = ExchangeRateApiResponse(
    result: Option<string>,
    unixExpirationDate: uint32,
    convertionRates: Option<map<string, R>>)

  /**
   * The reply of the exchange-rate service: its HTTP status code and what its
   * body deserialises to (read only when the status code is a success).
   */
  datatype UpstreamReply<R> = UpstreamReply(statusCode: int, content: ExchangeRateApiResponse<R>)

  /** The action results `Run` produces. */
  datatype ActionResult<R> =
    | BadRequestObject(message: string)
    | NotFoundObject(message: string)
    | OkObject(currencyRate: R)

  /** What one invocation of `Run` answers, and the URLs it requested, in order. */
  datatype Invocation<R> = Invocation(response: ActionResult<R>, requests: seq<string>)

  const MissingCurrencyMessage := "Missing the query parameter currency in HTTP GET Request"
  const UpstreamErrorMessage := "Error, something went wrong"
  const NoDataMessage := "No data found for exchange rate"
  const NotFoundPrefix := "Currency "
  const NotFoundSuffix := " not found"

  const ApiUrlPrefix := "https://v6.exchangerate-api.com/v6/"
  const BaseCurrency := "EUR"
  const ApiUrlSuffix := "/latest/" + BaseCurrency

  /** The HTTP status code of each action result. */
  function StatusCode<R>(a: ActionResult<R>): (code: int)
    ensures code in {200, 400, 404}
    ensures code == 200 <==> a.OkObject?
    ensures code == 400 <==> a.BadRequestObject?
  {
    match a
    case BadRequestObject(_) => 400
    case NotFoundObject(_) => 404
    case OkObject(_) => 200
  }

  /** `string.IsNullOrEmpty`: only `null` and `""` count as missing. */
  predicate IsNullOrEmpty(s: Option<string>) {
    s.None? || s.value == ""
  }

  /** `HttpResponseMessage.IsSuccessStatusCode`: a status code in 200..299. */
  predicate IsSuccessStatusCode(code: int) {
    200 <= code <= 299
  }

  /** The text a C# interpolation gives for a string that may be null: `null` gives "". */
  function Interpolated(s: Option<string>): string {
    match s
    case None => ""
    case Some(t) => t
  }

  /**
   * The URL of the rate table. It is built from the configured API key only;
   * the base is always EUR.
   */
  function RatesUrl(apiKey: Option<string>): (url: string)
    ensures |url| == |ApiUrlPrefix| + |Interpolated(apiKey)| + |ApiUrlSuffix|
    ensures url[..|ApiUrlPrefix|] == ApiUrlPrefix
    ensures url[|url| - |ApiUrlSuffix|..] == "/latest/EUR"
    ensures url[|ApiUrlPrefix|..|url| - |ApiUrlSuffix|] == Interpolated(apiKey)
  {
    var url := ApiUrlPrefix + Interpolated(apiKey) + ApiUrlSuffix;
    assert url[..|ApiUrlPrefix|] == ApiUrlPrefix;
    assert url[|url| - |ApiUrlSuffix|..] == ApiUrlSuffix;
    assert url[|ApiUrlPrefix|..|url| - |ApiUrlSuffix|] == Interpolated(apiKey);
    url
  }

  /** Recovers the API key text from a rate-table URL. */
  function ApiKeyOf(url: string): string
    requires |url| >= |ApiUrlPrefix| + |ApiUrlSuffix|
  {
    url[|ApiUrlPrefix|..|url| - |ApiUrlSuffix|]
  }

  /** The 404 message for a currency missing from the table. */
  function NotFoundMessage(currency: string): (m: string)
    ensures |m| == |NotFoundPrefix| + |currency| + |NotFoundSuffix|
    ensures m[..|NotFoundPrefix|] == "Currency "
    ensures m[|m| - |NotFoundSuffix|..] == " not found"
    ensures m != NoDataMessage
  {
    var m := NotFoundPrefix + currency + NotFoundSuffix;
    assert m[..|NotFoundPrefix|] == NotFoundPrefix;
    assert m[|m| - |NotFoundSuffix|..] == NotFoundSuffix;
    assert m[0] != NoDataMessage[0];
    m
  }

  /** Recovers the currency echoed by a 404 "not found" message. */
  function EchoedCurrency(message: string): string
    requires |message| >= |NotFoundPrefix| + |NotFoundSuffix|
  {
    message[|NotFoundPrefix|..|message| - |NotFoundSuffix|]
  }

  /**
   * What `Run` answers once the service has replied, for the non-empty
   * requested currency `target`.
   */
  function HandleReply<R>(target: string, reply: UpstreamReply<R>): (a: ActionResult<R>)
    ensures a.BadRequestObject? <==> !IsSuccessStatusCode(reply.statusCode)
    ensures a.BadRequestObject? ==> a.message == UpstreamErrorMessage
    ensures a.NotFoundObject? ==> a.message == NoDataMessage || a.message == NotFoundMessage(target)
    ensures a.OkObject? ==> && reply.content.convertionRates.Some?
                            && ToUpper(target) in reply.content.convertionRates.value
                            && a.currencyRate == reply.content.convertionRates.value[ToUpper(target)]
  {
    if IsSuccessStatusCode(reply.statusCode) then
      match reply.content.convertionRates
      case None => NotFoundObject(NoDataMessage)
      case Some(rates) =>
        var key := ToUpper(target);
        if key in rates then OkObject(rates[key]) else NotFoundObject(NotFoundMessage(target))
    else
      BadRequestObject(UpstreamErrorMessage)
  }

  /**
   * One invocation of the function: `currency` is the `currency` query
   * parameter (`None` when absent), `apiKey` the configured
   * `ExchangeRateApiKey`, and `fetch` the exchange-rate service.
   */
  function Run<R>(currency: Option<string>, apiKey: Option<string>, fetch: string -> UpstreamReply<R>): (inv: Invocation<R>)
    ensures inv.requests == [] <==> IsNullOrEmpty(currency)
    ensures inv.requests == [] ==> inv.response == BadRequestObject(MissingCurrencyMessage)
    ensures inv.requests != [] ==> inv.requests == [RatesUrl(apiKey)] && inv.response == HandleReply(currency.value, fetch(RatesUrl(apiKey)))
  {
    if IsNullOrEmpty(currency) then
      Invocation(BadRequestObject(MissingCurrencyMessage), [])
    else
      var url := RatesUrl(apiKey);
      Invocation(HandleReply(currency.value, fetch(url)), [url])
  }

  // ---------------------------------------------------------------------
  // Properties of the URL and the messages

  /** The API key is recovered from the URL: the URL determines the key and nothing else varies. */
  lemma RatesUrlRoundTrip(apiKey: Option<string>)
    ensures ApiKeyOf(RatesUrl(apiKey)) == Interpolated(apiKey)
  {
  }

  /** Two keys give the same URL exactly when their texts agree; a null key is the empty key. */
  lemma RatesUrlInjective(a: Option<string>, b: Option<string>)
    ensures RatesUrl(a) == RatesUrl(b) <==> Interpolated(a) == Interpolated(b)
    ensures RatesUrl(None) == RatesUrl(Some(""))
  {
  }

  /** The currency is recovered from its 404 message: the message echoes the input exactly. */
  lemma NotFoundMessageRoundTrip(currency: string)
    ensures |NotFoundMessage(currency)| == |NotFoundPrefix| + |currency| + |NotFoundSuffix|
    ensures EchoedCurrency(NotFoundMessage(currency)) == currency
  {
  }

  // ---------------------------------------------------------------------
  // Properties of Run

  /** A null or empty `currency` gives the "missing parameter" 400 and the service is not called. */
  lemma MissingCurrencyRejectedWithoutCall<R>(currency: Option<string>, apiKey: Option<string>, fetch: string -> UpstreamReply<R>)
    requires currency == None || currency == Some("")
    ensures Run(currency, apiKey, fetch).response == BadRequestObject(MissingCurrencyMessage)
    ensures Run(currency, apiKey, fetch).requests == []
  {
  }

  /**
   * Any other value, whitespace included, leads to exactly one request, to
   * the EUR rate-table URL whatever the currency, and the answer is decided
   * by the reply.
   */
  lemma PresentCurrencyCallsServiceOnce<R>(currency: string, apiKey: Option<string>, fetch: string -> UpstreamReply<R>)
    requires currency != ""
    ensures Run(Some(currency), apiKey, fetch).requests == [RatesUrl(apiKey)]
    ensures Run(Some(currency), apiKey, fetch).response == HandleReply(currency, fetch(RatesUrl(apiKey)))
  {
  }

  /** The service is called exactly when the response is not the "missing parameter" 400. */
  lemma CalledIffNotMissing<R>(currency: Option<string>, apiKey: Option<string>, fetch: string -> UpstreamReply<R>)
    ensures |Run(currency, apiKey, fetch).requests| <= 1
    ensures Run(currency, apiKey, fetch).requests == []
        <==> Run(currency, apiKey, fetch).response == BadRequestObject(MissingCurrencyMessage)
    ensures Run(currency, apiKey, fetch).requests == [] <==> IsNullOrEmpty(currency)
  {
  }

  /** A reply whose status is not a success gives the generic 400, whatever the currency and body. */
  lemma FailedReplyIsBadRequest<R>(target: string, reply: UpstreamReply<R>)
    requires !IsSuccessStatusCode(reply.statusCode)
    ensures HandleReply(target, reply) == BadRequestObject(UpstreamErrorMessage)
    ensures StatusCode(HandleReply(target, reply)) == 400
  {
  }

  /** Only the status code and the rate table matter: `Result` and the expiry date are never read. */
  lemma OutcomeIgnoresResultAndExpiry<R>(target: string, a: UpstreamReply<R>, b: UpstreamReply<R>)
    requires IsSuccessStatusCode(a.statusCode) == IsSuccessStatusCode(b.statusCode)
    requires a.content.convertionRates == b.content.convertionRates
    ensures HandleReply(target, a) == HandleReply(target, b)
  {
  }

  /** A successful reply without a rate table gives the "no data" 404. */
  lemma MissingTableIsNotFound<R>(target: string, reply: UpstreamReply<R>)
    requires IsSuccessStatusCode(reply.statusCode) && reply.content.convertionRates == None
    ensures HandleReply(target, reply) == NotFoundObject(NoDataMessage)
  {
  }

  /** A found currency answers 200 with exactly the table's rate for its upper-case code. */
  lemma FoundRateIsPassedThrough<R>(target: string, reply: UpstreamReply<R>, rates: map<string, R>)
    requires IsSuccessStatusCode(reply.statusCode) && reply.content.convertionRates == Some(rates)
    requires ToUpper(target) in rates
    ensures HandleReply(target, reply) == OkObject(rates[ToUpper(target)])
    ensures HandleReply(target, reply).currencyRate in rates.Values
  {
  }

  /**
   * An absent currency answers 404 with a message that echoes the code as
   * given, not its upper-case form.
   */
  lemma AbsentCurrencyEchoesInput<R>(target: string, reply: UpstreamReply<R>, rates: map<string, R>)
    requires IsSuccessStatusCode(reply.statusCode) && reply.content.convertionRates == Some(rates)
    requires ToUpper(target) !in rates
    ensures HandleReply(target, reply) == NotFoundObject("Currency " + target + " not found")
    ensures EchoedCurrency(HandleReply(target, reply).message) == target
  {
  }

  /** The response is 200 exactly when the call succeeded, a table came back and it holds the upper-case code. */
  lemma OkIff<R>(currency: Option<string>, apiKey: Option<string>, fetch: string -> UpstreamReply<R>)
    ensures var reply := fetch(RatesUrl(apiKey));
      Run(currency, apiKey, fetch).response.OkObject?
      <==> && !IsNullOrEmpty(currency)
           && IsSuccessStatusCode(reply.statusCode)
           && reply.content.convertionRates.Some?
           && ToUpper(currency.value) in reply.content.convertionRates.value
  {
  }

  /**
   * Inputs that differ only in letter case reach the same outcome: the same
   * rate, or both the same kind of 404, each echoing its own input.
   */
  lemma CaseInsensitiveLookup<R>(a: string, b: string, reply: UpstreamReply<R>)
    requires EqualIgnoringCase(a, b)
    ensures StatusCode(HandleReply(a, reply)) == StatusCode(HandleReply(b, reply))
    ensures HandleReply(a, reply).OkObject? ==> HandleReply(a, reply) == HandleReply(b, reply)
    ensures HandleReply(a, reply) == NotFoundObject(NotFoundMessage(a))
        <==> HandleReply(b, reply) == NotFoundObject(NotFoundMessage(b))
  {
    ToUpperEqualIff(a, b);
  }

  /** A table entry whose code holds a lower-case letter is never returned, whatever is asked. */
  lemma LowerCaseKeyUnreachable<R>(target: string, reply: UpstreamReply<R>, rates: map<string, R>, k: string, i: nat)
    requires reply.content.convertionRates == Some(rates)
    requires k in rates && i < |k| && IsLower(k[i])
    requires HandleReply(target, reply).OkObject?
    ensures ToUpper(target) != k
  {
  }

  /** Worked cases: "usd" finds the "USD" rate; "xyz" is reported as "Currency xyz not found". */
  lemma Examples(rate: real)
    ensures var reply := UpstreamReply(200, ExchangeRateApiResponse(Some("success"), 0, Some(map["USD" := rate])));
      && HandleReply("usd", reply) == OkObject(rate)
      && HandleReply("xyz", reply) == NotFoundObject("Currency xyz not found")
      && HandleReply(" ", UpstreamReply(503, reply.content)) == BadRequestObject("Error, something went wrong")
  {
    UpperCaseExamples();
    var x := ToUpper("xyz");
    assert x[0] == 'X';
    assert x != "USD";
  }
}
