# CurrencyConverter: the rate-lookup function, in Dafny

This project models `CurrencyConverterFunc.Run`, an HTTP-triggered Azure
Function that answers with the exchange rate of one currency against the
euro. A request carries one query parameter, `currency`. The function:

1. rejects a null or empty `currency` with 400 "Missing the query parameter
   currency in HTTP GET Request", before any outbound call;
2. requests `https://v6.exchangerate-api.com/v6/<ExchangeRateApiKey>/latest/EUR`
   (the base is always EUR, whatever currency is asked);
3. answers 400 "Error, something went wrong" when that reply's status is not
   a success;
4. answers 404 "No data found for exchange rate" when the reply has no
   `conversion_rates` table;
5. looks up the upper-cased code in the table and answers 200 with
   `{ CurrencyRate = rate }`, or 404 "Currency {currency} not found", where the
   message echoes the code exactly as the caller wrote it.

Modules:

- `Wrappers` — `Option`, standing for a C# reference that may be `null`.
- `Ascii` — upper-casing of strings (the model of `string.ToUpper()`), with
  its characterisation, idempotence and the "equal ignoring case" relation.
- `CurrencyConverterFunc` — the reply record `ExchangeRateApiResponse`, the
  action results, the URL, `HandleReply` (the branches after the call),
  `Run` (validation, then one call through the `fetch` argument, then
  `HandleReply`) and the lemmas about them. `Run` returns the response
  together with the list of URLs it requested, so that "no call on bad
  input" and "exactly one call to the EUR URL otherwise" can be stated.

The rate is a type parameter `R`: the function never computes with it.

## Model

| member | source | states |
|---|---|---|
| `Ascii.UpperChar` | CurrencyConverterFunc.cs:58 | a lower-case ASCII letter becomes its upper-case letter, any other character is unchanged, and the result is never a lower-case letter |
| `Ascii.ToUpper` | CurrencyConverterFunc.cs:58 | upper-casing keeps the length and upper-cases each character in place |
| `Ascii.ToUpperHasNoLower` | CurrencyConverterFunc.cs:58 | an upper-cased code holds no lower-case letter |
| `Ascii.ToUpperFixesUpper` | CurrencyConverterFunc.cs:58 | a code without lower-case letters (such as "USD") is looked up as given |
| `Ascii.ToUpperIdempotent` | CurrencyConverterFunc.cs:58 | upper-casing an already upper-cased code changes nothing |
| `Ascii.ToUpperEqualIff` | CurrencyConverterFunc.cs:58 | two codes give the same lookup key if and only if they differ only in letter case |
| `Ascii.NotUpperFormOfAnything` | CurrencyConverterFunc.cs:58 | a string holding a lower-case letter is never a lookup key |
| `Ascii.UpperCaseExamples` | CurrencyConverterFunc.cs:58 | "usd", "Usd" and "USD" all give the key "USD"; " " stays " " |
| `CurrencyConverterFunc.StatusCode` | CurrencyConverterFunc.cs:44-74 | every action result the function returns is exactly one of 200 (the rate), 400 or 404; an exception escaping `Run` (see "## Left out") becomes the host's 500 and is outside the model |
| `CurrencyConverterFunc.IsNullOrEmpty` | CurrencyConverterFunc.cs:43 | only `null` and `""` count as missing; its consequences are stated by `CalledIffNotMissing` and `MissingCurrencyRejectedWithoutCall` |
| `CurrencyConverterFunc.IsSuccessStatusCode` | CurrencyConverterFunc.cs:50 | a status code in 200..299 is a success; its consequences are stated by `FailedReplyIsBadRequest` and `OkIff` |
| `CurrencyConverterFunc.Interpolated` | CurrencyConverterFunc.cs:47 | a null API key interpolates as ""; stated by `RatesUrlInjective` |
| `CurrencyConverterFunc.NotFoundMessage` | CurrencyConverterFunc.cs:64 | the message starts with "Currency ", ends with " not found", has the code's length in between, and differs from the "no data" message |
| `CurrencyConverterFunc.HandleReply` | CurrencyConverterFunc.cs:50-75 | the answer is a 400 exactly when the status is not a success, and then carries "Error, something went wrong"; a 404 carries either the "no data" text or the code's not-found text; a 200 carries the table's rate for the upper-cased code (completed by `OkIff`, `MissingTableIsNotFound`, `FoundRateIsPassedThrough`, `AbsentCurrencyEchoesInput`) |
| `CurrencyConverterFunc.Run` | CurrencyConverterFunc.cs:37-76 | no request is made exactly when `currency` is null or empty, and then the answer is the "missing parameter" 400; otherwise exactly one request, to the EUR URL, and the reply decides the answer (also `CalledIffNotMissing`, `PresentCurrencyCallsServiceOnce`) |
| `CurrencyConverterFunc.RatesUrl` | CurrencyConverterFunc.cs:47 | the URL starts with the service's v6 prefix, ends with "/latest/EUR" and holds exactly the configured key text between them (a null key giving "") |
| `CurrencyConverterFunc.RatesUrlRoundTrip` | CurrencyConverterFunc.cs:47 | the API key text is recovered from the URL; a null key contributes "" |
| `CurrencyConverterFunc.RatesUrlInjective` | CurrencyConverterFunc.cs:47 | two configurations give the same URL if and only if their key texts agree; a null key and "" give the same URL |
| `CurrencyConverterFunc.NotFoundMessageRoundTrip` | CurrencyConverterFunc.cs:64 | the 404 message embeds the requested code verbatim, recoverable from between "Currency " and " not found" |
| `CurrencyConverterFunc.MissingCurrencyRejectedWithoutCall` | CurrencyConverterFunc.cs:41-48 | a null or "" `currency` gives the "missing parameter" 400 and no request is made |
| `CurrencyConverterFunc.PresentCurrencyCallsServiceOnce` | CurrencyConverterFunc.cs:43-53 | any other `currency`, whitespace included, makes exactly one request, to the EUR URL, and the answer is the one the reply decides |
| `CurrencyConverterFunc.CalledIffNotMissing` | CurrencyConverterFunc.cs:41-75 | at most one request; none exactly when `currency` is null or empty, exactly when the response is the "missing parameter" 400 |
| `CurrencyConverterFunc.FailedReplyIsBadRequest` | CurrencyConverterFunc.cs:50-75 | a non-success status gives 400 "Error, something went wrong", whatever the currency and body |
| `CurrencyConverterFunc.OutcomeIgnoresResultAndExpiry` | CurrencyConverterFunc.cs:18-25 | replies that agree on success and on the rate table give the same response, whatever their `Result` and expiry date |
| `CurrencyConverterFunc.MissingTableIsNotFound` | CurrencyConverterFunc.cs:55-70 | a successful reply without a rate table gives 404 "No data found for exchange rate" |
| `CurrencyConverterFunc.FoundRateIsPassedThrough` | CurrencyConverterFunc.cs:57-61 | when the upper-cased code is in the table the answer is 200 carrying exactly its rate |
| `CurrencyConverterFunc.AbsentCurrencyEchoesInput` | CurrencyConverterFunc.cs:62-65 | when the upper-cased code is absent the answer is the 404 "Currency {currency} not found", whose middle is the code as given, not upper-cased |
| `CurrencyConverterFunc.OkIff` | CurrencyConverterFunc.cs:43-60 | the answer is 200 if and only if `currency` is present, the reply succeeded, it carried a table and the table holds the upper-cased code |
| `CurrencyConverterFunc.CaseInsensitiveLookup` | CurrencyConverterFunc.cs:55-65 | codes differing only in case get the same status, the same rate, and a "not found" 404 for one exactly when for the other |
| `CurrencyConverterFunc.LowerCaseKeyUnreachable` | CurrencyConverterFunc.cs:58-60 | a table entry whose code holds a lower-case letter is never the one returned |
| `CurrencyConverterFunc.Examples` | CurrencyConverterFunc.cs:50-75 | "usd" finds the "USD" rate, "xyz" gives "Currency xyz not found", a 503 reply gives the generic 400 |

## Left out

- The outbound `HttpClient` GET and reading its body (CurrencyConverterFunc.cs:46-52): network I/O; the service is the `fetch` argument, which always yields a reply (a status code plus an already deserialised record). A network failure (`HttpRequestException`) or the client's default 100-second timeout (`TaskCanceledException`) makes the GET throw; the exception escapes `Run` and the host answers 500, which the model does not produce.
- JSON deserialisation with Newtonsoft (CurrencyConverterFunc.cs:53), including a body that deserialises to `null` or that is not JSON (both raise an exception the hosting runtime turns into an error response): a foreign library.
- Ascii.ToUpper: upper-cases only the 26 ASCII letters; .NET's culture-sensitive `ToUpper` also maps other letters (for instance "é" to "É", and "i" to "İ" under a Turkish culture).
- Reading the query string: `currency` is an input that is `None` when the parameter is absent; a parameter given several times, which ASP.NET joins with commas, is taken as whatever single string results.
- The Azure Functions trigger binding, `ILogger` and `IConfiguration` (CurrencyConverterFunc.cs:29-39): hosting plumbing; the configured API key is an input that may be null.
- Startup.cs: it opens a Redis connection and registers it for dependency injection, but the function never receives it.
- Decimal arithmetic: none is performed; the rate is passed through as a value of an arbitrary type.
- async/await and concurrency: one invocation is modelled as one evaluation.
