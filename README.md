# Parbad: the Bank Mellat gateway adapter's protocol logic, in Dafny

This project models `MellatHelper`, the static helper class of Parbad's Bank
Mellat (Behpardakht) gateway adapter. The class holds the adapter's protocol
logic:

- **Payload construction.** It builds the SOAP 1.1 bodies (W3C SOAP 1.1 Note,
  section 4) of four calls: the pay request (in its simple or cumulative
  split-account form), verify, settle and reversal. It also chooses between
  the live and the test web-service path.
- **Result classification.** It turns the `return` value of each provider
  response into Parbad's canonical results: the request result with its
  transporter, the parsed callback, and the verify, settle and refund results.

Every member of the class is static and has no side effects, and the clock
that the pay-request builders read becomes a parameter. So the model is
functions over datatypes plus lemmas about them. It has four modules:

- `Wrappers` (`wrappers.dfy`): `Option` stands for a C# `null`. `Result`
  stands for an exception that is thrown before any network call.
- `Text` (`text.dfy`): `String.Split(char)` and its inverse `Join`, with
  round-trip lemmas in both directions.
- `Numerics` (`numerics.dfy`): the `long` range, the `(long)` cast of a
  `decimal` (truncation toward zero, overflow as an error), and the decimal
  rendering that string interpolation applies to a `long`. A lemma proves
  that reading the rendering back gives the same number.
- `Soap` (`soap.dfy`): an envelope is a list of nodes (elements, the
  `<!--Optional:-->` comments, raw text). `ToXml` renders it to exactly the
  text the helper concatenates. `NodeInXml` proves that every node of the
  body appears verbatim in that text.
- `MellatHelper` (`mellat.dfy`): the helper itself, with the source's
  constants, data shapes and members under their source names. That includes
  the source's spelling `CrateCallbackResult`.

Collaborators are parameters:

- `MellatGatewayResultTranslator.Translate` is a `Translator`, an
  uninterpreted `string -> string` with the configured messages already
  bound.
- `MessagesOptions` is a record of the three messages the helper uses
  directly.
- `HttpRequest.TryGetParam` is a lookup in a `map<string, string>`.
- `XmlHelper.GetNodeValueFromXml(response, "return")` is taken as already
  applied: every classifier receives the `return` text.
- `DateTime.Now` is a `LocalClock` of two strings that are already formatted.
- `GatewayPost` is a record of a URL and a form-field map.

## Model

| member | source | states |
|---|---|---|
| `MellatHelper.GetWebServiceUrl` | src/Parbad/GatewayProviders/Mellat/MellatHelper.cs:231-234 | the test path `/pgwchannel/services/pgwtest` is chosen exactly for a test terminal, the live path `/pgwchannel/services/pgw` exactly otherwise |
| `MellatHelper.CreateRequestData` | src/Parbad/GatewayProviders/Mellat/MellatHelper.cs:31-39 | the simple form is used when the additional data is null or lacks `MellatCumulativeAccounts`. Under the key, a value of another type fails with an invalid cast, a null fails with a null reference, and more than 10 accounts fails with too-many-accounts, each exactly in that case. Without those errors, an amount whose truncation does not fit a `long` fails with an overflow, exactly in that case. A success opens `int:bpPayRequest` in the simple form and `int:bpCumulativeDynamicPayRequest` in the cumulative form, and its wire text contains `orderId` (the tracking number), `amount` (the truncated amount), `callBackUrl`, and `additionalData`, which is empty in the simple form and each account followed by `;` in the cumulative form |
| `MellatHelper.SimpleRequestEnvelope` | src/Parbad/GatewayProviders/Mellat/MellatHelper.cs:236-262 | the operation is `bpPayRequest`. `orderId` is the tracking number, `amount` is the converted amount, `additionalData` is empty and `payerId` is `0`. The body ends with the stray `'` before the closing operation tag |
| `MellatHelper.CumulativeRequestEnvelope` | src/Parbad/GatewayProviders/Mellat/MellatHelper.cs:284-306 | the operation is `bpCumulativeDynamicPayRequest`. `orderId` and `amount` are as in the simple form, and `additionalData` is each account followed by `;`. There is no `payerId` |
| `MellatHelper.PayFieldsLookup` | src/Parbad/GatewayProviders/Mellat/MellatHelper.cs:248-257 | after the credentials, a pay body's `orderId`, `amount`, `additionalData` and `callBackUrl` elements carry the tracking number, the amount, the additional data and the callback URL |
| `MellatHelper.PayerIdLookup` | src/Parbad/GatewayProviders/Mellat/MellatHelper.cs:258-259 | the simple pay body's `payerId` element is `0` |
| `MellatHelper.AdditionalDataOf` | src/Parbad/GatewayProviders/Mellat/MellatHelper.cs:282 | the LINQ left fold equals the accounts, each followed by `;` |
| `MellatHelper.AdditionalDataSplits` | src/Parbad/GatewayProviders/Mellat/MellatHelper.cs:282 | when no account text holds `;`, splitting the additional data on `;` gives back the accounts and one trailing empty field |
| `MellatHelper.AggregateIsTerminated` | src/Parbad/GatewayProviders/Mellat/MellatHelper.cs:282 | folding from any seed `c` gives `c` followed by each account terminated by `;` |
| `MellatHelper.TerminatedIsJoin` | src/Parbad/GatewayProviders/Mellat/MellatHelper.cs:282 | the accounts, each terminated by `;`, are the `;`-join of the accounts plus one empty field |
| `MellatHelper.CreateRequestResult` | src/Parbad/GatewayProviders/Mellat/MellatHelper.cs:41-74 | the request succeeds exactly when the text before the first comma is `"0"`. On success it posts to `PaymentPageUrl` with the single field `RefId`, which holds the text between the first and second commas (empty without a comma), and it names the account. On failure, code `"41"` gives the duplicate-tracking-number message and any other code gives its translation. A failure has no transporter |
| `MellatHelper.RequestSucceedsWithReference` | src/Parbad/GatewayProviders/Mellat/MellatHelper.cs:49-73 | the response `"0,<ref>"`, with no comma in `ref`, yields success with `RefId = ref` |
| `MellatHelper.RequestWithoutReference` | src/Parbad/GatewayProviders/Mellat/MellatHelper.cs:49-54 | a response without a comma is all code. It succeeds exactly when it is `"0"`, and then `RefId` is empty |
| `MellatHelper.CrateCallbackResult` | src/Parbad/GatewayProviders/Mellat/MellatHelper.cs:76-114 | the callback succeeds exactly when `ResCode` is present and `"0"`, and `Result` is null exactly on success. When `ResCode` is missing or empty, the result is the invalid-data failure and carries no references. Otherwise `RefId` and `SaleReferenceId` are copied through, and a failure carries the translation of `ResCode` |
| `MellatHelper.CallbackWithoutCodeIgnoresReferences` | src/Parbad/GatewayProviders/Mellat/MellatHelper.cs:78-87 | two callbacks that both lack `ResCode` give the same result, whatever their other parameters |
| `MellatHelper.CallbackCarriesReferences` | src/Parbad/GatewayProviders/Mellat/MellatHelper.cs:89-113 | with any non-empty `ResCode`, the result's `RefId` and `SaleReferenceId` are the inbound ones |
| `MellatHelper.ReferenceBody` | src/Parbad/GatewayProviders/Mellat/MellatHelper.cs:123-130 | the verify, settle and reversal body puts the tracking number into both `orderId` and `saleOrderId`, and the given reference into `saleReferenceId` |
| `MellatHelper.EnvelopeCarriesReferences` | src/Parbad/GatewayProviders/Mellat/MellatHelper.cs:128-130 | such a body's XML text contains the `orderId`, `saleOrderId` and `saleReferenceId` elements verbatim |
| `MellatHelper.CreateVerifyData` | src/Parbad/GatewayProviders/Mellat/MellatHelper.cs:116-134 | the verify XML opens the `bpVerifyRequest` operation and carries the tracking number as `orderId` and `saleOrderId`, and the callback's `SaleReferenceId` |
| `MellatHelper.CreateSettleData` | src/Parbad/GatewayProviders/Mellat/MellatHelper.cs:158-176 | the settle XML opens the `bpSettleRequest` operation and carries the tracking number as `orderId` and `saleOrderId`, and the callback's `SaleReferenceId` |
| `MellatHelper.CreateRefundData` | src/Parbad/GatewayProviders/Mellat/MellatHelper.cs:196-214 | the reversal XML opens the `bpReversalRequest` operation and carries the tracking number as `orderId` and `saleOrderId`, and the stored `TransactionCode` |
| `MellatHelper.SettleMirrorsVerify` | src/Parbad/GatewayProviders/Mellat/MellatHelper.cs:158-176 | the settle body is the verify body, sent under a different operation |
| `MellatHelper.RefundDiffersOnlyInReference` | src/Parbad/GatewayProviders/Mellat/MellatHelper.cs:196-214 | the reversal body is the verify body with the stored transaction code in place of the callback's reference |
| `MellatHelper.CheckVerifyResult` | src/Parbad/GatewayProviders/Mellat/MellatHelper.cs:136-156 | verify succeeds exactly when the code is `"0"`. `Result` is null exactly on success, and otherwise it is the failure carrying the code's translation |
| `MellatHelper.CreateSettleResult` | src/Parbad/GatewayProviders/Mellat/MellatHelper.cs:178-194 | settle succeeds exactly when the code is `"0"` or `"45"`. The transaction code is always the callback's `SaleReferenceId`. The message is `PaymentSucceed` on success and the code's translation otherwise |
| `MellatHelper.AlreadyVerifiedIsNotSettled` | src/Parbad/GatewayProviders/Mellat/MellatHelper.cs:21-22 | code `"43"` (already verified) is a settle failure carrying its translation |
| `MellatHelper.CreateRefundResult` | src/Parbad/GatewayProviders/Mellat/MellatHelper.cs:216-229 | a refund succeeds exactly when the code is `"0"`, and its message is always the code's translation, even on success |
| `MellatHelper.CallbackReferenceReachesSettle` | src/Parbad/GatewayProviders/Mellat/MellatHelper.cs:107-113 | when `ResCode` is present, the inbound `SaleReferenceId` is the settle result's transaction code, and it is embedded in the settle XML |
| `MellatHelper.SettleScenario` | src/Parbad/GatewayProviders/Mellat/MellatHelper.cs:182-193 | the callback `ResCode=0, RefId=REF123, SaleReferenceId=55667788` succeeds, and settle answered with `"45"` succeeds with transaction code `55667788` |
| `MellatHelper.AmountIsTruncated` | src/Parbad/GatewayProviders/Mellat/MellatHelper.cs:249 | a non-negative amount in range is sent with its fractional part dropped |
| `Numerics.DecimalToLong` | src/Parbad/GatewayProviders/Mellat/MellatHelper.cs:249 | `(long)` of a decimal is defined exactly when the truncated value fits the `long` range, and then it is the truncated value |
| `Numerics.Truncate` | src/Parbad/GatewayProviders/Mellat/MellatHelper.cs:295 | truncation rounds toward zero: the result is non-negative for a non-negative amount and non-positive for a negative one, and lies less than 1 from it, on the zero side |
| `Numerics.LongToString` | src/Parbad/GatewayProviders/Mellat/MellatHelper.cs:248 | an interpolated integer is a minus sign exactly for a negative value, followed by at least one decimal digit, with no leading zero, zero included |
| `Numerics.NatToString` | src/Parbad/GatewayProviders/Mellat/MellatHelper.cs:123 | the digits of a natural number are all decimal digits and have no leading zero |
| `Numerics.ParseNatToString` | src/Parbad/GatewayProviders/Mellat/MellatHelper.cs:128 | reading the digits back gives the number |
| `Numerics.LongToStringRoundTrip` | src/Parbad/GatewayProviders/Mellat/MellatHelper.cs:128-129 | reading an interpolated integer back gives the integer, so the tracking number in `orderId` determines it |
| `Numerics.LongToStringInjective` | src/Parbad/GatewayProviders/Mellat/MellatHelper.cs:170-171 | two different tracking numbers never render the same way |
| `Text.IndexOf` | src/Parbad/GatewayProviders/Mellat/MellatHelper.cs:49 | the result is absent exactly when the character does not occur; otherwise it is the first occurrence |
| `Text.Split` | src/Parbad/GatewayProviders/Mellat/MellatHelper.cs:49-51 | a split always has at least one field, and no field contains the separator |
| `Text.JoinSplit` | src/Parbad/GatewayProviders/Mellat/MellatHelper.cs:49 | joining the fields of a split with the separator gives back the original text |
| `Text.SplitJoin` | src/Parbad/GatewayProviders/Mellat/MellatHelper.cs:49 | splitting the join of separator-free fields gives back those fields |
| `Text.SplitCons` | src/Parbad/GatewayProviders/Mellat/MellatHelper.cs:49-52 | splitting `a,b` with no comma in `a` yields `a` followed by the fields of `b` |
| `Text.FirstField` | src/Parbad/GatewayProviders/Mellat/MellatHelper.cs:51 | the first field holds no separator and is a prefix of the text |
| `Soap.ElementIndex` | src/Parbad/GatewayProviders/Mellat/MellatHelper.cs:119-133 | an element of the body is found exactly when one with that tag exists, and the first one is found |
| `Soap.NodeInXml` | src/Parbad/GatewayProviders/Mellat/MellatHelper.cs:119-133 | every node of an envelope's body appears verbatim, as it renders, in its XML text |
| `Soap.ElementInXml` | src/Parbad/GatewayProviders/Mellat/MellatHelper.cs:119-133 | the first element with a given tag appears in the envelope's XML text, tags and contents |
| `Soap.OperationInXml` | src/Parbad/GatewayProviders/Mellat/MellatHelper.cs:239-242 | an envelope's XML text contains the opening tag of its operation element |
| `Soap.ConcatAt` | src/Parbad/GatewayProviders/Mellat/MellatHelper.cs:119-133 | each piece of a concatenation stands in place, preceded by exactly the pieces before it |

## Left out

- `XmlHelper.GetNodeValueFromXml` is not part of this model. The classifiers take the extracted `return` text, never null. When that text is null, the C# `Split` throws, and that case is not modelled.
- `MellatGatewayResultTranslator` and its message table are not part of this model. The translator is an uninterpreted function, so nothing is stated about unknown codes embedding the raw code.
- `IHttpContextAccessor` and the rendering of `GatewayPost` into an HTTP response are not modelled. They are web-framework plumbing.
- `DateTime.Now` is read twice by the pay-request builders, once for the date and once for the time. The model takes the two formatted strings as independent inputs, so a pair read across midnight is representable but nothing is claimed about it.
- `MellatCumulativeDynamicAccount.ToString` is not part of this model. Each split account is given as its rendered text.
- A null element inside the list of cumulative accounts is not modelled. C# interpolates it as empty text.
- The `decimal` amount is a real number. The 28-digit precision of `decimal` is not modelled, and neither is floating point.
- Integers render with an ASCII minus sign. Culture-specific number formatting is not modelled.
- The two-phase verify-then-settle sequence, the transaction store, idempotency, per-tracking-number locking and the orchestrator live in code outside this helper (`MellatGateway`, `OnlinePayment`), which is not part of this model. The same holds for `OnlinePaymentExtensions` (synchronous wrappers), `MelliGatewayBuilderExtensions` (dependency-injection wiring) and the `TransactionType` enum.
- The commented-out check that the cumulative total equals the invoice amount is disabled in the source, and the model does not enforce it.
- The helper embeds caller values in the XML verbatim, without escaping, and so does the model. The stated containment properties hold for any values. Nothing is claimed about how an XML reader would parse a body whose values contain markup.
- `MellatHelper.CreateRequestData`: its contract states the error cases and which elements the wire text contains, not the whole byte string. The exact text is fixed by its body through `Soap.ToXml`.
- `MellatHelper.CreateVerifyData`: its contract states the operation tag and the reference elements the text contains, not the credentials or the whole byte string, which its body fixes.
- `MellatHelper.CreateSettleData`: its contract states the operation tag and the reference elements the text contains, not the credentials or the whole byte string, which its body fixes.
- `MellatHelper.CreateRefundData`: its contract states the operation tag and the reference elements the text contains, not the credentials or the whole byte string, which its body fixes.
- `"43"` (already verified) is declared at src/Parbad/GatewayProviders/Mellat/MellatHelper.cs:21 and never used. No member treats it as a success, and only `"0"` and `"45"` settle.
- The refund message at src/Parbad/GatewayProviders/Mellat/MellatHelper.cs:222 is the translated code, even on success.
