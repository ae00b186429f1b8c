/** The protocol logic of the Bank Mellat (Behpardakht) gateway adapter:
    building the SOAP bodies of the pay, verify, settle and reversal calls,
    and turning the `return` value of each provider response into a
    canonical result.

    Collaborators are parameters: the result translator is a `Translator`
    (a code-to-message function with the configured messages already bound),
    the inbound callback's parameters are a map, and the XML reader is taken
    as already applied, so each classifier receives the `return` text. */
module MellatHelper {
  import opened Wrappers
  import opened Text
  import opened Numerics
  import opened Soap

  const OkResult: string := "0"
  const DuplicateOrderNumberResult: string := "41"
  /** Declared by the adapter but consulted by none of its members. */
  const AlreadyVerifiedResult: string := "43"
  const SettleSuccess: string := "45"

  const CumulativeAccountsKey: string := "MellatCumulativeAccounts"
  const MaxCumulativeAccounts: nat := 10

  const PaymentPageUrl: string := "https://bpm.shaparak.ir/pgwchannel/startpay.mellat"
  const BaseServiceUrl: string := "https://bpm.shaparak.ir/"
  const WebServiceUrl: string := "/pgwchannel/services/pgw"
  const TestWebServiceUrl: string := "/pgwchannel/services/pgwtest"

  // ---------------------------------------------------------------------
  // Canonical data and collaborators
  // ---------------------------------------------------------------------

  /** The configured messages the adapter uses directly. */
  datatype MessagesOptions = MessagesOptions(
    paymentSucceed: string,
    duplicateTrackingNumber: string,
    invalidDataReceivedFromGateway: string)

  /** The result translator: a provider code to its configured message. */
  type Translator = string -> string

  datatype MellatGatewayAccount = MellatGatewayAccount(
    name: string,
    terminalId: Long,
    userName: string,
    userPassword: string)

  /** What an invoice's additional data may hold under the cumulative key:
      the list of split accounts (each as its own text rendering), a null,
      or a value of some other type. */
  datatype AdditionalValue = CumulativeAccounts(accounts: seq<string>) | NullValue | OtherValue

  /** `additionalData` is `None` when the invoice's dictionary is null.
      The `decimal` amount is a real number. */
  datatype Invoice = Invoice(
    trackingNumber: Long,
    amount: real,
    callbackUrl: string,
    additionalData: Option<map<string, AdditionalValue>>)

  /** The two readings of the local clock a pay request embeds, already
      formatted as `yyyyMMdd` and `HHmmss`. */
  datatype LocalClock = LocalClock(date: string, time: string)

  /** The exceptions the pay-request builder can raise. */
  datatype RequestDataError =
    | InvalidCast      // the cumulative value is not a list of accounts
    | NullReference    // the cumulative value is null
    | TooManyAccounts  // more than ten split accounts
    | AmountOverflow   // the amount does not fit a `long`

  /** The stored payment a verify or refund call refers to. */
  datatype Payment = Payment(trackingNumber: Long, transactionCode: Option<string>)

  /** A form the browser auto-submits to `url`. */
  datatype GatewayPost = GatewayPost(url: string, form: map<string, string>)

  /** Exactly one of a transporter or a message: the two constructors. */
  datatype PaymentRequestResult =
    | RequestSucceeded(transporter: GatewayPost, accountName: string)
    | RequestFailed(message: string)

  datatype PaymentVerifyResult = PaymentVerifyResult(
    isSucceed: bool,
    transactionCode: Option<string>,
    message: Option<string>)

  /** `PaymentVerifyResult.Failed(message)`. */
  function VerifyFailed(message: string): PaymentVerifyResult {
    PaymentVerifyResult(false, None, Some(message))
  }

  datatype MellatCallbackResult = MellatCallbackResult(
    isSucceed: bool,
    refId: Option<string>,
    saleReferenceId: Option<string>,
    result: Option<PaymentVerifyResult>)

  datatype MellatVerifyResult = MellatVerifyResult(isSucceed: bool, result: Option<PaymentVerifyResult>)

  datatype PaymentRefundResult = PaymentRefundResult(isSucceed: bool, message: string)

  /** `HttpRequest.TryGetParam`: the parameter's value, or null when absent. */
  function TryGetParam(parameters: map<string, string>, name: string): Option<string> {
    if name in parameters then Some(parameters[name]) else None
  }

  predicate IsNullOrEmpty(s: Option<string>) {
    s.None? || s.value == ""
  }

  /** What string interpolation prints for a possibly null string. */
  function Interpolated(s: Option<string>): string {
    s.GetOr("")
  }

  // ---------------------------------------------------------------------
  // Endpoint
  // ---------------------------------------------------------------------

  function GetWebServiceUrl(isTestTerminal: bool): (url: string)
    ensures url == TestWebServiceUrl <==> isTestTerminal
    ensures url == WebServiceUrl <==> !isTestTerminal
  {
    if isTestTerminal then TestWebServiceUrl else WebServiceUrl
  }

  // ---------------------------------------------------------------------
  // Pay request
  // ---------------------------------------------------------------------

  /** The simple form is used unless the additional data holds the cumulative key. */
  predicate UsesSimpleForm(invoice: Invoice) {
    invoice.additionalData.None? || CumulativeAccountsKey !in invoice.additionalData.value
  }

  /** The LINQ fold `Aggregate(current, (c, a) => c + $"{a};")`. */
  function AggregateAccounts(current: string, accounts: seq<string>): string
    decreases |accounts|
  {
    if accounts == [] then current else AggregateAccounts(current + accounts[0] + ";", accounts[1..])
  }

  /** Each account followed by `;` (the reference reading of the fold). */
  function Terminated(accounts: seq<string>): string
    decreases |accounts|
  {
    if accounts == [] then "" else accounts[0] + ";" + Terminated(accounts[1..])
  }

  lemma {:induction false} AggregateIsTerminated(current: string, accounts: seq<string>)
    ensures AggregateAccounts(current, accounts) == current + Terminated(accounts)
    decreases |accounts|
  {
    if accounts != [] {
      AggregateIsTerminated(current + accounts[0] + ";", accounts[1..]);
    }
  }

  lemma {:induction false} TerminatedIsJoin(accounts: seq<string>)
    ensures Terminated(accounts) == Join(accounts + [""], ';')
    decreases |accounts|
  {
    if accounts != [] {
      TerminatedIsJoin(accounts[1..]);
      assert (accounts + [""])[1..] == accounts[1..] + [""];
    }
  }

  /** The `additionalData` text of a cumulative request: the accounts, each
      followed by `;`. */
  function AdditionalDataOf(accounts: seq<string>): (data: string)
    ensures data == Terminated(accounts)
  {
    AggregateIsTerminated("", accounts);
    AggregateAccounts("", accounts)
  }

  /** When no account's text holds a `;`, splitting the additional data on
      `;` gives the accounts back, followed by one empty field. */
  lemma AdditionalDataSplits(accounts: seq<string>)
    requires forall k :: 0 <= k < |accounts| ==> ';' !in accounts[k]
    ensures Split(AdditionalDataOf(accounts), ';') == accounts + [""]
  {
    TerminatedIsJoin(accounts);
    var fields := accounts + [""];
    assert forall k :: 0 <= k < |accounts| ==> fields[k] == accounts[k];
    SplitJoin(fields, ';');
  }

  function Credentials(account: MellatGatewayAccount): seq<Node> {
    [ Element("terminalId", LongToString(account.terminalId)),
      Comment("Optional:"),
      Element("userName", account.userName),
      Comment("Optional:"),
      Element("userPassword", account.userPassword) ]
  }

  /** A field that is not a credential is looked up past the credentials. */
  lemma FieldAfterCredentials(account: MellatGatewayAccount, fields: seq<Node>, tail: seq<Node>, tag: string, k: nat)
    requires tag !in {"terminalId", "userName", "userPassword"}
    requires k < |fields| && fields[k].Element? && fields[k].tag == tag
    requires forall j :: 0 <= j < k ==> !(fields[j].Element? && fields[j].tag == tag)
    ensures ElementText(Credentials(account) + fields + tail, tag) == Some(fields[k].text)
  {
    ElementTextAt(fields, tag, k);
    var c := Credentials(account);
    assert c + fields + tail == c + (fields + tail);
    ElementTextSkip(c, fields + tail, tag);
    ElementTextPrefix(fields, tail, tag);
  }

  /** The fields a pay request carries after the credentials. */
  function PayFields(invoice: Invoice, amount: Long, clock: LocalClock, additionalData: string): seq<Node> {
    [ Element("orderId", LongToString(invoice.trackingNumber)),
      Element("amount", LongToString(amount)),
      Comment("Optional:"),
      Element("localDate", clock.date),
      Comment("Optional:"),
      Element("localTime", clock.time),
      Comment("Optional:"),
      Element("additionalData", additionalData),
      Comment("Optional:"),
      Element("callBackUrl", invoice.callbackUrl) ]
  }

  lemma PayFieldsLookup(account: MellatGatewayAccount, invoice: Invoice, amount: Long, clock: LocalClock, additionalData: string, tail: seq<Node>)
    ensures var body := Credentials(account) + PayFields(invoice, amount, clock, additionalData) + tail;
      && ElementText(body, "orderId") == Some(LongToString(invoice.trackingNumber))
      && ElementText(body, "amount") == Some(LongToString(amount))
      && ElementText(body, "additionalData") == Some(additionalData)
      && ElementText(body, "callBackUrl") == Some(invoice.callbackUrl)
  {
    var fields := PayFields(invoice, amount, clock, additionalData);
    FieldAfterCredentials(account, fields, tail, "orderId", 0);
    FieldAfterCredentials(account, fields, tail, "amount", 1);
    FieldAfterCredentials(account, fields, tail, "additionalData", 7);
    FieldAfterCredentials(account, fields, tail, "callBackUrl", 9);
  }

  lemma PayerIdLookup(account: MellatGatewayAccount, fields: seq<Node>)
    requires forall k :: 0 <= k < |fields| ==> !(fields[k].Element? && fields[k].tag == "payerId")
    ensures ElementText(Credentials(account) + fields + [Element("payerId", "0"), Raw("'")], "payerId") == Some("0")
  {
    var c := Credentials(account);
    var tail := [Element("payerId", "0"), Raw("'")];
    assert c + fields + tail == c + (fields + tail);
    ElementTextSkip(c, fields + tail, "payerId");
    ElementTextSkip(fields, tail, "payerId");
  }

  /** `bpPayRequest`, ending with `payerId` 0 and a stray `'` before the
      closing tag of the operation. */
  function SimpleRequestEnvelope(invoice: Invoice, account: MellatGatewayAccount, clock: LocalClock, amount: Long): (e: Envelope)
    ensures e.operation == "bpPayRequest"
    ensures ElementText(e.body, "orderId") == Some(LongToString(invoice.trackingNumber))
    ensures ElementText(e.body, "amount") == Some(LongToString(amount))
    ensures ElementText(e.body, "additionalData") == Some("")
    ensures ElementText(e.body, "callBackUrl") == Some(invoice.callbackUrl)
    ensures ElementText(e.body, "payerId") == Some("0")
    ensures e.body[|e.body| - 1] == Raw("'")
  {
    SimpleBodyLookup(invoice, account, clock, amount);
    Envelope("bpPayRequest", SimpleBody(invoice, account, clock, amount))
  }

  function SimpleBody(invoice: Invoice, account: MellatGatewayAccount, clock: LocalClock, amount: Long): seq<Node> {
    Credentials(account) + PayFields(invoice, amount, clock, "") + [Element("payerId", "0"), Raw("'")]
  }

  lemma SimpleBodyLookup(invoice: Invoice, account: MellatGatewayAccount, clock: LocalClock, amount: Long)
    ensures var body := SimpleBody(invoice, account, clock, amount);
      && ElementText(body, "orderId") == Some(LongToString(invoice.trackingNumber))
      && ElementText(body, "amount") == Some(LongToString(amount))
      && ElementText(body, "additionalData") == Some("")
      && ElementText(body, "callBackUrl") == Some(invoice.callbackUrl)
      && ElementText(body, "payerId") == Some("0")
      && body[|body| - 1] == Raw("'")
  {
    var fields := PayFields(invoice, amount, clock, "");
    var tail := [Element("payerId", "0"), Raw("'")];
    PayFieldsLookup(account, invoice, amount, clock, "", tail);
    PayerIdLookup(account, fields);
  }

  /** `bpCumulativeDynamicPayRequest`, carrying the split accounts. */
  function CumulativeRequestEnvelope(invoice: Invoice, account: MellatGatewayAccount, clock: LocalClock, amount: Long, accounts: seq<string>): (e: Envelope)
    ensures e.operation == "bpCumulativeDynamicPayRequest"
    ensures ElementText(e.body, "orderId") == Some(LongToString(invoice.trackingNumber))
    ensures ElementText(e.body, "amount") == Some(LongToString(amount))
    ensures ElementText(e.body, "additionalData") == Some(Terminated(accounts))
    ensures ElementText(e.body, "callBackUrl") == Some(invoice.callbackUrl)
    ensures ElementText(e.body, "payerId") == None
  {
    CumulativeBodyLookup(invoice, account, clock, amount, AdditionalDataOf(accounts));
    Envelope("bpCumulativeDynamicPayRequest", Credentials(account) + PayFields(invoice, amount, clock, AdditionalDataOf(accounts)))
  }

  lemma CumulativeBodyLookup(invoice: Invoice, account: MellatGatewayAccount, clock: LocalClock, amount: Long, additionalData: string)
    ensures var body := Credentials(account) + PayFields(invoice, amount, clock, additionalData);
      && ElementText(body, "orderId") == Some(LongToString(invoice.trackingNumber))
      && ElementText(body, "amount") == Some(LongToString(amount))
      && ElementText(body, "additionalData") == Some(additionalData)
      && ElementText(body, "callBackUrl") == Some(invoice.callbackUrl)
      && ElementText(body, "payerId") == None
  {
    var fields := PayFields(invoice, amount, clock, additionalData);
    PayFieldsLookup(account, invoice, amount, clock, additionalData, []);
    assert Credentials(account) + fields + [] == Credentials(account) + fields;
    PayerIdAbsent(account, fields);
  }

  lemma PayerIdAbsent(account: MellatGatewayAccount, fields: seq<Node>)
    requires forall k :: 0 <= k < |fields| ==> !(fields[k].Element? && fields[k].tag == "payerId")
    ensures ElementText(Credentials(account) + fields, "payerId") == None
  {
    ElementTextSkip(Credentials(account), fields, "payerId");
  }

  /** The pay request as a structured envelope, or the exception the
      source raises. The cumulative value is cast first, then its count is
      checked, then the amount is converted. */
  function RequestEnvelope(invoice: Invoice, account: MellatGatewayAccount, clock: LocalClock): Result<Envelope, RequestDataError> {
    if UsesSimpleForm(invoice) then
      match DecimalToLong(invoice.amount)
      case None => Failure(AmountOverflow)
      case Some(amount) => Success(SimpleRequestEnvelope(invoice, account, clock, amount))
    else
      match invoice.additionalData.value[CumulativeAccountsKey]
      case OtherValue => Failure(InvalidCast)
      case NullValue => Failure(NullReference)
      case CumulativeAccounts(accounts) =>
        if |accounts| > MaxCumulativeAccounts then Failure(TooManyAccounts)
        else match DecimalToLong(invoice.amount)
          case None => Failure(AmountOverflow)
          case Some(amount) => Success(CumulativeRequestEnvelope(invoice, account, clock, amount, accounts))
  }

  /** The value stored under the cumulative key, when there is one. */
  function CumulativeValue(invoice: Invoice): Option<AdditionalValue> {
    if UsesSimpleForm(invoice) then None else Some(invoice.additionalData.value[CumulativeAccountsKey])
  }

  /** The body of the pay request as sent on the wire, or the exception. */
  function CreateRequestData(invoice: Invoice, account: MellatGatewayAccount, clock: LocalClock): (r: Result<string, RequestDataError>)
    ensures r == Failure(InvalidCast) <==> CumulativeValue(invoice) == Some(OtherValue)
    ensures r == Failure(NullReference) <==> CumulativeValue(invoice) == Some(NullValue)
    ensures r == Failure(TooManyAccounts) <==>
      (CumulativeValue(invoice).Some? && CumulativeValue(invoice).value.CumulativeAccounts?
       && |CumulativeValue(invoice).value.accounts| > MaxCumulativeAccounts)
    ensures r == Failure(AmountOverflow) <==>
      (CumulativeValue(invoice).None?
       || (CumulativeValue(invoice).value.CumulativeAccounts?
           && |CumulativeValue(invoice).value.accounts| <= MaxCumulativeAccounts))
      && DecimalToLong(invoice.amount).None?
    ensures r.Success? ==> DecimalToLong(invoice.amount).Some?
    ensures r.Success? && UsesSimpleForm(invoice) ==> Contains(r.value, OperationTag("bpPayRequest"))
    ensures r.Success? && !UsesSimpleForm(invoice) ==> Contains(r.value, OperationTag("bpCumulativeDynamicPayRequest"))
    ensures r.Success? ==>
      && Contains(r.value, ElementXml("orderId", LongToString(invoice.trackingNumber)))
      && Contains(r.value, ElementXml("amount", LongToString(Truncate(invoice.amount))))
      && Contains(r.value, ElementXml("callBackUrl", invoice.callbackUrl))
    ensures r.Success? && UsesSimpleForm(invoice) ==> Contains(r.value, ElementXml("additionalData", ""))
    ensures r.Success? && !UsesSimpleForm(invoice) ==>
      Contains(r.value, ElementXml("additionalData", Terminated(CumulativeValue(invoice).value.accounts)))
  {
    match RequestEnvelope(invoice, account, clock)
    case Failure(error) => Failure(error)
    case Success(e) =>
      ElementInXml(e, "orderId");
      ElementInXml(e, "amount");
      ElementInXml(e, "callBackUrl");
      ElementInXml(e, "additionalData");
      OperationInXml(e);
      Success(ToXml(e))
  }

  /** The code of a pay-request response `"resCode,refId"`: everything before
      the first comma. */
  function ResponseCode(ret: string): string {
    FirstField(ret, ',')
  }

  /** The reference id of a pay-request response: the text between the first
      and the second comma, or empty when there is no comma. */
  function ResponseReferenceId(ret: string): string {
    match IndexOf(ret, ',')
    case None => ""
    case Some(i) => FirstField(ret[i + 1..], ',')
  }

  function CreateRequestResult(ret: string, messages: MessagesOptions, translate: Translator, account: MellatGatewayAccount): (r: PaymentRequestResult)
    ensures r.RequestSucceeded? <==> ResponseCode(ret) == OkResult
    ensures r.RequestSucceeded? ==>
      r.transporter == GatewayPost(PaymentPageUrl, map["RefId" := ResponseReferenceId(ret)])
      && r.accountName == account.name
    ensures r.RequestFailed? && ResponseCode(ret) == DuplicateOrderNumberResult ==>
      r.message == messages.duplicateTrackingNumber
    ensures r.RequestFailed? && ResponseCode(ret) != DuplicateOrderNumberResult ==>
      r.message == translate(ResponseCode(ret))
  {
    var arrayResult := Split(ret, ',');
    SplitFirst(ret, ',');
    SplitSecond(ret, ',');
    var resCode := arrayResult[0];
    var refId := if |arrayResult| > 1 then arrayResult[1] else "";
    if resCode != OkResult then
      RequestFailed(if resCode == DuplicateOrderNumberResult then messages.duplicateTrackingNumber else translate(resCode))
    else
      RequestSucceeded(GatewayPost(PaymentPageUrl, map["RefId" := refId]), account.name)
  }

  /** A success response `"0,<refId>"` hands the browser to the payment page
      with that reference id. */
  lemma RequestSucceedsWithReference(refId: string, messages: MessagesOptions, translate: Translator, account: MellatGatewayAccount)
    requires ',' !in refId
    ensures CreateRequestResult("0," + refId, messages, translate, account)
      == RequestSucceeded(GatewayPost(PaymentPageUrl, map["RefId" := refId]), account.name)
  {
    var ret := "0," + refId;
    assert ret == "0" + [','] + refId;
    SplitCons("0", ',', refId);
    SplitFirst(refId, ',');
    SplitFirst(ret, ',');
    SplitSecond(ret, ',');
  }

  /** A response without a comma is all code, and a success carries an empty reference. */
  lemma RequestWithoutReference(ret: string, messages: MessagesOptions, translate: Translator, account: MellatGatewayAccount)
    requires ',' !in ret
    ensures CreateRequestResult(ret, messages, translate, account).RequestSucceeded? <==> ret == OkResult
    ensures ret == OkResult ==>
      CreateRequestResult(ret, messages, translate, account).transporter.form == map["RefId" := ""]
  {
  }

  // ---------------------------------------------------------------------
  // Callback
  // ---------------------------------------------------------------------

  /** Parses the bank's redirect back to the merchant. (The source spells the
      member `Crate`.) */
  function CrateCallbackResult(parameters: map<string, string>, messages: MessagesOptions, translate: Translator): (r: MellatCallbackResult)
    ensures r.isSucceed <==> TryGetParam(parameters, "ResCode") == Some(OkResult)
    ensures r.result.None? <==> r.isSucceed
    ensures r.result.Some? ==> !r.result.value.isSucceed
    ensures IsNullOrEmpty(TryGetParam(parameters, "ResCode")) ==>
      r.result == Some(VerifyFailed(messages.invalidDataReceivedFromGateway))
      && r.refId.None? && r.saleReferenceId.None?
    ensures !IsNullOrEmpty(TryGetParam(parameters, "ResCode")) ==>
      r.refId == TryGetParam(parameters, "RefId")
      && r.saleReferenceId == TryGetParam(parameters, "SaleReferenceId")
    ensures !IsNullOrEmpty(TryGetParam(parameters, "ResCode")) && !r.isSucceed ==>
      r.result == Some(VerifyFailed(translate(parameters["ResCode"])))
  {
    var resCode := TryGetParam(parameters, "ResCode");
    if IsNullOrEmpty(resCode) then
      MellatCallbackResult(false, None, None, Some(VerifyFailed(messages.invalidDataReceivedFromGateway)))
    else
      var refId := TryGetParam(parameters, "RefId");
      var saleReferenceId := TryGetParam(parameters, "SaleReferenceId");
      var isSucceed := resCode.value == OkResult;
      var result := if isSucceed then None else Some(VerifyFailed(translate(resCode.value)));
      MellatCallbackResult(isSucceed, refId, saleReferenceId, result)
  }

  /** Without a result code, the other parameters make no difference. */
  lemma CallbackWithoutCodeIgnoresReferences(p: map<string, string>, q: map<string, string>, messages: MessagesOptions, translate: Translator)
    requires IsNullOrEmpty(TryGetParam(p, "ResCode")) && IsNullOrEmpty(TryGetParam(q, "ResCode"))
    ensures CrateCallbackResult(p, messages, translate) == CrateCallbackResult(q, messages, translate)
  {
  }

  /** With a result code present, the references are carried through whatever
      the code is. */
  lemma CallbackCarriesReferences(p: map<string, string>, code: string, messages: MessagesOptions, translate: Translator)
    requires code != ""
    ensures var r := CrateCallbackResult(p["ResCode" := code], messages, translate);
      r.refId == TryGetParam(p, "RefId") && r.saleReferenceId == TryGetParam(p, "SaleReferenceId")
  {
  }

  // ---------------------------------------------------------------------
  // Verify, settle and reversal bodies
  // ---------------------------------------------------------------------

  /** The body shared by the verify, settle and reversal calls: credentials,
      the tracking number as both `orderId` and `saleOrderId`, and the
      reference of the sale. */
  function ReferenceBody(account: MellatGatewayAccount, trackingNumber: Long, saleReferenceId: string): (body: seq<Node>)
    ensures ElementText(body, "orderId") == Some(LongToString(trackingNumber))
    ensures ElementText(body, "saleOrderId") == Some(LongToString(trackingNumber))
    ensures ElementText(body, "saleReferenceId") == Some(saleReferenceId)
  {
    var fields := [
      Element("orderId", LongToString(trackingNumber)),
      Element("saleOrderId", LongToString(trackingNumber)),
      Element("saleReferenceId", saleReferenceId) ];
    FieldAfterCredentials(account, fields, [], "orderId", 0);
    FieldAfterCredentials(account, fields, [], "saleOrderId", 1);
    FieldAfterCredentials(account, fields, [], "saleReferenceId", 2);
    assert Credentials(account) + fields + [] == Credentials(account) + fields;
    Credentials(account) + fields
  }

  function VerifyEnvelope(payment: Payment, account: MellatGatewayAccount, callback: MellatCallbackResult): Envelope {
    Envelope("bpVerifyRequest", ReferenceBody(account, payment.trackingNumber, Interpolated(callback.saleReferenceId)))
  }

  function SettleEnvelope(payment: Payment, callback: MellatCallbackResult, account: MellatGatewayAccount): Envelope {
    Envelope("bpSettleRequest", ReferenceBody(account, payment.trackingNumber, Interpolated(callback.saleReferenceId)))
  }

  function RefundEnvelope(payment: Payment, account: MellatGatewayAccount): Envelope {
    Envelope("bpReversalRequest", ReferenceBody(account, payment.trackingNumber, Interpolated(payment.transactionCode)))
  }

  /** The XML carries the tracking number as `orderId` and `saleOrderId` and
      the given sale reference. */
  ghost predicate CarriesReferences(xml: string, trackingNumber: Long, saleReferenceId: string) {
    && Contains(xml, ElementXml("orderId", LongToString(trackingNumber)))
    && Contains(xml, ElementXml("saleOrderId", LongToString(trackingNumber)))
    && Contains(xml, ElementXml("saleReferenceId", saleReferenceId))
  }

  lemma EnvelopeCarriesReferences(e: Envelope, account: MellatGatewayAccount, trackingNumber: Long, saleReferenceId: string)
    requires e.body == ReferenceBody(account, trackingNumber, saleReferenceId)
    ensures CarriesReferences(ToXml(e), trackingNumber, saleReferenceId)
  {
    ElementInXml(e, "orderId");
    ElementInXml(e, "saleOrderId");
    ElementInXml(e, "saleReferenceId");
  }

  function CreateVerifyData(payment: Payment, account: MellatGatewayAccount, callback: MellatCallbackResult): (xml: string)
    ensures Contains(xml, OperationTag("bpVerifyRequest"))
    ensures CarriesReferences(xml, payment.trackingNumber, Interpolated(callback.saleReferenceId))
  {
    var e := VerifyEnvelope(payment, account, callback);
    EnvelopeCarriesReferences(e, account, payment.trackingNumber, Interpolated(callback.saleReferenceId));
    OperationInXml(e);
    ToXml(e)
  }

  function CreateSettleData(payment: Payment, callback: MellatCallbackResult, account: MellatGatewayAccount): (xml: string)
    ensures Contains(xml, OperationTag("bpSettleRequest"))
    ensures CarriesReferences(xml, payment.trackingNumber, Interpolated(callback.saleReferenceId))
  {
    var e := SettleEnvelope(payment, callback, account);
    EnvelopeCarriesReferences(e, account, payment.trackingNumber, Interpolated(callback.saleReferenceId));
    OperationInXml(e);
    ToXml(e)
  }

  /** The reversal targets the stored transaction code, not the callback's. */
  function CreateRefundData(payment: Payment, account: MellatGatewayAccount): (xml: string)
    ensures Contains(xml, OperationTag("bpReversalRequest"))
    ensures CarriesReferences(xml, payment.trackingNumber, Interpolated(payment.transactionCode))
  {
    var e := RefundEnvelope(payment, account);
    EnvelopeCarriesReferences(e, account, payment.trackingNumber, Interpolated(payment.transactionCode));
    OperationInXml(e);
    ToXml(e)
  }

  /** Verify and settle send the same fields under different operations. */
  lemma SettleMirrorsVerify(payment: Payment, account: MellatGatewayAccount, callback: MellatCallbackResult)
    ensures SettleEnvelope(payment, callback, account).body == VerifyEnvelope(payment, account, callback).body
    ensures SettleEnvelope(payment, callback, account).operation != VerifyEnvelope(payment, account, callback).operation
  {
  }

  /** The reversal differs from the verify body only in its sale reference. */
  lemma RefundDiffersOnlyInReference(payment: Payment, account: MellatGatewayAccount, callback: MellatCallbackResult)
    ensures RefundEnvelope(payment, account).body
      == VerifyEnvelope(payment, account, callback.(saleReferenceId := payment.transactionCode)).body
  {
  }

  // ---------------------------------------------------------------------
  // Verify, settle and refund results
  // ---------------------------------------------------------------------

  function CheckVerifyResult(ret: string, callback: MellatCallbackResult, translate: Translator): (r: MellatVerifyResult)
    ensures r.isSucceed <==> ret == OkResult
    ensures r.result.None? <==> r.isSucceed
    ensures r.result.Some? ==> r.result.value == VerifyFailed(translate(ret))
  {
    var isSucceed := ret == OkResult;
    MellatVerifyResult(isSucceed, if isSucceed then None else Some(VerifyFailed(translate(ret))))
  }

  function CreateSettleResult(ret: string, callback: MellatCallbackResult, messages: MessagesOptions, translate: Translator): (r: PaymentVerifyResult)
    ensures r.isSucceed <==> ret in {OkResult, SettleSuccess}
    ensures r.transactionCode == callback.saleReferenceId
    ensures r.isSucceed ==> r.message == Some(messages.paymentSucceed)
    ensures !r.isSucceed ==> r.message == Some(translate(ret))
  {
    var isSuccess := ret == OkResult || ret == SettleSuccess;
    var message := if isSuccess then messages.paymentSucceed else translate(ret);
    PaymentVerifyResult(isSuccess, callback.saleReferenceId, Some(message))
  }

  /** "Already verified" is reported by settle as a failure like any other code. */
  lemma AlreadyVerifiedIsNotSettled(callback: MellatCallbackResult, messages: MessagesOptions, translate: Translator)
    ensures var r := CreateSettleResult(AlreadyVerifiedResult, callback, messages, translate);
      !r.isSucceed && r.message == Some(translate(AlreadyVerifiedResult))
  {
  }

  /** The refund message is the translation of the code, success or not. */
  function CreateRefundResult(ret: string, translate: Translator): (r: PaymentRefundResult)
    ensures r.isSucceed <==> ret == OkResult
    ensures r.message == translate(ret)
  {
    PaymentRefundResult(ret == OkResult, translate(ret))
  }

  // ---------------------------------------------------------------------
  // From callback to settlement
  // ---------------------------------------------------------------------

  /** The sale reference a callback delivers is the one settle sends and the
      transaction code the settle result reports. */
  lemma CallbackReferenceReachesSettle(parameters: map<string, string>, payment: Payment, account: MellatGatewayAccount,
                                       ret: string, messages: MessagesOptions, translate: Translator)
    requires !IsNullOrEmpty(TryGetParam(parameters, "ResCode"))
    ensures var callback := CrateCallbackResult(parameters, messages, translate);
      && CreateSettleResult(ret, callback, messages, translate).transactionCode == TryGetParam(parameters, "SaleReferenceId")
      && CarriesReferences(CreateSettleData(payment, callback, account), payment.trackingNumber,
           Interpolated(TryGetParam(parameters, "SaleReferenceId")))
  {
  }

  /** A callback with `ResCode=0, RefId=REF123, SaleReferenceId=55667788`,
      followed by a settle answered with the "already settled" code, succeeds
      with transaction code 55667788. */
  lemma SettleScenario(messages: MessagesOptions, translate: Translator)
    ensures var callback := CrateCallbackResult(
        map["ResCode" := "0", "RefId" := "REF123", "SaleReferenceId" := "55667788"], messages, translate);
      && callback.isSucceed
      && callback.refId == Some("REF123")
      && CreateSettleResult(SettleSuccess, callback, messages, translate)
        == PaymentVerifyResult(true, Some("55667788"), Some(messages.paymentSucceed))
  {
  }

  /** An invoice amount with a fraction is sent with the fraction dropped. */
  lemma AmountIsTruncated(whole: nat, fraction: real)
    requires whole <= 0x7FFF_FFFF_FFFF_FFFF
    requires 0.0 <= fraction < 1.0
    ensures DecimalToLong(whole as real + fraction) == Some(whole)
  {
  }
}
