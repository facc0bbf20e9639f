/**
 * The seller registration page: the form's field rules (a ten-digit phone
 * number, a nine-to-twelve-digit identity card), the prefill from the
 * current user's profile, the payload sent to `POST /SellerRegistration`,
 * and the single toast the page shows for each way the submission ends.
 */
module RegisterSeller {
  import opened Js
  import opened Storefront

  // ---------------------------------------------------------------------
  // Digit patterns: /^[0-9]{10}$/ and /^[0-9]{9,12}$/
  // ---------------------------------------------------------------------

  predicate IsAsciiDigit(c: char) {
    '0' <= c <= '9'
  }

  predicate AllDigits(s: string) {
    forall i :: 0 <= i < |s| ==> IsAsciiDigit(s[i])
  }

  /**
   * `/^[0-9]{min,max}$/.test(s)`, matched one character at a time: each
   * character must be a digit, at most `max` of them, and the input must not
   * end before `min` digits were read.
   */
  function MatchDigitRun(s: string, min: nat, max: nat): bool
    decreases |s|
  {
    if s == [] then min == 0
    else IsAsciiDigit(s[0]) && max > 0 && MatchDigitRun(s[1..], if min > 0 then min - 1 else 0, max - 1)
  }

  /** The digit-run pattern accepts exactly the all-digit strings whose length is within bounds. */
  lemma {:induction false} MatchDigitRunSpec(s: string, min: nat, max: nat)
    ensures MatchDigitRun(s, min, max) <==> min <= |s| <= max && AllDigits(s)
    decreases |s|
  {
    if s != [] {
      MatchDigitRunSpec(s[1..], if min > 0 then min - 1 else 0, if max > 0 then max - 1 else 0);
      if AllDigits(s) {
        assert AllDigits(s[1..]);
      }
      if IsAsciiDigit(s[0]) && AllDigits(s[1..]) {
        assert forall i :: 0 < i < |s| ==> s[i] == s[1..][i - 1];
      }
    }
  }

  /** The phone rule `/^[0-9]{10}$/`. */
  predicate ValidPhone(s: string) {
    MatchDigitRun(s, 10, 10)
  }

  /** The identity-card rule `/^[0-9]{9,12}$/`. */
  predicate ValidIdCard(s: string) {
    MatchDigitRun(s, 9, 12)
  }

  /** A phone number passes iff it is exactly ten ASCII digits. */
  lemma PhoneRule(s: string)
    ensures ValidPhone(s) <==> |s| == 10 && AllDigits(s)
  {
    MatchDigitRunSpec(s, 10, 10);
  }

  /** An identity card passes iff it is nine to twelve ASCII digits. */
  lemma IdCardRule(s: string)
    ensures ValidIdCard(s) <==> 9 <= |s| <= 12 && AllDigits(s)
  {
    MatchDigitRunSpec(s, 9, 12);
  }

  /**
   * The rule's message says "9 or 12 digits", but ten and eleven digits
   * pass as well.
   */
  lemma IdCardAcceptsTenAndElevenDigits()
    ensures ValidIdCard("0123456789") && ValidIdCard("01234567890")
  {
    IdCardRule("0123456789");
    IdCardRule("01234567890");
  }

  // ---------------------------------------------------------------------
  // The form and its validation
  // ---------------------------------------------------------------------

  /** The form's values; a field never set or reset is `undefined`. */
  datatype SellerForm = SellerForm(
    userName: Option<string>,
    storeName: Option<string>,
    email: Option<string>,
    address: Option<string>,
    phone: Option<string>,
    idCard: Option<string>)

  /** The form after `resetFields()`: every field back to `undefined`. */
  const EmptyForm: SellerForm := SellerForm(None, None, None, None, None, None)

  const StoreNameRequired: string := "Vui lòng nhập tên cửa hàng!"
  const AddressRequired: string := "Vui lòng nhập địa chỉ!"
  const PhoneRequired: string := "Vui lòng nhập số điện thoại!"
  const PhonePatternMessage: string := "Số điện thoại phải có 10 chữ số!"
  const IdCardRequired: string := "Vui lòng nhập số CMND/CCCD!"
  const IdCardPatternMessage: string := "Số CMND/CCCD phải có 9 hoặc 12 chữ số!"

  /**
   * The errors of one field: a `required` rule fails on a missing or empty
   * value; a pattern rule is skipped on an empty value and fails otherwise
   * when the value does not match.
   */
  function FieldErrors(v: Option<string>, requiredMessage: string, pattern: Option<string -> bool>, patternMessage: string): (errs: seq<string>)
    ensures !Truthy(v) ==> errs == [requiredMessage]
    ensures Truthy(v) && pattern.Some? && !pattern.value(v.value) ==> errs == [patternMessage]
    ensures errs == [] <==> Truthy(v) && (pattern.Some? ==> pattern.value(v.value))
  {
    if !Truthy(v) then [requiredMessage]
    else if pattern.Some? && !pattern.value(v.value) then [patternMessage]
    else []
  }

  /** The errors of the whole form, in field order; the form submits only without any. */
  function ValidationErrors(f: SellerForm): (errs: seq<string>)
    ensures errs == [] <==>
      Truthy(f.storeName) && Truthy(f.address) &&
      Truthy(f.phone) && ValidPhone(f.phone.value) && Truthy(f.idCard) && ValidIdCard(f.idCard.value)
    ensures forall m :: m in errs <==>
      (m == StoreNameRequired && !Truthy(f.storeName)) ||
      (m == AddressRequired && !Truthy(f.address)) ||
      (m == PhoneRequired && !Truthy(f.phone)) ||
      (m == PhonePatternMessage && Truthy(f.phone) && !ValidPhone(f.phone.value)) ||
      (m == IdCardRequired && !Truthy(f.idCard)) ||
      (m == IdCardPatternMessage && Truthy(f.idCard) && !ValidIdCard(f.idCard.value))
    ensures |errs| ==
      (if Truthy(f.storeName) then 0 else 1) + (if Truthy(f.address) then 0 else 1) +
      (if Truthy(f.phone) && ValidPhone(f.phone.value) then 0 else 1) +
      (if Truthy(f.idCard) && ValidIdCard(f.idCard.value) then 0 else 1)
    ensures |errs| <= 4
    ensures !Truthy(f.storeName) ==> errs[0] == StoreNameRequired
  {
    FieldErrors(f.storeName, StoreNameRequired, None, "")
    + FieldErrors(f.address, AddressRequired, None, "")
    + FieldErrors(f.phone, PhoneRequired, Some(ValidPhone), PhonePatternMessage)
    + FieldErrors(f.idCard, IdCardRequired, Some(ValidIdCard), IdCardPatternMessage)
  }

  /** The body of `POST /SellerRegistration` (`formattedValues`). */
  datatype SellerPayload = SellerPayload(
    storeName: Option<string>,
    address: Option<string>,
    phone: Option<string>,
    idCard: Option<string>)

  /** `formattedValues`: the four submitted fields, copied from the form. */
  function FormattedValues(f: SellerForm): (p: SellerPayload)
    ensures p.storeName == f.storeName && p.address == f.address && p.phone == f.phone && p.idCard == f.idCard
  {
    SellerPayload(f.storeName, f.address, f.phone, f.idCard)
  }

  /**
   * A form that passes validation yields a payload whose four fields are
   * present and non-empty, with a ten-digit phone and a 9-12 digit card;
   * the displayed user name and email are never part of it.
   */
  lemma ValidFormGivesValidPayload(f: SellerForm, userName: Option<string>, email: Option<string>)
    requires ValidationErrors(f) == []
    ensures var p := FormattedValues(f);
      Truthy(p.storeName) && Truthy(p.address) &&
      Truthy(p.phone) && |p.phone.value| == 10 && AllDigits(p.phone.value) &&
      Truthy(p.idCard) && 9 <= |p.idCard.value| <= 12 && AllDigits(p.idCard.value)
    ensures FormattedValues(f.(userName := userName, email := email)) == FormattedValues(f)
  {
    var e1 := FieldErrors(f.storeName, StoreNameRequired, None, "");
    var e2 := FieldErrors(f.address, AddressRequired, None, "");
    var e3 := FieldErrors(f.phone, PhoneRequired, Some(ValidPhone), PhonePatternMessage);
    var e4 := FieldErrors(f.idCard, IdCardRequired, Some(ValidIdCard), IdCardPatternMessage);
    assert |e1 + e2 + e3 + e4| == |e1| + |e2| + |e3| + |e4|;
    PhoneRule(f.phone.value);
    IdCardRule(f.idCard.value);
  }

  // ---------------------------------------------------------------------
  // Prefill from the current user's profile
  // ---------------------------------------------------------------------

  /** The fields of `GET /Users/current-user` the page uses. */
  datatype Profile = Profile(name: Option<string>, email: Option<string>, phone: Option<string>, address: Option<string>)

  /** `form.setFieldsValue(...)`: `name` goes to `userName`; email, phone and address to their namesakes. */
  function Prefill(f: SellerForm, p: Profile): (g: SellerForm)
    ensures g.userName == p.name && g.email == p.email && g.phone == p.phone && g.address == p.address
    ensures g.storeName == f.storeName && g.idCard == f.idCard
  {
    f.(email := p.email, userName := p.name, phone := p.phone, address := p.address)
  }

  /**
   * A prefilled form, submitted as is, sends the typed store name and card
   * with the profile's phone and address; the profile's name and email are
   * not sent.
   */
  lemma PrefillThenSubmit(f: SellerForm, p: Profile)
    ensures FormattedValues(Prefill(f, p)) == SellerPayload(f.storeName, p.address, p.phone, f.idCard)
  {
  }

  const LoginPrompt: string := "Vui lòng đăng nhập để tiếp tục."
  const SessionExpired: string := "Phiên đăng nhập đã hết hạn. Vui lòng đăng nhập lại."
  const ProfileUnavailable: string := "Không thể lấy thông tin người dùng. Vui lòng thử lại sau."

  /** How `GET /Users/current-user` ended. */
  datatype ProfileReply =
    | Fetched(okStatus: SuccessStatus, profile: Profile)
    | FetchRefused(status: int)                // an error response
    | FetchUnreachable                         // no response at all

  /** The page after loading: the form, an error toast, and where it navigated, if anywhere. */
  datatype LoadOutcome = LoadOutcome(form: SellerForm, notice: Option<Notice>, redirect: Option<string>)

  /** `fetchUserData` on mount. */
  function LoadProfile(token: Option<string>, reply: ProfileReply, f: SellerForm): (r: LoadOutcome)
    ensures !Truthy(token) ==> r == LoadOutcome(f, Some(Error(LoginPrompt)), Some(LoginRoute))
    ensures Truthy(token) && reply.Fetched? && reply.okStatus == 200 ==> r == LoadOutcome(Prefill(f, reply.profile), None, None)
    ensures Truthy(token) && reply.Fetched? && reply.okStatus != 200 ==> r == LoadOutcome(f, None, None)
    ensures Truthy(token) && reply == FetchRefused(401) ==>
      r == LoadOutcome(f, Some(Error(SessionExpired)), Some(LoginRoute))
    ensures Truthy(token) && (reply.FetchUnreachable? || (reply.FetchRefused? && reply.status != 401)) ==>
      r == LoadOutcome(f, Some(Error(ProfileUnavailable)), None)
    ensures r.form != f ==> Truthy(token) && reply.Fetched? && reply.okStatus == 200
    ensures r.redirect.Some? <==> !Truthy(token) || (reply.FetchRefused? && reply.status == 401)
  {
    if !Truthy(token) then LoadOutcome(f, Some(Error(LoginPrompt)), Some(LoginRoute))
    else
      match reply
      case Fetched(status, profile) =>
        if status == 200 then LoadOutcome(Prefill(f, profile), None, None) else LoadOutcome(f, None, None)
      case FetchRefused(status) =>
        if status == 401 then LoadOutcome(f, Some(Error(SessionExpired)), Some(LoginRoute))
        else LoadOutcome(f, Some(Error(ProfileUnavailable)), None)
      case FetchUnreachable =>
        LoadOutcome(f, Some(Error(ProfileUnavailable)), None)
  }

  // ---------------------------------------------------------------------
  // onFinish: submission and the error message
  // ---------------------------------------------------------------------

  const SubmittedMessage: string := "Yêu cầu đăng ký đã được gửi đi. Vui lòng chờ admin phê duyệt."
  const GenericError: string := "Có lỗi xảy ra. Vui lòng thử lại sau."
  const MessageSeparator: string := ", "

  /**
   * The body of an error response: none, a plain string, or an object that
   * may carry an `errors` map (its values, in order, each an array of messages).
   */
  datatype ErrorBody = NoBody | TextBody(text: string) | ObjectBody(errors: Option<seq<seq<string>>>)

  /** How `POST /SellerRegistration` ended. */
  datatype SellerReply =
    | Answered(status: SuccessStatus)
    | Refused(body: ErrorBody)     // an error response
    | NoResponse                   // no response at all

  /** The message shown for an error response body. */
  function ErrorMessage(body: ErrorBody): (m: string)
    ensures body.TextBody? && body.text != "" ==> m == body.text
    ensures body.NoBody? || body == TextBody("") || body == ObjectBody(None) ==> m == GenericError
    ensures body.ObjectBody? && body.errors.Some? ==> m == Join(Flat(body.errors.value), MessageSeparator)
  {
    match body
    case NoBody => GenericError
    case TextBody(text) => if text != "" then text else GenericError
    case ObjectBody(errors) =>
      if errors.Some? then Join(Flat(errors.value), MessageSeparator) else GenericError
  }

  /**
   * For an `errors` object, every message of every field appears in the
   * toast, and its length is the messages' total length plus one separator
   * between each two.
   */
  lemma ErrorsAllShown(errors: seq<seq<string>>, i: nat, j: nat)
    requires i < |errors| && j < |errors[i]|
    ensures Includes(ErrorMessage(ObjectBody(Some(errors))), errors[i][j])
    ensures |ErrorMessage(ObjectBody(Some(errors)))| ==
      TotalLength(Flat(errors)) + |MessageSeparator| * (|Flat(errors)| - 1)
  {
    FlatContains(errors, i, j);
    var msgs := Flat(errors);
    var k :| 0 <= k < |msgs| && msgs[k] == errors[i][j];
    JoinIncludesParts(msgs, MessageSeparator, k);
    JoinLength(msgs, MessageSeparator);
  }

  /** What one submission did: the request sent (if any), the toast, and the form afterwards. */
  datatype SubmitOutcome = SubmitOutcome(request: Option<SellerPayload>, notice: Notice, form: SellerForm)

  /** `onFinish`, given the stored token and how the request ended. */
  function OnFinish(f: SellerForm, token: Option<string>, reply: SellerReply): (r: SubmitOutcome)
    ensures r.request.None? <==> !Truthy(token)
    ensures r.request.Some? ==> r.request.value == FormattedValues(f)
    ensures r.notice.Success? <==> Truthy(token) && reply == Answered(201)
    ensures r.notice.Success? ==> r.notice.text == SubmittedMessage && r.form == EmptyForm
    ensures !r.notice.Success? ==> r.form == f
    ensures Truthy(token) && reply.Refused? ==> r.notice == Error(ErrorMessage(reply.body))
    ensures !Truthy(token) || reply.NoResponse? || (reply.Answered? && reply.status != 201) ==>
      r.notice == Error(GenericError)
  {
    if !Truthy(token) then SubmitOutcome(None, Error(GenericError), f)
    else
      var request := Some(FormattedValues(f));
      match reply
      case Answered(status) =>
        if status == 201 then SubmitOutcome(request, Success(SubmittedMessage), EmptyForm)
        else SubmitOutcome(request, Error(GenericError), f)
      case Refused(body) => SubmitOutcome(request, Error(ErrorMessage(body)), f)
      case NoResponse => SubmitOutcome(request, Error(GenericError), f)
  }

  /** The submit button: the form's rules first, and `onFinish` only when none fails. */
  function Submit(f: SellerForm, token: Option<string>, reply: SellerReply): (r: Result<SubmitOutcome, seq<string>>)
    ensures r.Err? <==> ValidationErrors(f) != []
    ensures r.Err? ==> r.error == ValidationErrors(f)
    ensures r.Ok? ==> r.value == OnFinish(f, token, reply)
    ensures r.Ok? && r.value.request.Some? ==>
      var p := r.value.request.value;
      p.phone.Some? && ValidPhone(p.phone.value) && p.idCard.Some? && ValidIdCard(p.idCard.value)
  {
    var errors := ValidationErrors(f);
    if errors != [] then Err(errors)
    else
      ValidFormGivesValidPayload(f, f.userName, f.email);
      PhoneRule(f.phone.value);
      IdCardRule(f.idCard.value);
      Ok(OnFinish(f, token, reply))
  }
}
