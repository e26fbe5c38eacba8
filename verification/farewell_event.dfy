/** The farewell-event page's flow controller: the current verification state,
    the email being entered and the token kept after verification, and the four
    handlers that move the state according to what the backend answered. Each
    handler takes the backend's reply as a parameter and returns the request
    it would send, so "no request" is visible as `None`. */
module FarewellEventPage {
  import opened JsValues
  import opened Optional
  import opened Api
  import opened EmailVerificationComponent

  const AlreadyAppliedMarker: string := "already applied"

  /** Where a failed application leads: `'already-applied'` when the error's
      message contains the marker, `'sold-out'` for every other failure,
      including network and protocol errors. `'error'` is never chosen. */
  function ApplyFailureState(e: ApiError): (s: VerificationState)
    ensures s == AlreadyApplied || s == SoldOut
    ensures s == AlreadyApplied <==> exists i: nat :: OccursAt(Message(e), AlreadyAppliedMarker, i)
  {
    IncludesIff(Message(e), AlreadyAppliedMarker);
    if Includes(Message(e), AlreadyAppliedMarker) then AlreadyApplied else SoldOut
  }

  /** A 409 whose body says "already applied" leads to `'already-applied'`. */
  lemma AlreadyAppliedConflict()
    ensures var conflict := ApiFetch(Responded(409, Json(JObj(map["message" := JStr("already applied")]))));
      conflict.Err? && ApplyFailureState(conflict.error) == AlreadyApplied
  {
    var conflict := ApiFetch(Responded(409, Json(JObj(map["message" := JStr("already applied")]))));
    assert OccursAt(Message(conflict.error), AlreadyAppliedMarker, 0);
  }

  /** The generic "HTTP error! status: N" message never mentions "already applied". */
  lemma GenericMessageNeverAlreadyApplied(status: int)
    ensures !Includes(HttpErrorMessage(status), AlreadyAppliedMarker)
  {
    var digits := IntToString(status);
    assert 'y' !in digits by {
      IntToStringRoundTrip(status);
      forall k | 0 <= k < |digits| ensures digits[k] != 'y' {
        if status < 0 && k == 0 {
          assert digits[k] == '-';
        } else {
          assert IsDigit(digits[k]);
        }
      }
    }
    assert 'y' !in "HTTP error! status: ";
    assert AlreadyAppliedMarker[6] == 'y';
    MissingCharExcludes(HttpErrorMessage(status), AlreadyAppliedMarker, 'y');
  }

  /** A rejection whose body carries no truthy message gets the generic
      message, so whatever the status (409 included) the application ends in
      `'sold-out'`; this covers object bodies without a message and array,
      string, number and boolean bodies. */
  lemma BareRejectionIsSoldOut(status: int, body: JsValue)
    requires !IsOk(status) && !IsNullish(body)
    requires !Truthy(Prop(body, "message").value)
    ensures var r := ApiFetch(Responded(status, Json(body)));
      r.Err? && ApplyFailureState(r.error) == SoldOut
  {
    var r := ApiFetch(Responded(status, Json(body)));
    assert r == Err(RequestFailed(status, HttpErrorMessage(status)));
    GenericMessageNeverAlreadyApplied(status);
    IncludesIff(HttpErrorMessage(status), AlreadyAppliedMarker);
  }

  /** A rejection whose body is `null` makes reading its `message` throw a
      TypeError, whose text does not mention "already applied" either, so the
      application ends in `'sold-out'` too. */
  lemma NullRejectionIsSoldOut(status: int)
    requires !IsOk(status)
    ensures var r := ApiFetch(Responded(status, Json(JNull)));
      r.Err? && r.error.TypeError? && ApplyFailureState(r.error) == SoldOut
  {
    var m := Message(ApiFetch(Responded(status, Json(JNull))).error);
    var prefix, key, suffix := "Cannot read properties of null (reading '", "message", "')";
    assert m == prefix + key + suffix;
    assert 'y' !in prefix && 'y' !in key && 'y' !in suffix;
    assert 'y' !in m;
    assert AlreadyAppliedMarker[6] == 'y';
    MissingCharExcludes(m, AlreadyAppliedMarker, 'y');
  }

  class FarewellEvent {
    var verificationState: VerificationState
    var email: string
    /** `string | null` in the type, but whatever `response.token` read at run time. */
    var authToken: JsValue
    /** Every value handed to `setVerificationState`, oldest first. */
    ghost var stateWrites: seq<VerificationState>

    /** The apply guard `!authToken` rejects the held token. */
    predicate LacksToken()
      reads this
    {
      !Truthy(authToken)
    }

    constructor ()
      ensures verificationState == Initial && email == "" && authToken == JNull
      ensures stateWrites == [] && LacksToken()
    {
      verificationState := Initial;
      email := "";
      authToken := JNull;
      stateWrites := [];
    }

    method SetVerificationState(s: VerificationState)
      modifies this`verificationState, this`stateWrites
      ensures verificationState == s && stateWrites == old(stateWrites) + [s]
    {
      verificationState := s;
      stateWrites := stateWrites + [s];
    }

    /** `setEmail`, which the page hands to the form; no handler calls it. */
    method SetEmail(value: string)
      modifies this`email
      ensures email == value
    {
      email := value;
    }

    /** `handleSendCode`: on success move to code entry; on failure change nothing. */
    method HandleSendCode(emailToSend: string, reply: FetchReply) returns (sent: Request)
      modifies this`verificationState, this`stateWrites
      ensures sent == SendVerificationCodeRequest(emailToSend)
      ensures ApiFetch(reply).Ok? ==>
        verificationState == CodeVerification && stateWrites == old(stateWrites) + [CodeVerification]
      ensures ApiFetch(reply).Err? ==>
        verificationState == old(verificationState) && stateWrites == old(stateWrites)
    {
      sent := SendVerificationCodeRequest(emailToSend);
      if ApiFetch(reply).Ok? {
        SetVerificationState(CodeVerification);
      }
    }

    /** `handleVerifyCode`: on success keep `response.token` and move to
        `'verified'`; on failure change nothing. `verifyCode` resolves to an
        object whose only key is `temporaryToken`, so the token kept is
        always undefined. */
    method HandleVerifyCode(emailToVerify: string, code: string, reply: FetchReply) returns (sent: Request)
      modifies this`authToken, this`verificationState, this`stateWrites
      ensures sent == VerifyCodeRequest(emailToVerify, code)
      ensures VerifyCode(reply).Ok? ==>
        authToken == JUndefined && verificationState == Verified && stateWrites == old(stateWrites) + [Verified]
      ensures VerifyCode(reply).Err? ==>
        authToken == old(authToken) && verificationState == old(verificationState) && stateWrites == old(stateWrites)
      ensures LacksToken() || authToken == old(authToken)
    {
      sent := VerifyCodeRequest(emailToVerify, code);
      var r := VerifyCode(reply);
      if r.Ok? {
        match Prop(r.value, "token")
        case Value(token) =>
          authToken := token;
          SetVerificationState(Verified);
        case ThrowsTypeError(_) =>
      }
    }

    /** `handleVerifyCode` reading the key `verifyCode` actually returns: the
        token kept is the backend's `result.temporaryToken`, which is truthy. */
    method HandleVerifyCodeIntended(emailToVerify: string, code: string, reply: FetchReply) returns (sent: Request)
      modifies this`authToken, this`verificationState, this`stateWrites
      ensures sent == VerifyCodeRequest(emailToVerify, code)
      ensures VerifyCode(reply).Ok? ==>
        && VerifyCode(reply).value == AuthResponse(authToken) && Truthy(authToken)
        && verificationState == Verified && stateWrites == old(stateWrites) + [Verified]
      ensures VerifyCode(reply).Err? ==>
        authToken == old(authToken) && verificationState == old(verificationState) && stateWrites == old(stateWrites)
    {
      sent := VerifyCodeRequest(emailToVerify, code);
      var r := VerifyCode(reply);
      if r.Ok? {
        match Prop(r.value, "temporaryToken")
        case Value(token) =>
          authToken := token;
          SetVerificationState(Verified);
        case ThrowsTypeError(_) =>
      }
    }

    /** `handleStartApplication`: always move to email entry. */
    method HandleStartApplication()
      modifies this`verificationState, this`stateWrites
      ensures verificationState == EmailVerification
      ensures stateWrites == old(stateWrites) + [EmailVerification]
    {
      SetVerificationState(EmailVerification);
    }

    /** `handleApplyForGift`: without a truthy token, send nothing and change
        nothing; otherwise write `'applying'`, send the request, and then write
        `'application-received'` or the state the failure is classified as. */
    method HandleApplyForGift(reply: FetchReply) returns (sent: Option<Request>)
      modifies this`verificationState, this`stateWrites
      ensures !Truthy(authToken) ==>
        sent == None && verificationState == old(verificationState) && stateWrites == old(stateWrites)
      ensures Truthy(authToken) ==>
        && sent == Some(ApplyForGiftRequest(ToString(authToken)))
        && verificationState == (if ApiFetch(reply).Ok? then ApplicationReceived else ApplyFailureState(ApiFetch(reply).error))
        && stateWrites == old(stateWrites) + [Applying, verificationState]
    {
      if !Truthy(authToken) {
        sent := None;
        return;
      }
      SetVerificationState(Applying);
      sent := Some(ApplyForGiftRequest(ToString(authToken)));
      var r := ApiFetch(reply);
      if r.Ok? {
        SetVerificationState(ApplicationReceived);
      } else {
        SetVerificationState(ApplyFailureState(r.error));
      }
    }
  }

  /** A whole session through the handlers as written: start, enter an
      address, request a code, verify it, apply. However the backend answers,
      the apply handler never sends its request, and a successful
      verification leaves the page in `'verified'` for good. */
  method VerifiedSessionNeverApplies(
    address: string, code: string, sendReply: FetchReply, verifyReply: FetchReply, applyReply: FetchReply)
    returns (sent: Option<Request>, final: VerificationState)
    ensures sent == None
    ensures VerifyCode(verifyReply).Ok? ==> final == Verified
  {
    var page := new FarewellEvent();
    page.HandleStartApplication();
    page.SetEmail(address);
    var codeRequest := page.HandleSendCode(page.email, sendReply);
    var verifyRequest := page.HandleVerifyCode(page.email, code, verifyReply);
    sent := page.HandleApplyForGift(applyReply);
    final := page.verificationState;
  }

  /** The same session with the token read from `temporaryToken`: after a
      successful verification the apply request is sent with that token, and
      the page ends in `'application-received'`, `'already-applied'` or
      `'sold-out'`, never in `'error'`. */
  method VerifiedSessionApplies(
    address: string, code: string, sendReply: FetchReply, verifyReply: FetchReply, applyReply: FetchReply)
    returns (sent: Option<Request>, final: VerificationState)
    ensures VerifyCode(verifyReply).Ok? ==>
      exists t :: Truthy(t) && VerifyCode(verifyReply).value == AuthResponse(t)
                  && sent == Some(ApplyForGiftRequest(ToString(t)))
    ensures VerifyCode(verifyReply).Ok? ==>
      (final == ApplicationReceived <==> ApiFetch(applyReply).Ok?) && final in {ApplicationReceived, AlreadyApplied, SoldOut}
  {
    var page := new FarewellEvent();
    page.HandleStartApplication();
    page.SetEmail(address);
    var codeRequest := page.HandleSendCode(page.email, sendReply);
    var verifyRequest := page.HandleVerifyCodeIntended(page.email, code, verifyReply);
    sent := page.HandleApplyForGift(applyReply);
    final := page.verificationState;
  }
}
