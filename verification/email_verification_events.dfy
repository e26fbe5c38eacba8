/** What the email-verification form does with the user's input: each button
    exists only on its own screen, the two form buttons are disabled unless
    their input validates, and the click handlers forward to the page's
    handlers. The page's handlers never throw, so the form's `try`/`catch`
    wrappers add nothing and change no state of their own. */
module EmailVerificationEvents {
  import opened JsValues
  import opened Optional
  import opened Api
  import opened EmailVerificationComponent
  import opened FarewellEventPage

  /** One user action on the form. `PressVerify` carries the code input's
      current text, the form's only local state. */
  datatype UiEvent =
    | PressStart
    | TypeEmail(text: string)
    | PressSendCode(reply: FetchReply)
    | PressVerify(code: string, reply: FetchReply)
    | PressApply(reply: FetchReply)

  /** What an action does outside the page's state. */
  datatype Effect = NoEffect | HashChange(hash: string) | Sent(request: Request)

  /** The initial screen's button: it sets `window.location.hash` and calls
      nothing on the page, whose state therefore stays as it is. */
  method PressStartButton(page: FarewellEvent) returns (effect: Effect)
    ensures page.verificationState == Initial ==> effect == HashChange(Name(EmailVerification))
    ensures page.verificationState != Initial ==> effect == NoEffect
  {
    if ScreenFor(page.verificationState) == StartScreen {
      effect := HashChange("email-verification");
    } else {
      effect := NoEffect;
    }
  }

  /** The initial screen's button wired to the page's start handler, as the
      page's `onStartApplication` prop and the hash value name it. */
  method PressStartButtonIntended(page: FarewellEvent) returns (effect: Effect)
    modifies page`verificationState, page`stateWrites
    ensures effect == NoEffect
    ensures old(page.verificationState) == Initial ==>
      page.verificationState == EmailVerification && page.stateWrites == old(page.stateWrites) + [EmailVerification]
    ensures old(page.verificationState) != Initial ==>
      page.verificationState == old(page.verificationState) && page.stateWrites == old(page.stateWrites)
  {
    effect := NoEffect;
    if ScreenFor(page.verificationState) == StartScreen {
      page.HandleStartApplication();
    }
  }

  /** The email input, shown only on the email screen. */
  method TypeEmailInput(page: FarewellEvent, text: string)
    modifies page`email
    ensures page.email == if page.verificationState == EmailVerification then text else old(page.email)
  {
    if ScreenFor(page.verificationState) == EmailScreen {
      page.SetEmail(text);
    }
  }

  /** The send-code button: a request goes out exactly when the email screen
      is showing and the typed address is valid. */
  method PressSendCodeButton(page: FarewellEvent, reply: FetchReply) returns (effect: Effect)
    modifies page`verificationState, page`stateWrites
    ensures effect.Sent? <==> old(page.verificationState) == EmailVerification && IsValidEmail(page.email)
    ensures effect.Sent? ==> effect.request == SendVerificationCodeRequest(page.email)
    ensures effect.Sent? && ApiFetch(reply).Ok? ==>
      page.verificationState == CodeVerification && page.stateWrites == old(page.stateWrites) + [CodeVerification]
    ensures !(effect.Sent? && ApiFetch(reply).Ok?) ==>
      page.verificationState == old(page.verificationState) && page.stateWrites == old(page.stateWrites)
    ensures !effect.Sent? ==> effect == NoEffect
  {
    if ScreenFor(page.verificationState) == EmailScreen && IsValidEmail(page.email) {
      var request := page.HandleSendCode(page.email, reply);
      effect := Sent(request);
    } else {
      effect := NoEffect;
    }
  }

  /** The verify button: a request goes out exactly when the code screen is
      showing and the code has length 6. */
  method PressVerifyButton(page: FarewellEvent, code: string, reply: FetchReply) returns (effect: Effect)
    modifies page`authToken, page`verificationState, page`stateWrites
    ensures effect.Sent? <==> old(page.verificationState) == CodeVerification && IsCodeValid(code)
    ensures effect.Sent? ==> effect.request == VerifyCodeRequest(page.email, code)
    ensures effect.Sent? && VerifyCode(reply).Ok? ==>
      && page.verificationState == Verified && page.authToken == JUndefined
      && page.stateWrites == old(page.stateWrites) + [Verified]
    ensures !(effect.Sent? && VerifyCode(reply).Ok?) ==>
      && page.verificationState == old(page.verificationState) && page.stateWrites == old(page.stateWrites)
      && page.authToken == old(page.authToken)
    ensures !effect.Sent? ==> effect == NoEffect
  {
    if ScreenFor(page.verificationState) == CodeScreen && IsCodeValid(code) {
      var request := page.HandleVerifyCode(page.email, code, reply);
      effect := Sent(request);
    } else {
      effect := NoEffect;
    }
  }

  /** The apply button, shown only on the verified screen; the page's own guard
      then decides whether a request goes out. */
  method PressApplyButton(page: FarewellEvent, reply: FetchReply) returns (effect: Effect)
    modifies page`verificationState, page`stateWrites
    ensures effect.Sent? <==> old(page.verificationState) == Verified && Truthy(page.authToken)
    ensures effect.Sent? ==> effect.request == ApplyForGiftRequest(ToString(page.authToken))
    ensures !effect.Sent? ==>
      && effect == NoEffect
      && page.verificationState == old(page.verificationState) && page.stateWrites == old(page.stateWrites)
    ensures effect.Sent? ==>
      && page.verificationState == (if ApiFetch(reply).Ok? then ApplicationReceived else ApplyFailureState(ApiFetch(reply).error))
      && page.stateWrites == old(page.stateWrites) + [Applying, page.verificationState]
      && page.verificationState != Error
  {
    effect := NoEffect;
    if ScreenFor(page.verificationState) == VerifiedScreen {
      var sent := page.HandleApplyForGift(reply);
      if sent.Some? {
        effect := Sent(sent.value);
      }
    }
  }

  /** One action, as the form is written. On the initial screen nothing the
      user does changes the page: the only button there sets the hash. */
  method Dispatch(page: FarewellEvent, event: UiEvent) returns (effect: Effect)
    modifies page`email, page`authToken, page`verificationState, page`stateWrites
    ensures old(page.verificationState) == Initial ==>
      && page.verificationState == Initial && page.stateWrites == old(page.stateWrites)
      && page.email == old(page.email) && page.authToken == old(page.authToken)
      && (effect == NoEffect || effect == HashChange(Name(EmailVerification)))
  {
    match event
    case PressStart => effect := PressStartButton(page);
    case TypeEmail(text) => TypeEmailInput(page, text); effect := NoEffect;
    case PressSendCode(reply) => effect := PressSendCodeButton(page, reply);
    case PressVerify(code, reply) => effect := PressVerifyButton(page, code, reply);
    case PressApply(reply) => effect := PressApplyButton(page, reply);
  }

  /** Any session on a freshly loaded page, whatever the user does and
      whatever the backend answers, stays on the initial screen and sends no
      request. */
  method SessionStaysInitial(events: seq<UiEvent>) returns (final: VerificationState, effects: seq<Effect>)
    ensures final == Initial
    ensures |effects| == |events|
    ensures forall k :: 0 <= k < |effects| ==> !effects[k].Sent?
  {
    var page := new FarewellEvent();
    effects := [];
    for i := 0 to |events|
      invariant page.verificationState == Initial
      invariant |effects| == i
      invariant forall k :: 0 <= k < i ==> !effects[k].Sent?
    {
      var effect := Dispatch(page, events[i]);
      effects := effects + [effect];
    }
    final := page.verificationState;
  }

  /** A session with the start button wired to the page's start handler:
      the form gates the backend calls on the two validators, and a valid
      address and code that the backend accepts reach `'verified'`. */
  method SessionWithIntendedStart(
    address: string, code: string, sendReply: FetchReply, verifyReply: FetchReply)
    returns (final: VerificationState, requests: seq<Request>)
    ensures !IsValidEmail(address) ==> final == EmailVerification && requests == []
    ensures IsValidEmail(address) && ApiFetch(sendReply).Err? ==>
      final == EmailVerification && requests == [SendVerificationCodeRequest(address)]
    ensures IsValidEmail(address) && ApiFetch(sendReply).Ok? && !IsCodeValid(code) ==>
      final == CodeVerification && requests == [SendVerificationCodeRequest(address)]
    ensures IsValidEmail(address) && ApiFetch(sendReply).Ok? && IsCodeValid(code) ==>
      && requests == [SendVerificationCodeRequest(address), VerifyCodeRequest(address, code)]
      && final == (if VerifyCode(verifyReply).Ok? then Verified else CodeVerification)
  {
    var page := new FarewellEvent();
    requests := [];
    var effect := PressStartButtonIntended(page);
    TypeEmailInput(page, address);
    effect := PressSendCodeButton(page, sendReply);
    if effect.Sent? {
      requests := requests + [effect.request];
    }
    effect := PressVerifyButton(page, code, verifyReply);
    if effect.Sent? {
      requests := requests + [effect.request];
    }
    final := page.verificationState;
  }
}
