/** The pure part of the email-verification component: the ten flow states and
    their wire names, the email and code validators that enable the two form
    buttons, and the choice of one screen per state. */
module EmailVerificationComponent {
  import opened JsValues
  import opened Optional

  datatype VerificationState =
    | Initial
    | EmailVerification
    | CodeVerification
    | Verified
    | Applying
    | ApplicationReceived
    | Success
    | SoldOut
    | AlreadyApplied
    | Error

  /** The string literal the state is written as. */
  function Name(s: VerificationState): string {
    match s
    case Initial => "initial"
    case EmailVerification => "email-verification"
    case CodeVerification => "code-verification"
    case Verified => "verified"
    case Applying => "applying"
    case ApplicationReceived => "application-received"
    case Success => "success"
    case SoldOut => "sold-out"
    case AlreadyApplied => "already-applied"
    case Error => "error"
  }

  /** The state a string names, if it names one. */
  function Parse(name: string): (r: Option<VerificationState>)
    ensures r.Some? ==> Name(r.value) == name
    ensures forall s :: Name(s) == name ==> r == Some(s)
  {
    if name == "initial" then Some(Initial)
    else if name == "email-verification" then Some(EmailVerification)
    else if name == "code-verification" then Some(CodeVerification)
    else if name == "verified" then Some(Verified)
    else if name == "applying" then Some(Applying)
    else if name == "application-received" then Some(ApplicationReceived)
    else if name == "success" then Some(Success)
    else if name == "sold-out" then Some(SoldOut)
    else if name == "already-applied" then Some(AlreadyApplied)
    else if name == "error" then Some(Error)
    else None
  }

  /** `\s` in an ECMAScript regular expression: the WhiteSpace and
      LineTerminator code points. None lies above U+FFFF, so matching on code
      points agrees with the regex engine's matching on UTF-16 code units. */
  predicate IsJsWhitespace(c: char) {
    var n := c as int;
    || 0x09 <= n <= 0x0D
    || n == 0x20 || n == 0xA0 || n == 0x1680
    || 0x2000 <= n <= 0x200A
    || n == 0x2028 || n == 0x2029 || n == 0x202F || n == 0x205F
    || n == 0x3000 || n == 0xFEFF
  }

  /** The character class `[^\s@]`. */
  predicate IsAddressChar(c: char) {
    !IsJsWhitespace(c) && c != '@'
  }

  predicate AllAddressChars(s: string) {
    forall i :: 0 <= i < |s| ==> IsAddressChar(s[i])
  }

  /** `s` splits as `local@host.tld` at the `@` index `at` and the `.` index
      `dot`, each of the three parts a non-empty run of `[^\s@]`. */
  predicate EmailSplit(s: string, at: int, dot: int) {
    && 0 < at && at + 1 < dot && dot + 1 < |s|
    && s[at] == '@' && s[dot] == '.'
    && AllAddressChars(s[..at]) && AllAddressChars(s[at + 1..dot]) && AllAddressChars(s[dot + 1..])
  }

  /** What `/^[^\s@]+@[^\s@]+\.[^\s@]+$/.test(s)` means, read off the pattern. */
  ghost predicate MatchesEmailPattern(s: string) {
    exists at, dot :: EmailSplit(s, at, dot)
  }

  /** `d` has a `.` with at least one character on each side. */
  predicate HasInnerDot(d: string) {
    exists k :: 0 < k < |d| - 1 && d[k] == '.'
  }

  /** `at` is the only index of `@` in `s`. */
  predicate OnlyAtSign(s: string, at: int) {
    forall j :: 0 <= j < |s| && s[j] == '@' ==> j == at
  }

  /** `isValidEmail`: no whitespace, exactly one `@` with something before it,
      and a `.` strictly inside the part after it. */
  predicate IsValidEmail(email: string) {
    && (forall i :: 0 <= i < |email| ==> !IsJsWhitespace(email[i]))
    && exists at :: 0 < at < |email| && email[at] == '@' && OnlyAtSign(email, at) && HasInnerDot(email[at + 1..])
  }

  /** The character-level check accepts exactly the strings the pattern matches. */
  lemma EmailPatternIff(s: string)
    ensures IsValidEmail(s) <==> MatchesEmailPattern(s)
  {
    if IsValidEmail(s) {
      var at :| 0 < at < |s| && s[at] == '@' && OnlyAtSign(s, at) && HasInnerDot(s[at + 1..]);
      var d := s[at + 1..];
      var k :| 0 < k < |d| - 1 && d[k] == '.';
      var dot := at + 1 + k;
      assert s[dot] == d[k];
      forall i | 0 <= i < |s| && i != at ensures IsAddressChar(s[i]) {
        assert !IsJsWhitespace(s[i]);
      }
      assert EmailSplit(s, at, dot);
    }
    if MatchesEmailPattern(s) {
      var at, dot :| EmailSplit(s, at, dot);
      forall i | 0 <= i < |s| && i != at && i != dot ensures IsAddressChar(s[i]) {
        if i < at {
          assert s[i] == s[..at][i];
        } else if i < dot {
          assert s[i] == s[at + 1..dot][i - at - 1];
        } else {
          assert s[i] == s[dot + 1..][i - dot - 1];
        }
      }
      var d := s[at + 1..];
      assert d[dot - at - 1] == s[dot];
      assert HasInnerDot(d);
      assert OnlyAtSign(s, at);
    }
  }

  /** Whitespace anywhere, a missing `@`, or a second `@` each make the address invalid. */
  lemma EmailRejections(s: string)
    ensures (exists i :: 0 <= i < |s| && IsJsWhitespace(s[i])) ==> !IsValidEmail(s)
    ensures (forall i :: 0 <= i < |s| ==> s[i] != '@') ==> !IsValidEmail(s)
    ensures (exists i, j :: 0 <= i < j < |s| && s[i] == '@' && s[j] == '@') ==> !IsValidEmail(s)
  {
    if IsValidEmail(s) {
      var at :| 0 < at < |s| && s[at] == '@' && OnlyAtSign(s, at) && HasInnerDot(s[at + 1..]);
      assert forall i, j :: 0 <= i < j < |s| && s[i] == '@' && s[j] == '@' ==> i == at && j == at;
    }
  }

  /** `isCodeValid`: the code's JavaScript `length` is 6. */
  predicate IsCodeValid(code: string) {
    Utf16Length(code) == 6
  }

  /** The code check looks only at the length, never at the characters: an
      accepted code has between three and six code points, and a code with no
      code point above U+FFFF is accepted exactly when it has six. */
  lemma CodeCheckIsLengthOnly(code: string)
    ensures IsCodeValid(code) ==> 3 <= |code| <= 6
    ensures (forall i :: 0 <= i < |code| ==> code[i] as int <= 0xFFFF) ==> (IsCodeValid(code) <==> |code| == 6)
  {
    Utf16LengthBounds(code);
  }

  /** The text shown on the shared outcome screen. */
  datatype Notice = StockExhausted | AlreadyParticipated | TryAgain

  /** The outcome screen's message table, keyed by state. */
  const OutcomeNotices: map<VerificationState, Notice> :=
    map[SoldOut := StockExhausted, AlreadyApplied := AlreadyParticipated, Error := TryAgain]

  /** The message table has an entry, and a different one, for each state that
      shows the outcome screen, and none for any other state. */
  lemma OutcomeNoticesComplete()
    ensures OutcomeNotices.Keys == {SoldOut, AlreadyApplied, Error}
    ensures OutcomeNotices[SoldOut] != OutcomeNotices[AlreadyApplied]
    ensures OutcomeNotices[SoldOut] != OutcomeNotices[Error]
    ensures OutcomeNotices[AlreadyApplied] != OutcomeNotices[Error]
  {
  }

  datatype Screen =
    | StartScreen
    | EmailScreen
    | CodeScreen
    | VerifiedScreen
    | ApplyingScreen
    | ReceivedScreen
    | SuccessScreen
    | OutcomeScreen(notice: Notice)

  predicate ShowsOutcome(state: VerificationState) {
    state == SoldOut || state == AlreadyApplied || state == Error
  }

  /** The children the card renders: one `state === ... && render...()` entry
      per screen, each present only when its guard holds. */
  function Rendered(state: VerificationState): (screens: seq<Screen>)
    ensures |screens| == 1
    ensures screens[0].OutcomeScreen? <==> ShowsOutcome(state)
    ensures ShowsOutcome(state) ==> screens[0] == OutcomeScreen(OutcomeNotices[state])
  {
    (if state == Initial then [StartScreen] else [])
    + (if state == EmailVerification then [EmailScreen] else [])
    + (if state == CodeVerification then [CodeScreen] else [])
    + (if state == Verified then [VerifiedScreen] else [])
    + (if state == Applying then [ApplyingScreen] else [])
    + (if state == ApplicationReceived then [ReceivedScreen] else [])
    + (if state == Success then [SuccessScreen] else [])
    + (if ShowsOutcome(state) then [OutcomeScreen(OutcomeNotices[state])] else [])
  }

  /** The one screen the card shows in `state`. */
  function ScreenFor(state: VerificationState): Screen {
    Rendered(state)[0]
  }

  /** No two states show the same screen: the three outcome states share the
      outcome screen but each fills it with its own message. */
  lemma ScreensDistinguishStates(s1: VerificationState, s2: VerificationState)
    ensures ScreenFor(s1) == ScreenFor(s2) ==> s1 == s2
  {
    OutcomeNoticesComplete();
  }
}
