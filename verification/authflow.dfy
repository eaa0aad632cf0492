/** The sign-up and login pages: a two-stage OTP flow ('form', then 'otp') and
    an independent Google credential exchange. Both pages run the same
    handlers; the login page differs only in the name it sends with the OTP
    request. */
module AuthFlow {
  import opened Effects

  datatype Page = Signup | Login

  /** `useState<'form' | 'otp'>` */
  datatype Stage = Form | Otp

  /** The page's state hooks. The login page has no name input: its `name`
      stays "" and is never read. */
  datatype AuthState = AuthState(step: Stage, error: string, name: string, email: string, otp: string)

  const Initial := AuthState(Form, "", "", "", "")

  const SendOtpFailed := "Failed to send OTP"
  const VerifyOtpFailed := "OTP verification failed"
  const CredentialMissing := "Google credential missing"
  const GoogleLoginFailed := "Google login failed"

  /** The placeholder name the login page sends with every OTP request. */
  const LoginName := "User"

  /** The `name` field of the OTP request. */
  function OtpName(page: Page, s: AuthState): string {
    match page
    case Signup => s.name
    case Login => LoginName
  }

  /** Effects made only of requests: no token write, no navigation. */
  predicate OnlyRequests(effects: seq<Effect>) {
    forall e :: e in effects ==> e.Send?
  }

  /** A successful sign-in: one request, then the token write, then the
      navigation to the dashboard. */
  predicate SignsInWith(effects: seq<Effect>, request: Request, token: string) {
    effects == [Send(request), WriteToken(token), Navigate(DashboardPath)]
  }

  /** `handleSendOtp` */
  function HandleSendOtp(page: Page, s: AuthState, sent: Outcome<()>): (r: Step<AuthState>)
    ensures r.effects == [Send(SendOtp(OtpName(page, s), s.email))]
    ensures sent.Ok? ==> r.page == s.(step := Otp, error := "")
    ensures sent.Err? ==> r.page == s.(error := ServerMessageOr(sent.message, SendOtpFailed)) && r.page.error != ""
  {
    var effects := [Send(SendOtp(OtpName(page, s), s.email))];
    match sent
    case Ok(_) => Step(s.(step := Otp, error := ""), effects)
    case Err(m) => Step(s.(error := ServerMessageOr(m, SendOtpFailed)), effects)
  }

  /** `handleVerifyOtp`: on success the returned token is stored and the
      browser leaves for the dashboard; the page state is left as it was. */
  function HandleVerifyOtp(s: AuthState, verified: Outcome<Option<string>>): (r: Step<AuthState>)
    ensures Requests(r.effects) == [VerifyOtp(s.email, s.otp)]
    ensures verified.Ok? ==>
              r.page == s && SignsInWith(r.effects, VerifyOtp(s.email, s.otp), Stored(verified.payload))
    ensures verified.Ok? ==> forall slot :: ApplyToSlot(slot, r.effects) == Some(Stored(verified.payload))
    ensures verified.Err? ==>
              && r.page == s.(error := ServerMessageOr(verified.message, VerifyOtpFailed))
              && r.page.error != ""
              && OnlyRequests(r.effects)
  {
    var request := VerifyOtp(s.email, s.otp);
    match verified
    case Ok(token) =>
      var effects := [Send(request), WriteToken(Stored(token)), Navigate(DashboardPath)];
      assert effects[1..] == [WriteToken(Stored(token)), Navigate(DashboardPath)];
      Step(s, effects)
    case Err(m) => Step(s.(error := ServerMessageOr(m, VerifyOtpFailed)), [Send(request)])
  }

  /** `handleGoogleLogin`: a missing or empty credential is refused before any
      request; a failed exchange reports a fixed message, whatever the server
      said. */
  function HandleGoogleLogin(s: AuthState, credential: Option<string>, exchanged: Outcome<Option<string>>)
    : (r: Step<AuthState>)
    ensures credential.None? || credential.value == "" ==> r == Step(s.(error := CredentialMissing), [])
    ensures credential.Some? && credential.value != "" ==>
              && Requests(r.effects) == [GoogleLogin(credential.value)]
              && (exchanged.Ok? ==>
                    r.page == s && SignsInWith(r.effects, GoogleLogin(credential.value), Stored(exchanged.payload)))
              && (exchanged.Err? ==> r.page == s.(error := GoogleLoginFailed) && OnlyRequests(r.effects))
  {
    match credential
    case None => Step(s.(error := CredentialMissing), [])
    case Some(c) =>
      if c == "" then Step(s.(error := CredentialMissing), [])
      else
        match exchanged
        case Ok(token) =>
          var effects := [Send(GoogleLogin(c)), WriteToken(Stored(token)), Navigate(DashboardPath)];
          assert effects[1..] == [WriteToken(Stored(token)), Navigate(DashboardPath)];
          Step(s, effects)
        case Err(_) => Step(s.(error := GoogleLoginFailed), [Send(GoogleLogin(c))])
  }

  /** Everything that can happen on the page: typing into an input, or a
      handler running to completion with the service's outcome. */
  datatype Event =
    | EditName(name: string)
    | EditEmail(email: string)
    | EditOtp(otp: string)
    | SendOtpClicked(sent: Outcome<()>)
    | VerifyOtpClicked(verified: Outcome<Option<string>>)
    | GoogleSucceeded(credential: Option<string>, exchanged: Outcome<Option<string>>)
    | GoogleWidgetFailed

  /** The OTP was issued: the one event that moves the page to 'otp'. */
  predicate OtpIssued(e: Event) {
    e.SendOtpClicked? && e.sent.Ok?
  }

  /** The event ends in a session: a verified OTP, or an exchanged non-empty
      Google credential. */
  predicate SignsIn(e: Event) {
    || (e.VerifyOtpClicked? && e.verified.Ok?)
    || (e.GoogleSucceeded? && e.credential.Some? && e.credential.value != "" && e.exchanged.Ok?)
  }

  /** At index `i`: no slot clearing, no refetch, and a navigation (always to
      the dashboard) exactly right after a token write. */
  predicate ShapeAt(effects: seq<Effect>, i: int)
    requires 0 <= i < |effects|
  {
    && !effects[i].ClearToken?
    && !effects[i].Refetch?
    && (effects[i].Navigate? ==> i > 0 && effects[i - 1].WriteToken? && effects[i].path == DashboardPath)
    && (effects[i].WriteToken? ==> i + 1 < |effects| && effects[i + 1] == Navigate(DashboardPath))
  }

  /** Token writes and navigations only come as a write immediately followed by
      the navigation to the dashboard; nothing clears the slot or refetches. */
  predicate SignInShape(effects: seq<Effect>) {
    forall i :: 0 <= i < |effects| ==> ShapeAt(effects, i)
  }

  function Apply(page: Page, s: AuthState, e: Event): (r: Step<AuthState>)
    ensures r.page.step == Otp <==> s.step == Otp || OtpIssued(e)
    ensures SignInShape(r.effects)
    ensures (exists i :: 0 <= i < |r.effects| && r.effects[i].WriteToken?) <==> SignsIn(e)
    ensures r.page.error == s.error || r.page.error != "" || OtpIssued(e)
    ensures e.EditName? ==> r == Step(s.(name := e.name), [])
    ensures e.EditEmail? ==> r == Step(s.(email := e.email), [])
    ensures e.EditOtp? ==> r == Step(s.(otp := e.otp), [])
    ensures e.GoogleWidgetFailed? ==> r == Step(s.(error := GoogleLoginFailed), [])
  {
    match e
    case EditName(v) => Step(s.(name := v), [])
    case EditEmail(v) => Step(s.(email := v), [])
    case EditOtp(v) => Step(s.(otp := v), [])
    case SendOtpClicked(o) => HandleSendOtp(page, s, o)
    case VerifyOtpClicked(o) =>
      var r := HandleVerifyOtp(s, o);
      assert o.Ok? ==> r.effects[1].WriteToken?;
      r
    case GoogleSucceeded(c, o) =>
      var r := HandleGoogleLogin(s, c, o);
      assert SignsIn(e) ==> r.effects[1].WriteToken?;
      r
    case GoogleWidgetFailed => Step(s.(error := GoogleLoginFailed), [])
  }

  /** The page after `events`, and every effect they produced, in order. */
  function Run(page: Page, s: AuthState, events: seq<Event>): (r: Step<AuthState>)
    decreases |events|
  {
    if |events| == 0 then Step(s, [])
    else
      var first := Apply(page, s, events[0]);
      var rest := Run(page, first.page, events[1..]);
      Step(rest.page, first.effects + rest.effects)
  }

  /** The page is at 'otp' exactly when it started there or some OTP request
      succeeded: nothing ever moves it back to 'form'. */
  lemma {:induction false} OtpStageIffOtpIssued(page: Page, s: AuthState, events: seq<Event>)
    ensures Run(page, s, events).page.step == Otp
            <==> s.step == Otp || exists i :: 0 <= i < |events| && OtpIssued(events[i])
    decreases |events|
  {
    if |events| > 0 {
      var first := Apply(page, s, events[0]);
      OtpStageIffOtpIssued(page, first.page, events[1..]);
      if exists i :: 0 <= i < |events| && OtpIssued(events[i]) {
        var i :| 0 <= i < |events| && OtpIssued(events[i]);
        if i > 0 {
          assert OtpIssued(events[1..][i - 1]);
        }
      }
      if exists i :: 0 <= i < |events[1..]| && OtpIssued(events[1..][i]) {
        var i :| 0 <= i < |events[1..]| && OtpIssued(events[1..][i]);
        assert OtpIssued(events[i + 1]);
      }
    }
  }

  /** From the initial page, the stage stays 'form' until an OTP request
      succeeds. */
  lemma InitialFormUntilOtpIssued(page: Page, events: seq<Event>)
    ensures Initial.step == Form && Initial.error == ""
    ensures Run(page, Initial, events).page.step == Form
            <==> forall i :: 0 <= i < |events| ==> !OtpIssued(events[i])
  {
    OtpStageIffOtpIssued(page, Initial, events);
  }

  lemma SignInShapeConcat(a: seq<Effect>, b: seq<Effect>)
    requires SignInShape(a) && SignInShape(b)
    ensures SignInShape(a + b)
  {
    var ab := a + b;
    forall i | 0 <= i < |ab| ensures ShapeAt(ab, i) {
      if i < |a| {
        assert ShapeAt(a, i);
        assert ab[i] == a[i];
        if a[i].Navigate? {
          assert ab[i - 1] == a[i - 1];
        }
        if a[i].WriteToken? {
          assert ab[i + 1] == a[i + 1];
        }
      } else {
        var j := i - |a|;
        assert ShapeAt(b, j);
        assert ab[i] == b[j];
        if b[j].Navigate? {
          assert ab[i - 1] == b[j - 1];
        }
        if b[j].WriteToken? {
          assert ab[i + 1] == b[j + 1];
        }
      }
    }
  }

  /** Over any run of the page, the token slot is never cleared, and every
      navigation is to the dashboard, right after a token write. */
  lemma {:induction false} RunSignInShape(page: Page, s: AuthState, events: seq<Event>)
    ensures SignInShape(Run(page, s, events).effects)
    decreases |events|
  {
    if |events| > 0 {
      var first := Apply(page, s, events[0]);
      RunSignInShape(page, first.page, events[1..]);
      SignInShapeConcat(first.effects, Run(page, first.page, events[1..]).effects);
    }
  }

  /** A run in which no event signs in leaves the token slot as it was. */
  lemma {:induction false} FailedAttemptsKeepSlot(page: Page, s: AuthState, events: seq<Event>, slot: Option<string>)
    requires forall i :: 0 <= i < |events| ==> !SignsIn(events[i])
    ensures forall e :: e in Run(page, s, events).effects ==> !TouchesSlot(e)
    ensures ApplyToSlot(slot, Run(page, s, events).effects) == slot
    decreases |events|
  {
    if |events| > 0 {
      var first := Apply(page, s, events[0]);
      assert !SignsIn(events[0]);
      assert forall i :: 0 <= i < |events[1..]| ==> !SignsIn(events[1..][i]) by {
        forall i | 0 <= i < |events[1..]| ensures !SignsIn(events[1..][i]) {
          assert events[1..][i] == events[i + 1];
        }
      }
      FailedAttemptsKeepSlot(page, first.page, events[1..], slot);
      assert forall e :: e in first.effects ==> !TouchesSlot(e) by {
        forall e | e in first.effects ensures !TouchesSlot(e) {
          var k :| 0 <= k < |first.effects| && first.effects[k] == e;
        }
      }
    }
  }

  /** The login page is the sign-up page with the name fixed to "User": same
      page state, same effects. */
  lemma LoginIsSignupWithFixedName(s: AuthState, e: Event)
    requires !e.EditName?
    ensures var r := Apply(Signup, s.(name := LoginName), e);
            Apply(Login, s, e) == Step(r.page.(name := s.name), r.effects)
  {
  }
}
