/** The sign-in form of src/app/login/page.tsx: email, password and
    "remember me", an error text, a success text and a loading flag. Arriving
    with `registered=true` shows a welcome text; a submit clears both texts,
    calls the sign-in function, then goes to the `redirect` query value, or to
    "/" when there is none, or shows the error. The query string is fixed for
    the page's lifetime; the sign-in call and navigation are the results of
    `SubmitStart` and `SubmitSettle`. */
module LoginPage {
  import opened Common
  import Proxy

  const MsgRegistered := "Registration successful! Please sign in."
  const MsgGeneric := "An error occurred. Please try again."

  /** `searchParams.get('redirect') || '/'`. */
  function RedirectTarget(redirect: Option<string>): (target: string)
    ensures Truthy(redirect) ==> target == redirect.value
    ensures !Truthy(redirect) ==> target == "/"
    ensures target != ""
  {
    if Truthy(redirect) then redirect.value else "/"
  }

  /** The effect on the `registered` query value. */
  function WelcomeText(registered: Option<string>): (t: string)
    ensures t == MsgRegistered <==> registered == Some("true")
    ensures t == "" <==> registered != Some("true")
  {
    if registered == Some("true") then MsgRegistered else ""
  }

  /** The arguments `login` is called with. */
  datatype LoginCall = LoginCall(email: string, password: string, rememberMe: bool)

  /** How `login` ended: resolved, rejected with an `Error` (which carries a
      message), or rejected with some other value. */
  datatype LoginOutcome = SignedIn | FailedWithError(message: string) | FailedOther

  /** `err instanceof Error ? err.message : 'An error occurred...'`. */
  function FailureText(outcome: LoginOutcome): (t: string)
    requires !outcome.SignedIn?
    ensures outcome.FailedWithError? ==> t == outcome.message
    ensures outcome.FailedOther? ==> t == MsgGeneric
  {
    if outcome.FailedWithError? then outcome.message else MsgGeneric
  }

  datatype Field = Email | Password

  class LoginForm {
    /** The query values `registered` and `redirect`. */
    const registered: Option<string>
    const redirect: Option<string>

    var email: string
    var password: string
    var rememberMe: bool
    var error: string
    var successMessage: string
    var loading: bool
    var navigatedTo: Option<string>

    /** The first render followed by the effect on the query string. */
    constructor (registered: Option<string>, redirect: Option<string>)
      ensures this.registered == registered && this.redirect == redirect
      ensures email == "" && password == "" && !rememberMe && error == "" && !loading && navigatedTo == None
      ensures successMessage == WelcomeText(registered)
    {
      this.registered := registered;
      this.redirect := redirect;
      email := "";
      password := "";
      rememberMe := false;
      error := "";
      loading := false;
      navigatedTo := None;
      successMessage := WelcomeText(registered);
    }

    method HandleChange(name: Field, value: string)
      modifies this
      ensures name == Email ==> email == value && password == old(password)
      ensures name == Password ==> password == value && email == old(email)
      ensures rememberMe == old(rememberMe) && error == old(error) && successMessage == old(successMessage)
      ensures loading == old(loading) && navigatedTo == old(navigatedTo)
    {
      if name == Email {
        email := value;
      } else {
        password := value;
      }
    }

    method SetRememberMe(checked: bool)
      modifies this
      ensures rememberMe == checked
      ensures email == old(email) && password == old(password) && error == old(error)
      ensures successMessage == old(successMessage) && loading == old(loading) && navigatedTo == old(navigatedTo)
    {
      rememberMe := checked;
    }

    /** `handleSubmit` up to the `await`: both texts cleared, loading set,
        and the form's values, "remember me" included, passed on unchanged. */
    method SubmitStart() returns (call: LoginCall)
      modifies this
      ensures call == LoginCall(old(email), old(password), old(rememberMe))
      ensures error == "" && successMessage == "" && loading
      ensures email == old(email) && password == old(password) && rememberMe == old(rememberMe)
      ensures navigatedTo == old(navigatedTo)
    {
      error := "";
      successMessage := "";
      loading := true;
      call := LoginCall(email, password, rememberMe);
    }

    /** `handleSubmit` after the `await`. */
    method SubmitSettle(outcome: LoginOutcome)
      modifies this
      ensures outcome.SignedIn? ==>
        navigatedTo == Some(RedirectTarget(redirect)) && error == old(error) && loading == old(loading)
      ensures !outcome.SignedIn? ==>
        error == FailureText(outcome) && !loading && navigatedTo == old(navigatedTo)
      ensures email == old(email) && password == old(password) && rememberMe == old(rememberMe)
      ensures successMessage == old(successMessage)
    {
      if outcome.SignedIn? {
        navigatedTo := Some(RedirectTarget(redirect));
      } else {
        error := FailureText(outcome);
        loading := false;
      }
    }
  }

  /** The round trip through the route guard: when a signed-out visit to a
      page is sent to the login page, the page's `redirect` value is that
      page, signing in returns there, and the guard then lets the signed-in
      visit through. */
  lemma LoginReturnsToGuardedPage(pathname: string)
    requires Proxy.Decide(pathname, false).RedirectLogin?
    ensures RedirectTarget(Some(Proxy.Decide(pathname, false).redirect)) == pathname
    ensures Proxy.Decide(RedirectTarget(Some(Proxy.Decide(pathname, false).redirect)), true) == Proxy.Next
  {
  }
}
