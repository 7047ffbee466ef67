/**
  The login page: a one-way latch from logged out to logged in that decides whether the
  page shows the clock or the "not logged in" prompt.
 */
module LoginPage {

  const NotLoggedInMessage := "You are not Logged In. Try to click the button below!!"

  datatype LoginState = LoginState(isLoggedIn: bool, message: string)

  const Initial := LoginState(false, NotLoggedInMessage)

  /** The state after a click on "Log In". */
  function LoggedIn(s: LoginState): LoginState {
    s.(isLoggedIn := true)
  }

  /** The state after `n` clicks on "Log In". */
  function LoggedInTimes(s: LoginState, n: nat): LoginState
    decreases n
  {
    if n == 0 then s else LoggedInTimes(LoggedIn(s), n - 1)
  }

  /** What `Login.render` shows: the clock once logged in, else the prompt with the message. */
  datatype LoginView = ClockView | PromptView(heading: string)

  function Render(s: LoginState): (v: LoginView)
    ensures v.ClockView? <==> s.isLoggedIn
    ensures v.PromptView? ==> v.heading == s.message
  {
    if s.isLoggedIn then ClockView else PromptView(s.message)
  }

  class Login {
    var isLoggedIn: bool
    var message: string

    function State(): LoginState
      reads this
    {
      LoginState(isLoggedIn, message)
    }

    constructor ()
      ensures State() == Initial
    {
      isLoggedIn, message := false, NotLoggedInMessage;
    }

    method LoginHandler()
      modifies this
      ensures State() == LoggedIn(old(State()))
      ensures isLoggedIn && message == old(message)
    {
      isLoggedIn := true;
    }
  }

  /** Logging in is idempotent and keeps the message. */
  lemma LoginIdempotent(s: LoginState)
    ensures LoggedIn(LoggedIn(s)) == LoggedIn(s)
    ensures LoggedIn(s).message == s.message
  {
  }

  /** After `n` clicks the page is logged in exactly when it was or `n > 0`; it is never logged out again. */
  lemma {:induction false} LoggedInAfterClicks(s: LoginState, n: nat)
    ensures LoggedInTimes(s, n).isLoggedIn <==> s.isLoggedIn || n > 0
    ensures LoggedInTimes(s, n).message == s.message
    decreases n
  {
    if n > 0 {
      LoggedInAfterClicks(LoggedIn(s), n - 1);
    }
  }

  /** The fresh page shows the prompt with the fixed message. */
  lemma InitialView()
    ensures Render(Initial) == PromptView(NotLoggedInMessage)
  {
  }
}
