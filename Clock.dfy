/**
  The clock page: a greeting that toggles between Hello and Goodbye, a one-way log-out,
  an arrow-key switch of the focused button, and a timer tick that replaces the date.
 */
module ClockPage {
  import opened Wrappers

  /** A point in time, in milliseconds; the wall clock itself is a parameter. */
  type Date = int

  const EntityName := "React"

  // ---------------------------------------------------------------------------
  // State and transitions

  /** The state of `Clock` and its `clickOnFocus` instance field. */
  datatype ClockState = ClockState(date: Date, message: string, isLoggedIn: bool, clickOnFocus: bool)

  /** The events the page handles: a click on "Click Me", "Log Out", a key press, a timer tick. */
  datatype ClockEvent = Click | Logout | KeyDown(keyCode: int) | Tick(now: Date)

  function Initial(now: Date): ClockState {
    ClockState(now, "Hello", true, true)
  }

  /** The greeting after a click: back to Hello from Goodbye, Goodbye from anything else. */
  function NextMessage(message: string): string {
    if message == "Goodbye" then "Hello" else "Goodbye"
  }

  /** The left and right arrow keys. */
  predicate IsArrowKey(keyCode: int) { keyCode == 37 || keyCode == 39 }

  function Step(s: ClockState, e: ClockEvent): ClockState {
    match e
    case Click => s.(message := NextMessage(s.message))
    case Logout => s.(isLoggedIn := false)
    case KeyDown(code) => if IsArrowKey(code) then s.(clickOnFocus := !s.clickOnFocus) else s
    case Tick(now) => s.(date := now)
  }

  function Run(s: ClockState, events: seq<ClockEvent>): ClockState
    decreases |events|
  {
    if events == [] then s else Run(Step(s, events[0]), events[1..])
  }

  // ---------------------------------------------------------------------------
  // Focus and rendering

  datatype Button = ClickButton | LogoutButton

  /** The button that receives focus after an arrow key, given the new `clickOnFocus`. */
  function FocusTarget(clickOnFocus: bool): Button {
    if clickOnFocus then LogoutButton else ClickButton
  }

  /** What `Clock.render` shows: the login page once logged out, else the welcome page. */
  datatype ClockView = LoginView | WelcomeView(heading: string)

  function Render(s: ClockState): (v: ClockView)
    ensures v.LoginView? <==> !s.isLoggedIn
    ensures v.WelcomeView? ==> v.heading == s.message + " " + EntityName + "!!"
  {
    if !s.isLoggedIn then LoginView else WelcomeView(s.message + " " + EntityName + "!!")
  }

  // ---------------------------------------------------------------------------
  // The component

  class Clock {
    var date: Date
    var message: string
    var isLoggedIn: bool
    var clickOnFocus: bool

    function State(): ClockState
      reads this
    {
      ClockState(date, message, isLoggedIn, clickOnFocus)
    }

    constructor (now: Date)
      ensures State() == Initial(now)
    {
      date, message, isLoggedIn, clickOnFocus := now, "Hello", true, true;
    }

    method ClickHandler()
      modifies this
      ensures State() == Step(old(State()), Click)
      ensures message == NextMessage(old(message))
      ensures date == old(date) && isLoggedIn == old(isLoggedIn) && clickOnFocus == old(clickOnFocus)
    {
      var m := "Goodbye";
      if message == "Goodbye" {
        m := "Hello";
      }
      message := m;
    }

    method LogoutHandler()
      modifies this
      ensures State() == Step(old(State()), Logout)
      ensures !isLoggedIn
      ensures date == old(date) && message == old(message) && clickOnFocus == old(clickOnFocus)
    {
      isLoggedIn := false;
    }

    /** Flips `clickOnFocus` on an arrow key and returns the button that then gets focus. */
    method KeyPress(keyCode: int) returns (focus: Option<Button>)
      modifies this
      ensures State() == Step(old(State()), KeyDown(keyCode))
      ensures IsArrowKey(keyCode) ==> clickOnFocus == !old(clickOnFocus) && focus == Some(FocusTarget(clickOnFocus))
      ensures !IsArrowKey(keyCode) ==> State() == old(State()) && focus == None
    {
      focus := None;
      if keyCode == 39 || keyCode == 37 {
        clickOnFocus := !clickOnFocus;
        if clickOnFocus {
          focus := Some(LogoutButton);
        } else {
          focus := Some(ClickButton);
        }
      }
    }

    method Tick(now: Date)
      modifies this
      ensures State() == Step(old(State()), ClockEvent.Tick(now))
      ensures date == now
      ensures message == old(message) && isLoggedIn == old(isLoggedIn) && clickOnFocus == old(clickOnFocus)
    {
      date := now;
    }
  }

  // ---------------------------------------------------------------------------
  // Lemmas

  /** Two clicks restore the greeting exactly when it is Hello or Goodbye. */
  lemma ClickTwice(message: string)
    ensures NextMessage(NextMessage(message)) == message <==> message == "Hello" || message == "Goodbye"
  {
  }

  /** The greeting only ever alternates between Hello and Goodbye from the initial state. */
  lemma {:induction false} MessageAlternates(s: ClockState, events: seq<ClockEvent>)
    requires s.message == "Hello" || s.message == "Goodbye"
    ensures Run(s, events).message == "Hello" || Run(s, events).message == "Goodbye"
    decreases |events|
  {
    if events != [] {
      MessageAlternates(Step(s, events[0]), events[1..]);
    }
  }

  /** After any events the page is logged in exactly when it was and no Logout occurred: logged out is absorbing. */
  lemma {:induction false} LoggedInUntilLogout(s: ClockState, events: seq<ClockEvent>)
    ensures Run(s, events).isLoggedIn <==> s.isLoggedIn && Logout !in events
    decreases |events|
  {
    if events != [] {
      LoggedInUntilLogout(Step(s, events[0]), events[1..]);
      assert events == [events[0]] + events[1..];
    }
  }

  /** The number of arrow-key presses among `events`. */
  function ArrowPresses(events: seq<ClockEvent>): nat
    decreases |events|
  {
    if events == [] then 0
    else (if events[0].KeyDown? && IsArrowKey(events[0].keyCode) then 1 else 0) + ArrowPresses(events[1..])
  }

  /** `clickOnFocus` has flipped once per arrow-key press and for no other event. */
  lemma {:induction false} FocusFlipsPerArrow(s: ClockState, events: seq<ClockEvent>)
    ensures Run(s, events).clickOnFocus == (s.clickOnFocus == (ArrowPresses(events) % 2 == 0))
    decreases |events|
  {
    if events != [] {
      FocusFlipsPerArrow(Step(s, events[0]), events[1..]);
    }
  }

  /** Key presses change nothing but `clickOnFocus`; ticks change nothing but the date. */
  lemma StepFrames(s: ClockState, code: int, now: Date)
    ensures Step(s, KeyDown(code)) == s.(clickOnFocus := Step(s, KeyDown(code)).clickOnFocus)
    ensures !IsArrowKey(code) ==> Step(s, KeyDown(code)) == s
    ensures Step(s, Tick(now)) == s.(date := now)
    ensures Step(s, Click).isLoggedIn == s.isLoggedIn && Step(s, Click).date == s.date
  {
  }
}
