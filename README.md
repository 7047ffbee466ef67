# React tutorial application: a verified model of its stateful core

This project models, in Dafny, the logic inside a small instructional React application:

- **The boiling-temperature calculator** (src/Calculator.js). Two text inputs, Celsius and Fahrenheit, share one authoritative `(temperature, scale)` pair.
  - The field on the scale edited last shows the raw text.
  - The other field shows `tryConvert` of that text: empty when it is not a number, otherwise the converted value rounded to three decimals.
  - A verdict below the form says whether water boils. It is rendered only when the Celsius field holds a number.
- **The clock page** (src/Clock.js):
  - a Hello/Goodbye greeting toggle;
  - a one-way log-out;
  - an arrow-key switch of the focused button;
  - a timer tick that replaces the date.
- **The theme control** (src/index.js): two fixed themes and `toggleTheme`.
- **The login page** (src/Login.js): a one-way latch to logged in.
- **The error boundary** (src/ErrorBoundary.js): a `hasError` latch that selects the fallback heading over the children.

## How the model is built

- **Files.**
  - `NumberText.dfy` models `parseFloat` and `Number.prototype.toString` for the texts the calculator uses.
  - `Calculator.dfy` holds the conversion engine, the verdict, the display derivation and the two components `Calculator` and `TemperatureInput`.
  - `Clock.dfy`, `Themes.dfy`, `Login.dfy` and `ErrorBoundary.dfy` hold the other components.
  - `Wrappers.dfy` defines `Option`.
- **Components with state** become classes whose fields the handler methods update. Each method's `ensures` gives the whole new state.
  - Where the source's promise concerns sequences of events, each method is also tied to a pure step function on a state value (`Step` for the clock and for the error boundary, `LoggedIn`, `Toggled`).
  - Lemmas about runs of those step functions state the invariants: an absorbing logged-out state, a single flip per arrow key, an error latch, and a toggle parity.
- **`parseFloat`** is modelled on finite decimal literals with its prefix semantics:
  - leading white space is skipped;
  - an optional sign is read;
  - the longest decimal-literal prefix is taken (digits, an optional fraction, an optional exponent);
  - the rest of the text is ignored;
  - text with no such prefix gives NaN, written `None`.
- **`toString` of `Math.round(x * 1000) / 1000`** is modelled as the canonical decimal text of a multiple of 1/1000: no trailing zeros and no point for integers. The lemma `ParseShowThousandths` proves that `parseFloat` reads this text back as the same number. The verdict in Fahrenheit mode depends on this, because it parses the derived Celsius text.
- **`Math.round`** is modelled exactly over reals as `floor(x + 1/2)`, so ties go towards +infinity (`Math.round(-2.5) == -2`). This is not rounding half away from zero, which would give `-3`.
- **Arithmetic** is over `real`: the converters, the rounding and the verdict's comparison.

## Model

| member | source | states |
|---|---|---|
| `NumberText.ParseFloat` | src/Calculator.js:87-88 | the text is NaN exactly when, after white space and an optional sign, it starts neither with a digit nor with a point followed by a digit |
| `NumberText.ShowThousandths` | src/Calculator.js:98 | the text of a rounded result is never empty, so an empty field always means "not a number" |
| `NumberText.ParseShowThousandths` | src/Calculator.js:95-98 | `parseFloat` reads the displayed text of `k / 1000` back as exactly `k / 1000` |
| `NumberText.ParseIgnoresTrailingText` | src/Calculator.js:87 | for any nonempty run of digits followed by text that is empty or starts with neither a digit, a point nor `e`/`E`, `parseFloat` gives the value of the digits and ignores the rest |
| `NumberText.ParseTwelveAbc` | src/Calculator.js:87 | for example, `"12abc"` reads as 12 |
| `NumberText.ParseRejectsNonNumbers` | src/Calculator.js:86-89 | the empty text, `"abc"`, `"."` and `"-"` are NaN |
| `TemperatureCalculator.MathRound` | src/Calculator.js:95 | `Math.round` gives an integer within 1/2 of its argument: above it by at most 1/2, below it by less than 1/2 |
| `TemperatureCalculator.MathRoundUnique` | src/Calculator.js:95 | those two bounds determine `Math.round`'s result uniquely |
| `TemperatureCalculator.Round3` | src/Calculator.js:95 | the rounded value is a multiple of 1/1000, within 1/2000 of the converted value |
| `TemperatureCalculator.Round3Thousandths` | src/Calculator.js:95 | rounding leaves a multiple of 1/1000 unchanged |
| `TemperatureCalculator.TryConvert` | src/Calculator.js:85-99 | the result is `""` exactly when the text does not parse; otherwise it reads back as the converted value rounded to 1/1000 |
| `TemperatureCalculator.VerdictFor` | src/Calculator.js:102-113 | a verdict exists exactly when the Celsius text parses; it carries the parsed value and says "boils" exactly when that value is at least 100 |
| `TemperatureCalculator.View` | src/Calculator.js:144-154 | the field on the authoritative scale shows the raw text; the other field is empty exactly when the text does not parse, and otherwise reads back as the rounded conversion |
| `TemperatureCalculator.VerdictOfView` | src/Calculator.js:151-154 | the verdict renders exactly when the authoritative text parses, and it is the verdict for the pair's Celsius value (the raw value, or the rounded conversion from Fahrenheit) |
| `TemperatureCalculator.InitialView` | src/Calculator.js:121-124 | with the initial pair `("", c)` both fields are empty and there is no verdict |
| `TemperatureCalculator.InvalidTextView` | src/Calculator.js:85-90 | for any text that `parseFloat` reads as NaN, on either scale, the text stays verbatim in its own field, the other field is empty and there is no verdict |
| `TemperatureCalculator.CelsiusBoilingExample` | src/Calculator.js:187-188 | typing `100` as Celsius shows `212` as Fahrenheit and a "boils at 100" verdict |
| `TemperatureCalculator.FahrenheitBoilingExample` | src/Calculator.js:151-152 | typing `212` as Fahrenheit shows `100` as Celsius and a "boils at 100" verdict |
| `TemperatureCalculator.BodyTemperatureExample` | src/Calculator.js:153-154 | typing `37` as Celsius shows `98.6` as Fahrenheit |
| `TemperatureCalculator.JustBelowBoilingExample` | src/Calculator.js:109-112 | 99.999 degrees Celsius gives a "does not boil" verdict, so the threshold is exactly 100 |
| `TemperatureCalculator.ConvertersInverse` | src/Calculator.js:77-83 | `toCelsius` and `toFahrenheit` undo each other |
| `TemperatureCalculator.ConvertersMonotonic` | src/Calculator.js:77-83 | both converters preserve order; at least 100 Celsius is at least 212 Fahrenheit |
| `TemperatureCalculator.ConverterLandmarks` | src/Calculator.js:77-83 | 100 maps to 212 and back, 0 to 32 and back, and -40 maps to -40 |
| `TemperatureCalculator.Calculator.constructor` | src/Calculator.js:118-124 | the initial state is the empty text on the Celsius scale |
| `TemperatureCalculator.Calculator.OnCelsiusChange` | src/Calculator.js:129-134 | the state becomes exactly `(t, c)`; the previous text and scale are discarded |
| `TemperatureCalculator.Calculator.OnFahrenheitChange` | src/Calculator.js:136-141 | the state becomes exactly `(t, f)`; the previous text and scale are discarded |
| `TemperatureCalculator.TemperatureInput.constructor` | src/Calculator.js:171-183 | each input is bound to its scale and to the calculator that owns the state |
| `TemperatureCalculator.TemperatureInput.HandleChange` | src/Calculator.js:28-33 | the raw input text is forwarded unchanged to the handler for the field's scale, and the field then shows exactly that text |
| `ClockPage.Render` | src/Clock.js:104-109 | the login view is shown exactly when logged out; otherwise the heading is the message, the entity name and `!!` |
| `ClockPage.Clock.constructor` | src/Clock.js:32-40 | the initial state is the given date, `Hello`, logged in, and `clickOnFocus` true |
| `ClockPage.Clock.ClickHandler` | src/Clock.js:50-59 | `Goodbye` becomes `Hello` and any other message becomes `Goodbye`; the date, log-in flag and `clickOnFocus` are unchanged |
| `ClockPage.Clock.LogoutHandler` | src/Clock.js:63-67 | only `isLoggedIn` changes, and it becomes false |
| `ClockPage.Clock.KeyPress` | src/Clock.js:69-78 | keys 37 and 39 flip `clickOnFocus`; focus then goes to the log-out button exactly when it is now true, otherwise to the click button; any other key changes nothing and moves no focus |
| `ClockPage.Clock.Tick` | src/Clock.js:93-98 | only the date changes, and it becomes the new time |
| `ClockPage.ClickTwice` | src/Clock.js:50-59 | two clicks restore the message exactly when it is `Hello` or `Goodbye` |
| `ClockPage.MessageAlternates` | src/Clock.js:34-38 | starting from `Hello` or `Goodbye`, any sequence of events leaves the message `Hello` or `Goodbye` |
| `ClockPage.LoggedInUntilLogout` | src/Clock.js:63-67 | after any sequence of events the page is logged in exactly when it was and no log-out occurred, so logged out is absorbing |
| `ClockPage.FocusFlipsPerArrow` | src/Clock.js:69-72 | after any events, `clickOnFocus` has flipped once for each arrow-key press and for nothing else |
| `ClockPage.StepFrames` | src/Clock.js:93-97 | a key press changes only `clickOnFocus` (and nothing for other keys); a tick changes only the date; a click leaves the log-in flag and the date alone |
| `Themes.Toggled` | src/index.js:54-58 | the toggled theme is always one of the two themes, and it always differs from the theme it started from |
| `Themes.LoginControl.constructor` | src/index.js:60-63 | the initial theme is the light theme |
| `Themes.LoginControl.ToggleTheme` | src/index.js:54-58 | dark becomes light and light becomes dark; only the theme field changes, and the theme stays one of the two themes |
| `Themes.ToggleTwice` | src/index.js:55-57 | toggling twice restores a theme exactly when it is one of the two themes |
| `Themes.ToggledTimesParity` | src/index.js:54-58 | after `n` toggles the theme is the original for even `n` and the other theme for odd `n` |
| `LoginPage.Render` | src/Login.js:41-72 | the clock is shown exactly when logged in; otherwise the prompt shows the state's message |
| `LoginPage.Login.constructor` | src/Login.js:15-21 | the page starts logged out, with the fixed "not Logged In" message |
| `LoginPage.Login.LoginHandler` | src/Login.js:29-33 | the page becomes logged in and the message is unchanged |
| `LoginPage.LoginIdempotent` | src/Login.js:29-33 | logging in twice equals logging in once, and it keeps the message |
| `LoginPage.LoggedInAfterClicks` | src/Login.js:29-33 | after `n` clicks the page is logged in exactly when it was already or `n > 0`; it is never logged out again, and the message is kept |
| `LoginPage.InitialView` | src/Login.js:18-21 | the fresh page shows the prompt with the fixed message |
| `ErrorBoundaries.GetDerivedStateFromError` | src/ErrorBoundary.js:12-16 | the derived state has `hasError` set, whatever the error |
| `ErrorBoundaries.Render` | src/ErrorBoundary.js:26-31 | the fallback heading is shown exactly when `hasError`; otherwise the children are returned unchanged |
| `ErrorBoundaries.ErrorBoundary.constructor` | src/ErrorBoundary.js:4-10 | `hasError` starts false |
| `ErrorBoundaries.ErrorBoundary.CatchError` | src/ErrorBoundary.js:12-16 | after a render error below the boundary, the state is the one `Step` gives for that error, so `hasError` is true |
| `ErrorBoundaries.ErrorBoundary.ComponentDidCatch` | src/ErrorBoundary.js:19-22 | the state is unchanged, as `Step` says for a `componentDidCatch` event |
| `ErrorBoundaries.ErrorLatches` | src/ErrorBoundary.js:7-22 | after any sequence of render errors and `componentDidCatch` calls, `hasError` holds exactly when it held before or some render error occurred; once set it stays set |
| `ErrorBoundaries.DidCatchKeepsState` | src/ErrorBoundary.js:19-22 | a sequence of `componentDidCatch` calls alone leaves the state as it was |

## Left out

- IEEE-754 arithmetic. The converters, `Math.round` and the comparison with 100 work over exact reals. Binary floating-point error is not modelled, for example in `(f - 32) * (5 / 9)`.
- NumberText.ParseFloat: these forms of `parseFloat` are not modelled:
  - the literals `Infinity`, `+Infinity` and `-Infinity`, which the model treats as not a number;
  - literals too large for a double, which become Infinity;
  - negative zero.
- NumberText.ShowThousandths: it does not model the exponent notation that `toString` uses for magnitudes of 1e21 and above. It also ignores any digits that binary rounding of `k / 1000` could change.
- The message text of `BoilingVerdict`, which formats the number with `toString`. The model keeps the number itself.
- Timers and the wall clock: `setInterval`/`clearInterval` in the clock's mount and unmount hooks, and `new Date()`. `Tick` takes the new date as a parameter. The time string in the clock's render is left out.
- DOM focus and refs:
  - the one-time focus on mount in the calculator, the clock and the login page is left out;
  - `KeyPress` returns the button that receives focus instead of calling `focus()`.
- React itself:
  - `setState` batching and scheduling are left out, and each handler takes effect at once;
  - the remounting of a fresh `Login` inside a logged-out `Clock` (and of a fresh `Clock` inside a logged-in `Login`) is left out. The views only say which component is shown;
  - context plumbing, JSX and react-bootstrap markup, the scale labels and the colours used for styling are left out.
- Routing, lazy loading, `Suspense` and `ReactDOM.render` in src/index.js. These are library behaviour with no state of the application's own.
- Object identity of themes. The source tests `state.theme === Themes.dark`, which compares object identity. The model compares theme values instead. The two agree because the dark and light themes differ in value and the state only ever holds one of those two objects.
- The default value given to `React.createContext` in src/index.js:42-45. Every component that reads the context sits inside the provider, so the app never shows that default.
- Themes.LoginControl.ToggleTheme: the `toggleTheme` entry of the `LoginControl` state holds a function. The class holds only `theme`, and the method may modify only that field, so everything else is unchanged.
- `console.log` calls in `clickHandler` and `componentDidCatch`, and the arguments of `clickHandler`, which are only logged.
- src/Form.js, src/Jokes.js and src/Nav.js are not part of this model:
  - the form only echoes its input and calls `alert`;
  - the jokes come from a random library;
  - the navigation bar is static markup whose switch calls `toggleTheme`, which is modelled.
