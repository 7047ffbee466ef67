/**
  The application's theme: two fixed colour schemes and the
  `LoginControl` state whose `toggleTheme` switches between them.
 */
module Themes {

  /** A colour scheme: page background and text colour. */
  datatype Theme = Theme(background: string, text: string)

  const Dark := Theme("#1b262c", "#fff")
  const Light := Theme("#e1f4f3", "#222831")

  predicate IsTheme(t: Theme) { t == Dark || t == Light }

  /** The theme after `toggleTheme`: light from dark, dark from anything else. */
  function Toggled(t: Theme): (r: Theme)
    ensures IsTheme(r)
    ensures r != t
  {
    if t == Dark then Light else Dark
  }

  /** The theme after `n` toggles. */
  function ToggledTimes(t: Theme, n: nat): Theme
    decreases n
  {
    if n == 0 then t else ToggledTimes(Toggled(t), n - 1)
  }

  class LoginControl {
    var theme: Theme

    ghost predicate Valid()
      reads this
    {
      IsTheme(theme)
    }

    constructor ()
      ensures Valid() && theme == Light
    {
      theme := Light;
    }

    method ToggleTheme()
      requires Valid()
      modifies this`theme
      ensures Valid()
      ensures theme == Toggled(old(theme))
    {
      theme := if theme == Dark then Light else Dark;
    }
  }

  /** Toggling twice restores the theme exactly when it is one of the two themes. */
  lemma ToggleTwice(t: Theme)
    ensures Toggled(Toggled(t)) == t <==> IsTheme(t)
  {
  }

  /** After `n` toggles a theme is itself for even `n` and the other theme for odd `n`. */
  lemma {:induction false} ToggledTimesParity(t: Theme, n: nat)
    requires IsTheme(t)
    ensures ToggledTimes(t, n) == if n % 2 == 0 then t else Toggled(t)
    decreases n
  {
    if n > 0 {
      ToggledTimesParity(Toggled(t), n - 1);
    }
  }
}
