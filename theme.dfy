/**
 * The page-wide colour theme held by `App` (src/App.jsx). It is a string
 * state that starts as "dark"; `toggleTheme` replaces it by "light" when it
 * is "dark" and by "dark" otherwise.
 */
module Theme {

  const Dark: string := "dark"
  const Light: string := "light"

  /** The theme every page load starts with; it is not persisted. */
  const InitialTheme: string := Dark

  /** The updater `toggleTheme` passes to `setTheme`. */
  function Toggle(prev: string): (next: string)
    ensures next == Dark || next == Light
    ensures next == Light <==> prev == Dark
  {
    if prev == Dark then Light else Dark
  }

  /** On the two themes the toggle is its own inverse. */
  lemma ToggleTwice(t: string)
    requires t == Dark || t == Light
    ensures Toggle(Toggle(t)) == t
  {
  }

  /** Any value other than the two themes is sent back to "dark". */
  lemma ToggleRecovers(t: string)
    requires t != Dark && t != Light
    ensures Toggle(t) == Dark && Toggle(Toggle(t)) == Light
  {
  }

  /** The theme after `n` toggles from the initial one. */
  function Toggled(n: nat): (t: string)
    ensures t == Dark || t == Light
  {
    if n == 0 then InitialTheme else Toggle(Toggled(n - 1))
  }

  /** An even number of toggles gives "dark", an odd number "light". */
  lemma {:induction false} ToggledParity(n: nat)
    ensures Toggled(n) == if n % 2 == 0 then Dark else Light
  {
    if n > 0 {
      ToggledParity(n - 1);
    }
  }
}
