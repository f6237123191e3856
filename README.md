# Portfolio page engine, modelled in Dafny

This project models the small pieces of logic inside the single-file React
portfolio `src/App.jsx`. The rest of that file is static markup.

- **Active-section scan** (module `ActiveSection`). On every scroll event, `App`
  walks the ids `about, skills, experience, projects, contact` in order.
  It skips ids whose element is not in the document. It keeps the last id
  whose `offsetTop - 200` is at or below `window.scrollY`, and `""` when no
  id qualifies. The page is modelled as a map from element id to `offsetTop`.
  `HandleScroll` is that loop, proved equal to the function `Scan`.
  `LastReached` is an independent index-based reference definition.
- **Navbar** (module `Navbar`). The navbar highlights the link whose
  lower-cased name equals the active section. Its own `isScrolled` state
  starts false, and its scroll listener sets it to `scrollY > 50`; the
  backdrop shows exactly when it is set.
- **Theme** (module `Theme`). The theme is a string state. It starts as
  `"dark"`, and `toggleTheme` maps `"dark"` to `"light"` and anything else
  to `"dark"`.
- **Cursor** (module `Cursor`). The raw pointer position starts at
  `(-100, -100)` and is overwritten on each mouse move. A hover flag is set
  on enter and cleared on leave. The flag selects dot scale 0 or 1 and ring
  scale 2.5 or 1.
- **Terminal loader** (module `TerminalLoader`). This is a timer-driven
  state machine over a simulated clock and an explicit queue of pending
  timeouts. Line `idx` of the 4-line script is appended at `800 * idx` ms.
  The last line schedules the `onComplete` call 1000 ms later, at 3400 ms.
  The cleanup clears `mounted` and clears every recorded handle. `Mount`,
  `Fire` and `Cleanup` are the transitions as functions. The class `Loader`
  runs them in place, and each of its methods is proved equal to its
  function. The invariant `Inv` holds in every reachable state, and the
  lemmas about runs are proved from it.
- **App state** (module `AppState`). The class `App` holds `activeSection`
  (initially `"home"`), `theme` and `isLoading`, and has the handlers that
  update them.

On the lookahead: with sections 800 px apart, offset 650 already counts
"skills" (top 800) as reached, so the code makes "skills" active there, not
"about" as one might expect from where the page is visually. The model
follows the code; `ActiveSection.ScanAtEvenlySpacedSections` states the
code's results. For the same reason "about" (top 0) is already active at
the top of the page, offset 0: the scan gives `""` there only for offsets
below -200.

## Model

| member | source | states |
|---|---|---|
| `ActiveSection.Scan` | src/App.jsx:895-903 | the value `current` holds after visiting the ids in order is `""` or one of them; `ScanIsLastReached` proves it is the last reached id |
| `ActiveSection.HandleScroll` | src/App.jsx:893-904 | the loop over the five ids returns exactly `Scan(Sections, doc, scrollY)` |
| `ActiveSection.LastReached` | src/App.jsx:896-901 | the index it returns is -1 or a reached id, and no later id is reached |
| `ActiveSection.ScanIsLastReached` | src/App.jsx:895-903 | overwriting `current` on every hit yields the last reached id, or `""` when none is reached |
| `ActiveSection.ScanEmptyIff` | src/App.jsx:895-903 | the result is `""` exactly when no present section satisfies `scrollY >= offsetTop - 200` |
| `ActiveSection.ScanPicks` | src/App.jsx:897-901 | for distinct ids, id `i` is chosen exactly when it is present and reached and no later id is |
| `ActiveSection.MissingNeverActive` | src/App.jsx:898-899 | an id whose element lookup fails is never the result |
| `ActiveSection.ScanMonotone` | src/App.jsx:899 | for fixed offsets, a larger `scrollY` never moves the result to an earlier position in the list |
| `ActiveSection.SectionsWellFormed` | src/App.jsx:894 | the five ids are distinct and non-empty, so the characterisations above apply to them |
| `ActiveSection.ScanAtEvenlySpacedSections` | src/App.jsx:894-901 | with tops 0/800/1600/2400/3200: `""` at -201, "about" at 0, "skills" at 650, "experience" at 1450, "contact" at 3500 |
| `Navbar.ToLower` | src/App.jsx:216 | lower-casing keeps the length and lowers each ASCII capital |
| `Navbar.IsActiveLink` | src/App.jsx:216 | the `activeSection === link.name.toLowerCase()` test holds exactly when the active section is the `i`-th scanned id |
| `Navbar.Render` | src/App.jsx:193-219 | the backdrop follows `isScrolled`; there is one highlight flag per link, set exactly for the link whose section is active |
| `Navbar.LinksMatchSections` | src/App.jsx:172-178 | each link name, lower-cased, is the id the scroll handler scans at the same position |
| `Navbar.AtMostOneHighlighted` | src/App.jsx:216-219 | whatever the active section, at most one link gets the active style |
| `Navbar.NothingHighlightedForHomeOrNone` | src/App.jsx:216 | neither the initial `"home"` nor the scan's `""` highlights any link |
| `Navbar.HighlightFollowsScan` | src/App.jsx:216-219 | after a scroll event, link `i` is highlighted exactly when section `i` is the last reached one |
| `Navbar.NavigationBar.constructor` | src/App.jsx:163 | `isScrolled` starts false, so before any scroll event no backdrop shows, whatever section is active |
| `Navbar.NavigationBar.HandleScroll` | src/App.jsx:166-167 | after a scroll event `isScrolled` holds exactly when `scrollY > 50` |
| `Theme.Toggle` | src/App.jsx:887-889 | the result is always "dark" or "light", and it is "light" exactly when the old theme was "dark" |
| `Theme.ToggleTwice` | src/App.jsx:888 | toggling twice returns "dark" or "light" unchanged |
| `Theme.ToggleRecovers` | src/App.jsx:888 | any other value toggles to "dark", then to "light" |
| `Theme.Toggled` | src/App.jsx:884-889 | after any number of toggles from the initial theme the value is "dark" or "light"; `ToggledParity` says which |
| `Theme.ToggledParity` | src/App.jsx:884-889 | from the initial "dark", an even number of toggles gives "dark" and an odd number gives "light" |
| `Cursor.Step` | src/App.jsx:109-115 | a move overwrites both coordinates and keeps the hover flag; an enter or leave keeps the position and sets the flag to whether it was an enter |
| `Cursor.Replay` | src/App.jsx:100-115 | the raw state after a run of events from the initial one; characterised by `ReplayIsLatest` |
| `Cursor.Render` | src/App.jsx:134-154 | the animated dot and ring properties for a theme and hover flag; characterised by `HoverStyle` |
| `Cursor.ReplayIsLatest` | src/App.jsx:100-116 | after any events, the position is that of the latest move, or (-100,-100) when there was none; the hover flag comes from the latest enter or leave, and is false when there was neither |
| `Cursor.HoverStyle` | src/App.jsx:134-154 | hovering gives dot scale 0, ring scale 2.5 and a filled ring; otherwise scale 1 and 1 with a transparent ring; every theme but "dark" is drawn as "light" |
| `Cursor.LeaveRestoresRestingStyle` | src/App.jsx:115 | a leave event restores the resting style at once, whatever came before |
| `Cursor.CustomCursor.constructor` | src/App.jsx:100-102 | the cursor starts at (-100,-100), not hovering |
| `Cursor.CustomCursor.MoveCursor` | src/App.jsx:109-112 | a move overwrites both coordinates and leaves the hover flag |
| `Cursor.CustomCursor.HandleMouseEnter` | src/App.jsx:114 | entering sets the hover flag and leaves the position |
| `Cursor.CustomCursor.HandleMouseLeave` | src/App.jsx:115 | leaving clears the hover flag and leaves the position |
| `TerminalLoader.Mount` | src/App.jsx:36-56 | the state after the first render and the effect's `forEach`; `MountInv` proves it satisfies `Inv` with every line outstanding |
| `TerminalLoader.Fire` | src/App.jsx:44-54 | one firing keeps the mounted flag and the recorded handles, extends `lines` by at most one entry and `onComplete`'s count by at most one, and changes neither while unmounted; `FireInv` gives the rest |
| `TerminalLoader.Cleanup` | src/App.jsx:58-61 | the cleanup clears `mounted`, keeps the clock, lines and count, and leaves pending exactly the timeouts whose handle was not recorded |
| `TerminalLoader.Run` | src/App.jsx:36-62 | any number of firings keeps the mounted flag, only extends `lines`, never lowers the count, and changes nothing visible once unmounted |
| `TerminalLoader.Inv` | src/App.jsx:36-61 | the invariant: lines a prefix of the script, `onComplete` at most once and only at the end, while mounted exactly the remaining lines' timeouts pending, pending in firing order, none in the past, every handle recorded |
| `TerminalLoader.ClearTimeout` | src/App.jsx:60 | clearing a handle removes exactly the timeouts with that handle, keeps firing order, never lengthens the list, and changes nothing when no timeout has that handle |
| `TerminalLoader.ClearAll` | src/App.jsx:60 | clearing every recorded handle in turn leaves exactly the timeouts whose handle was not recorded, in firing order, and changes nothing when none was recorded |
| `TerminalLoader.MountInv` | src/App.jsx:36-56 | right after mount the invariant holds, and the four lines are pending at 0, 800, 1600 and 2400 ms |
| `TerminalLoader.FireInv` | src/App.jsx:44-54 | each firing keeps the invariant (lines are a prefix of the script, `onComplete` runs at most once); the earliest timeout fires; a line is appended only while mounted, it is the next script line, and it appears at its scheduled time; `onComplete` runs only while mounted, with all lines shown, at 3400 ms |
| `TerminalLoader.CleanupInv` | src/App.jsx:58-61 | the cleanup keeps the invariant, clears the flag and leaves no timeout pending, even mid-sequence |
| `TerminalLoader.RunInv` | src/App.jsx:36-62 | any number of firings keeps the invariant, so `lines` is always a prefix of the script and `onComplete` runs at most once |
| `TerminalLoader.UnmountedStaysInert` | src/App.jsx:45-50 | after unmounting, no further line is appended and `onComplete` never runs, however many timers fire |
| `TerminalLoader.FireShowsNextLine` | src/App.jsx:43-46 | while mounted with lines left, the next firing shows the next line at 800 ms times its index |
| `TerminalLoader.FireCompletes` | src/App.jsx:48-51 | while mounted with every line shown, the next firing calls `onComplete` at 3400 ms |
| `TerminalLoader.MountedRunShowsLines` | src/App.jsx:43-54 | after `n <= 4` firings the first `n` lines are shown in order, the last one at `800 * (n-1)` ms, and `onComplete` has not run |
| `TerminalLoader.MountedRunCompletes` | src/App.jsx:48-53 | from the fifth firing on, all 4 lines are shown, `onComplete` has run exactly once, and the time is 3400 ms |
| `TerminalLoader.CompletesOnceAtTheEnd` | src/App.jsx:48-53 | `onComplete` has run after `n` firings exactly when `n > 4`, and then exactly once |
| `TerminalLoader.UnmountAtOneSecond` | src/App.jsx:58-61 | unmounting at 1000 ms falls after the 800 ms line and before the 1600 ms one; two lines stay and `onComplete` never runs |
| `TerminalLoader.Loader.constructor` | src/App.jsx:36-56 | the first render plus the effect's `forEach` give exactly the state `Mount()` |
| `TerminalLoader.Loader.AdvanceToNextTimer` | src/App.jsx:44-54 | firing in place returns the callback that ran and leaves exactly the state `Fire(old state)` |
| `TerminalLoader.Loader.Unmount` | src/App.jsx:58-61 | the cleanup loop leaves exactly the state `Cleanup(old state)` |
| `AppState.App.constructor` | src/App.jsx:882-885 | the state starts with active section "home", theme "dark" and the loader showing |
| `AppState.App.OnScroll` | src/App.jsx:892-904 | a scroll event sets the active section to the scan result, `""` or one of the five ids, and changes nothing else |
| `AppState.App.ToggleTheme` | src/App.jsx:887-889 | the theme becomes `Toggle` of the old one; nothing else changes |
| `AppState.App.OnLoaderComplete` | src/App.jsx:914 | the loader's `onComplete` clears `isLoading`; nothing else changes |

## Left out

- The spring follower (`useSpring`, damping 25, stiffness 150): floating-point physics inside the animation library.
- Viewport reveal (`whileInView`, `viewport={{ once: true }}`), parallax `useTransform`, stagger delays and exit animations: all are inside the animation library and use floating-point timing.
- Listener registration and removal (`addEventListener`, `removeEventListener`, `querySelectorAll`) and `getElementById`. Their results are inputs: the document is a map from element id to `offsetTop`, and pointer events come as a sequence.
- Hover listeners attach only to the links and buttons present at mount. That is a DOM detail; the model takes enter and leave events as given.
- `window.scrollY`, `offsetTop`, `clientX` and `clientY` are modelled as integers; a browser reports them as possibly fractional numbers. For the section test `scrollY >= offsetTop - 200` with an integer `offsetTop`, rounding `scrollY` down gives the same answer. For the navbar's `scrollY > 50` it does not: an offset strictly between 50 and 51 shows the backdrop in the browser, but not in the model. The pointer coordinates are only copied, so the model loses nothing there but their fractional part.
- `TerminalLoader.Fire`: the simulated clock assumes every timeout fires exactly at its due time. A browser's `setTimeout` delay is only a minimum: delays can be clamped, background tabs throttled, and a busy page runs callbacks late. So the times in `FireInv`, `FireShowsNextLine`, `FireCompletes`, `MountedRunShowsLines`, `MountedRunCompletes` and `UnmountAtOneSecond` (line `idx` at `800 * idx` ms, `onComplete` at 3400 ms) hold for an exact clock only. In a browser they are earliest times: a line appears no earlier than `800 * idx` ms after mount, and `onComplete` runs at least 1000 ms after the last line's callback started. The order of the lines, the single completion and the effect of the cleanup do not depend on this.
- `Navbar.NavigationBar.HandleScroll` and `AppState.App.OnScroll` are driven by the same scroll event through two separate listeners; the model runs them as two separate handlers and says nothing about their relative order, which the page does not depend on.
- `Navbar.ToLower` lower-cases ASCII letters only, not all of Unicode. The link names are ASCII.
- Re-running the loader effect when `onComplete` changes identity: that depends on React's render scheduling. Because `lines` is not reset, a re-run would append duplicates. No restart operation is modelled.
- How React batches the `setLines` updaters is not modelled. Each firing applies its append at once, as the functional updater guarantees in the end.
- Timer handle values: the model numbers them 1, 2, … in scheduling order. A browser picks its own positive integers, and the proofs use only that every pending handle was recorded.
- Gating the page on `isLoading` and the loader's exit animation are rendering, not logic. `OnLoaderComplete` models only the state change.
- Static content (skills, projects, experience), theme-dependent class strings other than the cursor's, and the mobile-menu toggle: configuration and trivial UI state.
