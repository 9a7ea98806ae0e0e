# Recipe page interactivity, modelled in Dafny

This project models the client-side behaviour of a single recipe web page
(`script.js`). The page has four features:

- a light/dark theme toggle, reached from a button or the "m" key;
- ingredient items that strike through when clicked;
- instruction steps that carry a checkmark when clicked;
- a "Bake Cookies" button that is shown only while every step is checked.

The "r" key resets all of it.

The script keeps its state in the document itself. The model keeps that state
as it is stored there:

- whether the body has the `dark-mode` class, and the inline colour overrides on
  the body and the headings (`Views.ThemeStyle`);
- per ingredient, its `textDecoration` and `opacity` (`Views.IngredientView`);
- per step, its `data-checked` attribute (`None` while absent), the text of its
  checkmark span, and its `fontWeight` and `background` (`Views.StepView`);
- the Bake button's `display` value.

The flags are read the way the script reads them:

- "struck" means the text decoration is `line-through`;
- "checked" means the attribute is the string `"true"`; an absent attribute is
  unchecked;
- "visible" means the display is `inline-block`.

So "the projection agrees with the flag" is a real invariant of the page:
`Page.RecipePage.Valid()`. Every handler preserves it, and the reset
establishes it from any state.

Modules:

- `Views` (views.dfy): per-element state, the click handlers as pure transitions
  on one element, and the Bake gate "non-empty and every step checked", defined
  through a recursive `every`.
- `Shortcuts` (shortcuts.dfy): key lower-casing and the case-insensitive
  classification of keys.
- `Page` (page.dfy): the `RecipePage` class.
  - Its fields are the page state. The item collections are arrays updated in
    place.
  - Its methods are the page's handlers. `ResetAll` clears the items with loops,
    as the script's `forEach` calls do.
  - `Dispatch` and `Run` model the browser delivering input events one at a time.
  - Scenario methods record the visible state after a fixed series of inputs.

Two behaviours of the script are worth noting; the model follows the script:

- The reset hides the Bake button by writing `none` directly. It does not
  recompute the gate. `NoneCheckedClosesGate` proves that the two agree after a
  reset.
- Two clicks on a fresh step do not restore the document exactly. The
  attribute goes from absent to `"true"`, then to `"false"`. Glyph, emphasis and
  flag do come back (`ClickInstructionTwice`).

## Model

| member | source | states |
|---|---|---|
| `Views.ApplyDarkModeStyles` | script.js:47-65 | every override is cleared exactly when the theme is light; in dark mode background, text and heading colours are all set |
| `Views.ClickIngredient` | script.js:80-85 | a click flips the struck flag; the new style is line-through with opacity '0.75' when struck, and both cleared when not |
| `Views.ClickIngredientTwice` | script.js:82-84 | on an item whose style agrees with its flag, two clicks restore the item exactly |
| `Views.StruckFlags` | script.js:82 | one flag per ingredient, in order, each true exactly when that item's text decoration is line-through |
| `Views.StruckFlagsUpdate` | script.js:82-84 | replacing one ingredient changes only that ingredient's struck flag |
| `Views.ClickInstruction` | script.js:97-106 | a click flips the checked flag (an absent attribute counts as unchecked) and always leaves the attribute present; the glyph (checkmark vs empty box), font weight ('600' vs '') and background agree with the new flag |
| `Views.ClickInstructionTwice` | script.js:99-106 | two clicks restore a step whose attribute is present; from a fresh step they leave the reset step |
| `Views.CheckedFlags` | script.js:99 | one flag per step, in order, each true exactly when that step's attribute is "true" |
| `Views.CheckedFlagsUpdate` | script.js:99-100 | replacing one step changes only that step's checked flag |
| `Views.EveryChecked` | script.js:113 | the left-to-right `every` scan holds exactly when every step is checked |
| `Views.AllInstructionsChecked` | script.js:112-114 | the gate holds exactly when there is at least one step and every step is checked; with no steps it is closed |
| `Views.BakeDisplay` | script.js:116-122 | the button is shown ('inline-block') exactly when the gate is open |
| `Views.ClickInstructionGate` | script.js:108-122 | after clicking step j the gate is open exactly when step j was unchecked and every other step is checked (both directions) |
| `Views.UncheckClosesGate` | script.js:100-122 | unchecking any step closes the gate |
| `Views.NoneCheckedClosesGate` | script.js:148-157 | a list with no checked step, of any length, keeps the gate closed, so hiding the button on reset agrees with the gate |
| `Shortcuts.LowerChar` | script.js:127 | an upper-case letter maps to the letter at the same place in the lower-case alphabet; every other character is unchanged; the result is never an upper-case letter |
| `Shortcuts.ToLowerCase` | script.js:127 | lower-casing keeps the length and lower-cases each character in place |
| `Shortcuts.LowerIsLetter` | script.js:127-130 | a key lower-cases to a one-letter string exactly when it is that letter in either case |
| `Shortcuts.Shortcut` | script.js:126-133 | the theme command is chosen exactly for 'm' or 'M', the reset exactly for 'r' or 'R', and no command for any other key |
| `Page.RecipePage.constructor` | script.js:25-32 | a missing list gives no items and a found list gives its items; initially light with no overrides, no item struck, every step with no attribute and the empty-box glyph, the Bake button hidden, and the invariant established |
| `Page.RecipePage.ToggleMode` | script.js:67-71 | flips the dark-mode class and applies the matching colours; items and the Bake button are untouched |
| `Page.RecipePage.ToggleModeTwice` | script.js:56-71 | two toggles from a valid page give back the dark-mode flag and the colour overrides exactly, because light mode clears the overrides; items and the Bake button are untouched |
| `Page.RecipePage.ToggleIngredient` | script.js:79-86 | only ingredient i changes, and only its struck flag flips; steps, theme and Bake button are unchanged |
| `Page.RecipePage.MaybeRevealBakeButton` | script.js:116-122 | the button is visible exactly when the step list is non-empty and every step is checked |
| `Page.RecipePage.ToggleInstruction` | script.js:97-109 | only step j changes; its flag flips and its glyph follows; afterwards the button is visible exactly when the gate holds, that is exactly when step j was unchecked and every other step checked; theme and ingredients are unchanged |
| `Page.RecipePage.ResetAll` | script.js:136-158 | from any prior state: light with no overrides, every ingredient unstruck, every step unchecked with the empty-box glyph and no emphasis, button hidden, invariant established |
| `Page.RecipePage.OnKeyDown` | script.js:126-133 | 'm'/'M' toggles the theme only; 'r'/'R' performs the full reset; any other key leaves the whole page unchanged |
| `Page.RecipePage.ClickBake` | script.js:33-35 | the Bake click only produces the notice "Cookies are ready!" and changes no state |
| `Page.RecipePage.Dispatch` | script.js:74-133 | each event has its handler's effect: the theme button and "m"/"M" flip the theme only; an item click changes only that item; "r"/"R" leaves a light page with every ingredient unstruck, every step in its reset form and the button hidden; other keys and the Bake click change nothing; a click on the checkmark span acts exactly like a click elsewhere on the step; with no steps the button stays hidden |
| `Page.RecipePage.Run` | script.js:112-122 | after any sequence of events the button is visible exactly when the gate holds, so with no instruction items it is never shown |
| `Page.CheckFirstStep` | script.js:97-122 | on a fresh page with three steps, clicking the first checks only that step and leaves the button hidden |
| `Page.CheckEveryStep` | script.js:97-122 | with three fresh steps clicked in order the button is hidden, hidden, then shown, and every step ends checked |
| `Page.ThreeStepScenario` | script.js:97-122 | with three steps, checking steps 1, 2, 3 shows the button only after the third; unchecking step 2 hides it again |
| `Page.ModeScenario` | script.js:126-139 | 'm' applies the dark colours, 'M' clears them, and 'r' after another 'm' forces the light theme |

## Left out

- DOM discovery (`getElementById`, `querySelector('ul')`/`('ol')`, `DOMContentLoaded`): the lists are given as an optional item count. An instruction list nested inside the ingredient list, where one item would be in both collections, is not modelled.
- Listener registration and placing the Bake button with `insertBefore` (script.js:33, 38-43, 74-76): host plumbing. A missing theme button is an event that never arrives; the "m" key still works.
- A `#mode-toggle` element that exists but is not a child of `#button-container`: `insertBefore` (script.js:42) then throws, setup stops there, and no handler is wired at all, not even the keys. The model always wires every handler.
- A `dark-mode` class already on `<body>` in the markup: `toggleMode` reads the class (script.js:68), but the constructor always starts with `isDark` false, so on such a page the first "m" would differ from the model.
- Nested `li` elements: `querySelectorAll('li')` (script.js:25-26) also returns nested items, and a click bubbles through the inner item to the outer one (script.js:80, 97). The model's items have no nesting, so "a click changes exactly one entry" is proved only for flat lists.
- `console.warn` (script.js:22) and `alert` (script.js:34): foreign side effects. The alert becomes the string that `ClickBake` returns.
- The heading loop in `applyDarkModeStyles` (script.js:53-55, 61-63): every h1/h2 gets the same value, so all headings are one `headingColor` field.
- The checkmark span's `className` and `userSelect` (script.js:92, 94): written once and never read.
- The `if (markSpan)` guards (script.js:104, 153): the span is added to every step at load time, so it is always found and the mark is a plain field.
- Markup that already carries inline styles or a `data-checked` attribute at load time: the initial state assumes none.
- Shortcuts.LowerChar: lower-cases only A to Z, not JavaScript's full Unicode `toLowerCase`; no other character lower-cases to "m" or "r", so the shortcut choice is the same.
- Colour and style values: kept as opaque string constants; nothing is proved about them beyond which one is the cleared value.
