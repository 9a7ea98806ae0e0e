/**
 The recipe page as one stateful object: the dark-mode class and the colour
 overrides, the inline state of every ingredient and instruction item, and the
 display of the Bake Cookies button. Each method is one handler of the page
 script; Valid() is the promise that every visual projection agrees with the
 flag it projects.
 */
module Page {
  import opened Views
  import opened Shortcuts

  /** An input event as the browser delivers it to one of the page's listeners. */
  datatype Event =
    | ModeButton
    | IngredientClick(i: nat)
    | InstructionClick(j: nat, onMark: bool)  // onMark: the click landed on the checkmark span
    | KeyDown(key: string)
    | BakeClick

  class RecipePage {
    /** Whether the body carries the "dark-mode" class. */
    var isDark: bool
    /** Inline colour overrides on the body and the headings. */
    var theme: ThemeStyle
    /** The ingredient items, in document order. */
    const ingredients: array<IngredientView>
    /** The instruction items, in document order. */
    const steps: array<StepView>
    /** The Bake Cookies button's display style. */
    var bakeDisplay: string

    ghost predicate Valid()
      reads this, ingredients, steps
    {
      && theme == ApplyDarkModeStyles(isDark)
      && (forall i :: 0 <= i < ingredients.Length ==> ingredients[i] == StrikeView(IsStruck(ingredients[i])))
      && (forall j :: 0 <= j < steps.Length ==> Rendered(steps[j]))
      && bakeDisplay == BakeDisplay(AllInstructionsChecked(steps[..]))
    }

    function BakeVisible(): (shown: bool)
      reads this
    {
      bakeDisplay == BakeShown
    }

    /**
     The page after loading: the lists found (a missing list has no items), no
     inline styles, every step with an empty-box mark, the Bake button hidden.
     */
    constructor (ingredientList: Option<nat>, instructionList: Option<nat>)
      ensures Valid()
      ensures fresh(ingredients) && fresh(steps)
      ensures ingredientList.None? ==> ingredients.Length == 0
      ensures ingredientList.Some? ==> ingredients.Length == ingredientList.value
      ensures instructionList.None? ==> steps.Length == 0
      ensures instructionList.Some? ==> steps.Length == instructionList.value
      ensures !isDark && NoOverrides(theme)
      ensures forall i :: 0 <= i < ingredients.Length ==> ingredients[i] == IngredientView(Cleared, Cleared)
      ensures forall j :: 0 <= j < steps.Length ==> steps[j] == InitialStep
      ensures !BakeVisible() && bakeDisplay == BakeHidden
    {
      isDark := false;
      theme := ThemeStyle(Cleared, Cleared, Cleared);
      var ingredientCount := if ingredientList.Some? then ingredientList.value else 0;
      var stepCount := if instructionList.Some? then instructionList.value else 0;
      ingredients := new IngredientView[ingredientCount](_ => IngredientView(Cleared, Cleared));
      steps := new StepView[stepCount](_ => InitialStep);
      bakeDisplay := BakeHidden;
      new;
      NoneCheckedClosesGate(steps[..]);
    }

    /** The theme toggle: flip the dark-mode class and apply the colours that go with it. */
    method ToggleMode()
      requires Valid()
      modifies this`isDark, this`theme
      ensures Valid()
      ensures isDark == !old(isDark)
      ensures theme == ApplyDarkModeStyles(isDark)
      ensures NoOverrides(theme) <==> !isDark
      ensures bakeDisplay == old(bakeDisplay)
      ensures unchanged(ingredients, steps)
    {
      var dark := !isDark;
      isDark := dark;
      theme := ApplyDarkModeStyles(dark);
    }

    /**
     Two theme toggles in a row give back the flag and the styles exactly: light
     mode clears the overrides, and from a valid page they were clear already.
     */
    method ToggleModeTwice()
      requires Valid()
      modifies this`isDark, this`theme
      ensures Valid()
      ensures isDark == old(isDark) && theme == old(theme)
      ensures bakeDisplay == old(bakeDisplay) && unchanged(ingredients, steps)
    {
      ToggleMode();
      ToggleMode();
    }

    /** The click handler of ingredient i: flips its strike-through and nothing else. */
    method ToggleIngredient(i: nat)
      requires Valid() && i < ingredients.Length
      modifies ingredients
      ensures Valid()
      ensures ingredients[..] == old(ingredients[..])[i := ClickIngredient(old(ingredients[i]))]
      ensures StruckFlags(ingredients[..]) == old(StruckFlags(ingredients[..]))[i := !old(IsStruck(ingredients[i]))]
      ensures unchanged(this, steps)
    {
      ghost var before := ingredients[..];
      StruckFlagsUpdate(before, i, ClickIngredient(before[i]));
      ingredients[i] := ClickIngredient(ingredients[i]);
      assert ingredients[..] == before[i := ClickIngredient(before[i])];
    }

    /** Recompute the Bake button's display from the gate. */
    method MaybeRevealBakeButton()
      modifies this`bakeDisplay
      ensures bakeDisplay == BakeDisplay(AllInstructionsChecked(steps[..]))
      ensures BakeVisible() <==> steps.Length > 0 && forall j :: 0 <= j < steps.Length ==> IsChecked(steps[j])
    {
      if AllInstructionsChecked(steps[..]) {
        bakeDisplay := BakeShown;
      } else {
        bakeDisplay := BakeHidden;
      }
    }

    /**
     The click handler of instruction j: flips its checked flag, redraws its mark
     and emphasis, and recomputes the Bake button.
     */
    method ToggleInstruction(j: nat)
      requires Valid() && j < steps.Length
      modifies steps, this`bakeDisplay
      ensures Valid()
      ensures steps[..] == old(steps[..])[j := ClickInstruction(old(steps[j]))]
      ensures CheckedFlags(steps[..]) == old(CheckedFlags(steps[..]))[j := !old(IsChecked(steps[j]))]
      ensures steps[j].mark == Glyph(IsChecked(steps[j]))
      ensures BakeVisible() == AllInstructionsChecked(steps[..])
      ensures BakeVisible() <==> !old(IsChecked(steps[j])) && OthersChecked(old(steps[..]), j)
      ensures isDark == old(isDark) && theme == old(theme)
      ensures unchanged(ingredients)
    {
      ghost var before := steps[..];
      ClickInstructionGate(before, j);
      CheckedFlagsUpdate(before, j, ClickInstruction(before[j]));
      steps[j] := ClickInstruction(steps[j]);
      assert steps[..] == before[j := ClickInstruction(before[j])];
      MaybeRevealBakeButton();
    }

    /**
     The reset shortcut: light theme with every override cleared, every
     ingredient unstruck, every step unchecked with an empty-box mark, the Bake
     button hidden. It needs nothing of the state it starts from.
     */
    method ResetAll()
      modifies this`isDark, this`theme, this`bakeDisplay, ingredients, steps
      ensures Valid()
      ensures !isDark && theme == ThemeStyle(Cleared, Cleared, Cleared)
      ensures forall i :: 0 <= i < ingredients.Length ==> ingredients[i] == StrikeView(false)
      ensures forall j :: 0 <= j < steps.Length ==> steps[j] == ClearedStep
      ensures bakeDisplay == BakeHidden && !BakeVisible()
    {
      isDark := false;
      theme := ApplyDarkModeStyles(false);

      var i := 0;
      while i < ingredients.Length
        invariant 0 <= i <= ingredients.Length
        modifies ingredients
        invariant forall k :: 0 <= k < i ==> ingredients[k] == StrikeView(false)
      {
        ingredients[i] := ingredients[i].(textDecoration := Cleared, opacity := Cleared);
        i := i + 1;
      }

      var j := 0;
      while j < steps.Length
        invariant 0 <= j <= steps.Length
        modifies steps
        invariant forall k :: 0 <= k < j ==> steps[k] == ClearedStep
      {
        steps[j] := steps[j].(dataChecked := Some(FalseAttr), fontWeight := Cleared, background := Cleared, mark := UncheckedGlyph);
        j := j + 1;
      }

      bakeDisplay := BakeHidden;
      NoneCheckedClosesGate(steps[..]);
    }

    /** The keydown listener: case-insensitive "m" toggles the theme, "r" resets, any other key does nothing. */
    method OnKeyDown(key: string)
      requires Valid()
      modifies this`isDark, this`theme, this`bakeDisplay, ingredients, steps
      ensures Valid()
      ensures (key == "m" || key == "M") ==>
        isDark == !old(isDark) && theme == ApplyDarkModeStyles(isDark)
        && bakeDisplay == old(bakeDisplay) && unchanged(ingredients, steps)
      ensures (key == "r" || key == "R") ==>
        !isDark && NoOverrides(theme) && bakeDisplay == BakeHidden
        && (forall i :: 0 <= i < ingredients.Length ==> ingredients[i] == StrikeView(false))
        && (forall j :: 0 <= j < steps.Length ==> steps[j] == ClearedStep)
      ensures Shortcut(key) == OtherKey ==> unchanged(this, ingredients, steps)
    {
      var command := Shortcut(key);
      if command == ThemeKey {
        ToggleMode();
      } else if command == ResetKey {
        ResetAll();
      }
    }

    /** The Bake button's click handler: it only notifies the user, and changes nothing. */
    method ClickBake() returns (notice: string)
      ensures notice == BakeNotice
    {
      notice := BakeNotice;
    }

    /** An event names an item that exists on this page. */
    predicate Targets(e: Event) {
      match e
      case IngredientClick(i) => i < ingredients.Length
      case InstructionClick(j, _) => j < steps.Length
      case _ => true
    }

    /**
     Route one event to the listener that handles it. A click on an instruction's
     checkmark span and a click elsewhere on the same item have the same effect.
     */
    method Dispatch(e: Event)
      requires Valid() && Targets(e)
      modifies this`isDark, this`theme, this`bakeDisplay, ingredients, steps
      ensures Valid()
      ensures steps.Length == 0 ==> !BakeVisible()
      ensures e.ModeButton? ==>
        isDark == !old(isDark) && bakeDisplay == old(bakeDisplay) && unchanged(ingredients, steps)
      ensures e.IngredientClick? ==>
        ingredients[..] == old(ingredients[..])[e.i := ClickIngredient(old(ingredients[e.i]))]
        && unchanged(this, steps)
      ensures e.InstructionClick? ==>
        steps[..] == old(steps[..])[e.j := ClickInstruction(old(steps[e.j]))]
        && isDark == old(isDark) && unchanged(ingredients)
      ensures e.KeyDown? && Shortcut(e.key) == ThemeKey ==>
        isDark == !old(isDark) && bakeDisplay == old(bakeDisplay) && unchanged(ingredients, steps)
      ensures e.KeyDown? && Shortcut(e.key) == ResetKey ==>
        !isDark && NoOverrides(theme) && bakeDisplay == BakeHidden
        && (forall i :: 0 <= i < ingredients.Length ==> ingredients[i] == StrikeView(false))
        && (forall j :: 0 <= j < steps.Length ==> steps[j] == ClearedStep)
      ensures e.KeyDown? && Shortcut(e.key) == OtherKey ==> unchanged(this, ingredients, steps)
      ensures e.BakeClick? ==> unchanged(this, ingredients, steps)
    {
      match e
      case ModeButton => ToggleMode();
      case IngredientClick(i) => ToggleIngredient(i);
      case InstructionClick(j, _) => ToggleInstruction(j);
      case KeyDown(key) => OnKeyDown(key);
      case BakeClick => var _ := ClickBake();
    }

    /**
     Events handled one at a time, each to completion. Whatever the sequence,
     the Bake button is shown exactly when the gate is open, so a page without
     instruction items never shows it.
     */
    method Run(events: seq<Event>)
      requires Valid()
      requires forall n :: 0 <= n < |events| ==> Targets(events[n])
      modifies this`isDark, this`theme, this`bakeDisplay, ingredients, steps
      ensures Valid()
      ensures BakeVisible() <==> AllInstructionsChecked(steps[..])
      ensures steps.Length == 0 ==> !BakeVisible()
    {
      var n := 0;
      while n < |events|
        invariant 0 <= n <= |events|
        invariant Valid()
      {
        Dispatch(events[n]);
        n := n + 1;
      }
    }
  }

  /** A page with three fresh instructions, the first of them then clicked: the Bake button stays hidden. */
  method CheckFirstStep() returns (page: RecipePage, shown: bool)
    ensures fresh(page) && fresh(page.steps) && fresh(page.ingredients) && page.Valid()
    ensures page.steps.Length == 3
    ensures page.steps[0] == ClickInstruction(InitialStep)
    ensures page.steps[1] == InitialStep && page.steps[2] == InitialStep
    ensures !shown
  {
    page := new RecipePage(Some(2), Some(3));
    page.ToggleInstruction(0);
    shown := page.BakeVisible();
  }

  /**
   Three instructions, checked one after the other: the Bake button stays hidden
   until the third is checked. The result records its visibility after each click.
   */
  method CheckEveryStep() returns (page: RecipePage, shown: seq<bool>)
    ensures fresh(page) && fresh(page.steps) && fresh(page.ingredients) && page.Valid()
    ensures page.steps.Length == 3
    ensures forall j :: 0 <= j < 3 ==> page.steps[j] == ClickInstruction(InitialStep)
    ensures shown == [false, false, true]
  {
    var a;
    page, a := CheckFirstStep();
    var st := page.steps;
    ghost var on := ClickInstruction(InitialStep);
    page.ToggleInstruction(1);
    var b := page.BakeVisible();
    assert st[0] == on && st[1] == on && st[2] == InitialStep;
    page.ToggleInstruction(2);
    var c := page.BakeVisible();
    shown := [a, b, c];
  }

  /**
   The three-step checklist: after every step is checked the Bake button shows;
   unchecking the second step hides it again.
   */
  method ThreeStepScenario() returns (shown: seq<bool>)
    ensures shown == [false, false, true, false]
  {
    var page, first := CheckEveryStep();
    ghost var all := page.steps[..];
    page.ToggleInstruction(1);
    UncheckClosesGate(all, 1);
    var d := page.BakeVisible();
    shown := first + [d];
  }

  /**
   Pressing "m" applies the dark colours, "M" clears them again, and "r" after
   another "m" forces the light theme. The result records the theme after each key.
   */
  method ModeScenario() returns (themes: seq<ThemeStyle>)
    ensures themes == [ApplyDarkModeStyles(true), ThemeStyle(Cleared, Cleared, Cleared), ThemeStyle(Cleared, Cleared, Cleared)]
  {
    var page := new RecipePage(Some(1), Some(1));
    assert page.steps.Length == 1;
    page.OnKeyDown("m");
    var a := page.theme;
    page.OnKeyDown("M");
    var b := page.theme;
    page.OnKeyDown("m");
    page.OnKeyDown("r");
    var c := page.theme;
    themes := [a, b, c];
  }
}
