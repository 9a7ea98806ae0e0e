/**
 The per-element state that the recipe page keeps in the document: the inline
 styles and the data attribute the handlers write, the pure transitions of the
 click handlers on one element, and the gate that decides whether the Bake
 Cookies button is shown.
 */
module Views {

  datatype Option<+T> = None | Some(value: T)

  // Inline style values written by the page script. They are opaque here:
  // nothing is proved about them except which of them is the cleared value.
  const Cleared: string := ""
  const LineThrough: string := "line-through"
  const StruckOpacity: string := "0.75"
  const CheckedGlyph: string := "\U{2705} "
  const UncheckedGlyph: string := "\U{2B1C} "
  const CheckedWeight: string := "600"
  const CheckedTint: string := "rgba(153, 205, 50, 0.15)"
  const DarkBackground: string := "#1f1f1f"
  const DarkText: string := "#e9e6e2"
  const DarkHeading: string := "#ffcb5a"
  const BakeShown: string := "inline-block"
  const BakeHidden: string := "none"
  const BakeNotice: string := "Cookies are ready!"
  const TrueAttr: string := "true"
  const FalseAttr: string := "false"

  /** Inline overrides on the body (background, text colour) and on every h1/h2 heading. */
  datatype ThemeStyle = ThemeStyle(background: string, color: string, headingColor: string)

  /** Inline style of one ingredient item. */
  datatype IngredientView = IngredientView(textDecoration: string, opacity: string)

  /**
   One instruction item: its `data-checked` attribute (None while absent), the
   text of its checkmark span, and its inline emphasis.
   */
  datatype StepView = StepView(dataChecked: Option<string>, mark: string, fontWeight: string, background: string)

  // ---------- theme ----------

  predicate NoOverrides(t: ThemeStyle) {
    t.background == Cleared && t.color == Cleared && t.headingColor == Cleared
  }

  /** The colours applied for a theme: fixed dark values, or every override cleared. */
  function ApplyDarkModeStyles(isDark: bool): (t: ThemeStyle)
    ensures NoOverrides(t) <==> !isDark
    ensures isDark ==> t.background != Cleared && t.color != Cleared && t.headingColor != Cleared
  {
    if isDark then ThemeStyle(DarkBackground, DarkText, DarkHeading)
    else ThemeStyle(Cleared, Cleared, Cleared)
  }

  // ---------- ingredients ----------

  /** An ingredient counts as struck exactly when its text decoration reads "line-through". */
  predicate IsStruck(v: IngredientView) {
    v.textDecoration == LineThrough
  }

  /** The inline style that goes with a struck or an unstruck ingredient. */
  function StrikeView(struck: bool): (v: IngredientView) {
    if struck then IngredientView(LineThrough, StruckOpacity) else IngredientView(Cleared, Cleared)
  }

  /** The ingredient click handler on one item. */
  function ClickIngredient(v: IngredientView): (r: IngredientView)
    ensures IsStruck(r) == !IsStruck(v)
    ensures r == StrikeView(!IsStruck(v))
    ensures IsStruck(r) ==> r.opacity == StruckOpacity
    ensures !IsStruck(r) ==> r.textDecoration == Cleared && r.opacity == Cleared
  {
    var struck := v.textDecoration == LineThrough;
    IngredientView(if struck then Cleared else LineThrough, if struck then Cleared else StruckOpacity)
  }

  /** On an item whose style agrees with its flag, clicking twice restores the item exactly. */
  lemma ClickIngredientTwice(v: IngredientView)
    requires v == StrikeView(IsStruck(v))
    ensures ClickIngredient(ClickIngredient(v)) == v
  {
  }

  /** The struck flag of every item, in order. */
  function StruckFlags(vs: seq<IngredientView>): (flags: seq<bool>)
    ensures |flags| == |vs|
    ensures forall i :: 0 <= i < |vs| ==> flags[i] == IsStruck(vs[i])
  {
    if vs == [] then [] else [IsStruck(vs[0])] + StruckFlags(vs[1..])
  }

  /** Replacing one item changes only that item's flag. */
  lemma {:induction false} StruckFlagsUpdate(vs: seq<IngredientView>, i: nat, v: IngredientView)
    requires i < |vs|
    ensures StruckFlags(vs[i := v]) == StruckFlags(vs)[i := IsStruck(v)]
  {
    if i == 0 {
      assert vs[i := v][1..] == vs[1..];
    } else {
      assert vs[i := v][1..] == vs[1..][i - 1 := v];
      StruckFlagsUpdate(vs[1..], i - 1, v);
    }
  }

  // ---------- instructions ----------

  /** A step counts as checked exactly when its data-checked attribute is the string "true"; an absent attribute is unchecked. */
  predicate IsChecked(v: StepView) {
    v.dataChecked == Some(TrueAttr)
  }

  function Glyph(checked: bool): (g: string) {
    if checked then CheckedGlyph else UncheckedGlyph
  }

  function Weight(checked: bool): (w: string) {
    if checked then CheckedWeight else Cleared
  }

  function Tint(checked: bool): (t: string) {
    if checked then CheckedTint else Cleared
  }

  /** The glyph and the emphasis of a step agree with its checked flag, and its attribute is absent, "true" or "false". */
  predicate Rendered(v: StepView) {
    && (v.dataChecked == None || v.dataChecked == Some(TrueAttr) || v.dataChecked == Some(FalseAttr))
    && v.mark == Glyph(IsChecked(v))
    && v.fontWeight == Weight(IsChecked(v))
    && v.background == Tint(IsChecked(v))
  }

  /** A step as prepared when the page loads: no attribute, the empty-box glyph, no emphasis. */
  const InitialStep: StepView := StepView(None, UncheckedGlyph, Cleared, Cleared)

  /** A step after a reset: attribute "false", the empty-box glyph, no emphasis. */
  const ClearedStep: StepView := StepView(Some(FalseAttr), UncheckedGlyph, Cleared, Cleared)

  /** The instruction click handler on one item (the same whether the mark or the text was clicked). */
  function ClickInstruction(v: StepView): (r: StepView)
    ensures IsChecked(r) == !IsChecked(v)
    ensures Rendered(r) && r.dataChecked.Some?
    ensures r.mark == (if IsChecked(r) then CheckedGlyph else UncheckedGlyph)
    ensures r.fontWeight == (if IsChecked(r) then CheckedWeight else Cleared)
    ensures r.background == (if IsChecked(r) then CheckedTint else Cleared)
  {
    var isChecked := v.dataChecked == Some(TrueAttr);
    var attr := if isChecked then FalseAttr else TrueAttr;
    StepView(Some(attr),
             if attr == TrueAttr then CheckedGlyph else UncheckedGlyph,
             if attr == TrueAttr then CheckedWeight else Cleared,
             if attr == TrueAttr then CheckedTint else Cleared)
  }

  /**
   Clicking a step twice restores it exactly once its attribute is present; from
   the initial step it leaves the reset step, which differs only in the attribute.
   */
  lemma ClickInstructionTwice(v: StepView)
    requires Rendered(v)
    ensures v.dataChecked.Some? ==> ClickInstruction(ClickInstruction(v)) == v
    ensures v.dataChecked.None? ==> ClickInstruction(ClickInstruction(v)) == ClearedStep
  {
  }

  /** The checked flag of every step, in order. */
  function CheckedFlags(vs: seq<StepView>): (flags: seq<bool>)
    ensures |flags| == |vs|
    ensures forall j :: 0 <= j < |vs| ==> flags[j] == IsChecked(vs[j])
  {
    if vs == [] then [] else [IsChecked(vs[0])] + CheckedFlags(vs[1..])
  }

  /** Replacing one step changes only that step's flag. */
  lemma {:induction false} CheckedFlagsUpdate(vs: seq<StepView>, j: nat, v: StepView)
    requires j < |vs|
    ensures CheckedFlags(vs[j := v]) == CheckedFlags(vs)[j := IsChecked(v)]
  {
    if j == 0 {
      assert vs[j := v][1..] == vs[1..];
    } else {
      assert vs[j := v][1..] == vs[1..][j - 1 := v];
      CheckedFlagsUpdate(vs[1..], j - 1, v);
    }
  }

  // ---------- the Bake gate ----------

  /** Every step is checked (true of no steps at all), scanning from the first as `every` does. */
  function EveryChecked(steps: seq<StepView>): (r: bool)
    ensures r <==> forall j :: 0 <= j < |steps| ==> IsChecked(steps[j])
  {
    |steps| == 0 || (IsChecked(steps[0]) && EveryChecked(steps[1..]))
  }

  /** The gate: there is at least one step and every step is checked. */
  function AllInstructionsChecked(steps: seq<StepView>): (r: bool)
    ensures r <==> |steps| > 0 && forall j :: 0 <= j < |steps| ==> IsChecked(steps[j])
    ensures |steps| == 0 ==> !r
  {
    |steps| > 0 && EveryChecked(steps)
  }

  /** The display value maybeRevealBakeButton writes for a gate value. */
  function BakeDisplay(gate: bool): (d: string)
    ensures d == BakeShown <==> gate
  {
    if gate then BakeShown else BakeHidden
  }

  /** Every step other than step j is checked. */
  predicate OthersChecked(steps: seq<StepView>, j: nat) {
    forall k :: 0 <= k < |steps| && k != j ==> IsChecked(steps[k])
  }

  /**
   After clicking step j the gate is open exactly when step j was unchecked
   before and every other step is checked.
   */
  lemma ClickInstructionGate(steps: seq<StepView>, j: nat)
    requires j < |steps|
    ensures AllInstructionsChecked(steps[j := ClickInstruction(steps[j])])
        <==> !IsChecked(steps[j]) && OthersChecked(steps, j)
  {
    var after := steps[j := ClickInstruction(steps[j])];
    assert IsChecked(after[j]) == !IsChecked(steps[j]);
    assert forall k :: 0 <= k < |steps| && k != j ==> after[k] == steps[k];
  }

  /** Unchecking any step closes the gate. */
  lemma UncheckClosesGate(steps: seq<StepView>, j: nat)
    requires j < |steps| && IsChecked(steps[j])
    ensures !AllInstructionsChecked(steps[j := ClickInstruction(steps[j])])
  {
    ClickInstructionGate(steps, j);
  }

  /** A list in which every step is unchecked keeps the gate closed, whatever its length. */
  lemma NoneCheckedClosesGate(steps: seq<StepView>)
    requires forall j :: 0 <= j < |steps| ==> !IsChecked(steps[j])
    ensures !AllInstructionsChecked(steps)
  {
  }
}
