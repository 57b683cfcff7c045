/**
 * The `useInsertionEffect` demo (InsertionEffectDemo): the class name and
 * the CSS rule derived from the chosen colour. Injecting the rule into the
 * document head is not modelled.
 */
module InsertionStyles {
  import opened Text

  /** `s.replace(c, '')` with a one-character pattern: only the first occurrence goes. */
  function RemoveFirst(s: string, c: char): (r: string)
    decreases |s|
  {
    if s == [] then []
    else if s[0] == c then s[1..]
    else [s[0]] + RemoveFirst(s[1..], c)
  }

  /** Position k holds the first c of s. */
  predicate FirstAt(s: string, c: char, k: int) {
    0 <= k < |s| && s[k] == c && c !in s[..k]
  }

  /** Where c first occurs, RemoveFirst closes the string up around that occurrence. */
  lemma {:induction false} RemoveFirstAt(s: string, c: char)
    requires c in s
    ensures exists k :: FirstAt(s, c, k) && RemoveFirst(s, c) == s[..k] + s[k + 1..]
    decreases |s|
  {
    if s[0] == c {
      assert s[..0] == [] && s[0 + 1..] == s[1..];
      assert FirstAt(s, c, 0);
    } else {
      var t := s[1..];
      assert c in t by { assert s == [s[0]] + t; }
      RemoveFirstAt(t, c);
      var j :| FirstAt(t, c, j) && RemoveFirst(t, c) == t[..j] + t[j + 1..];
      assert s[..j + 1] == [s[0]] + t[..j];
      assert s[j + 2..] == t[j + 1..];
      assert FirstAt(s, c, j + 1);
    }
  }

  /**
   * Removing the first c takes exactly one c out of the string, if it had
   * one, and nothing else: the string closes up around its first c and the
   * other characters keep their order.
   */
  lemma {:induction false} RemoveFirstCounts(s: string, c: char)
    ensures c in s ==> multiset(RemoveFirst(s, c)) == multiset(s) - multiset{c}
    ensures c in s ==> exists k :: FirstAt(s, c, k) && RemoveFirst(s, c) == s[..k] + s[k + 1..]
    ensures c !in s ==> RemoveFirst(s, c) == s
    decreases |s|
  {
    if c in s {
      RemoveFirstAt(s, c);
      var k :| FirstAt(s, c, k) && RemoveFirst(s, c) == s[..k] + s[k + 1..];
      assert s == s[..k] + [c] + s[k + 1..];
    } else if s != [] {
      assert s == [s[0]] + s[1..];
      RemoveFirstCounts(s[1..], c);
    }
  }

  /** The colours offered by the picker. */
  const Palette := ["hotpink", "#8B5CF6", "#10B981", "#F59E0B"]
  const InitialColor := "hotpink"

  /** `` `box-${color.replace('#', '')}` ``. */
  function ClassName(color: string): string {
    "box-" + RemoveFirst(color, '#')
  }

  /** The class name has no '#' exactly when the colour has at most one. */
  lemma ClassNameHashFree(color: string)
    ensures '#' !in ClassName(color) <==> multiset(color)['#'] <= 1
  {
    RemoveFirstCounts(color, '#');
    var r := RemoveFirst(color, '#');
    assert multiset(ClassName(color)) == multiset("box-") + multiset(r);
    assert multiset("box-")['#'] == 0;
  }

  /** The palette's class names, in the palette's order. */
  lemma PaletteClassNames()
    ensures ClassName(Palette[0]) == "box-hotpink"
    ensures ClassName(Palette[1]) == "box-8B5CF6"
    ensures ClassName(Palette[2]) == "box-10B981"
    ensures ClassName(Palette[3]) == "box-F59E0B"
  {
    assert '#' !in Palette[0];
    RemoveFirstCounts(Palette[0], '#');
  }

  /** Every palette colour yields a class name without '#', and distinct colours yield distinct class names. */
  lemma PaletteClassNamesDistinct()
    ensures forall i :: 0 <= i < |Palette| ==> '#' !in ClassName(Palette[i])
    ensures forall i, j :: 0 <= i < j < |Palette| ==> ClassName(Palette[i]) != ClassName(Palette[j])
    ensures ClassName(InitialColor) == "box-hotpink"
  {
    PaletteClassNames();
    assert "box-hotpink"[4] == 'h';
    assert "box-8B5CF6"[4] == '8';
    assert "box-10B981"[4] == '1';
    assert "box-F59E0B"[4] == 'F';
    forall i | 0 <= i < |Palette|
      ensures '#' !in ClassName(Palette[i])
    {
      var n := ClassName(Palette[i]);
      assert forall k :: 0 <= k < |n| ==> n[k] != '#';
    }
  }

  /** The rule's selector: the class name as a CSS class selector. */
  function Selector(color: string): string {
    "." + ClassName(color)
  }

  /** The declaration that paints the box in the chosen colour. */
  function BackgroundSetting(color: string): string {
    "background-color: " + color + ";"
  }

  /** Everything after the background declaration: the other declarations and the closing brace. */
  function RuleTail(color: string): string {
    "\n            color: white;"
    + "\n            padding: 2rem;"
    + "\n            border-radius: 1rem;"
    + "\n            transition: all 0.5s ease;"
    + "\n            box-shadow: 0 0 20px " + color + "40;"
    + "\n            font-weight: bold;"
    + "\n            text-align: center;"
    + "\n        }"
    + "\n    "
  }

  /** The text before the background declaration: the selector line and the indentation of the first declaration. */
  function RuleHead(color: string): string {
    "\n        " + Selector(color) + " {\n            "
  }

  /** The CSS rule the demo injects: its template string with `className` and `color` filled in. */
  function Rule(color: string): string {
    RuleHead(color) + BackgroundSetting(color) + RuleTail(color)
  }

  /** The rule opens with the selector '.' + className, and right after it sets background-color to the colour. */
  lemma RuleSelectsClassAndPaints(color: string)
    ensures IsPrefix("\n        ." + ClassName(color) + " {", Rule(color))
    ensures OccursAt(Rule(color), "background-color: " + color + ";", |RuleHead(color)|)
    ensures Contains(Rule(color), "background-color: " + color + ";")
  {
    var opening := "\n        ." + ClassName(color) + " {";
    assert RuleHead(color) == opening + "\n            ";
    assert Rule(color) == opening + ("\n            " + BackgroundSetting(color) + RuleTail(color));
    PrefixOfConcat(opening, "\n            " + BackgroundSetting(color) + RuleTail(color));
    OccursInConcat(RuleHead(color), BackgroundSetting(color), RuleTail(color));
  }
}
