/** The component library panel's text rules (src/ui/component_panel.py):
    which component type a list entry names, and which entries a double
    click turns into a request for a component. */
module Panel {
  import opened Basics

  /** `c.lower()` for one character, on the ASCII letters. */
  function LowerChar(c: char): char {
    if 'A' <= c <= 'Z' then (c as int - 'A' as int + 'a' as int) as char else c
  }

  /** `text.lower()`. */
  function Lower(s: string): (r: string)
    ensures |r| == |s|
    ensures forall i :: 0 <= i < |s| ==> r[i] == LowerChar(s[i])
  {
    seq(|s|, i requires 0 <= i < |s| => LowerChar(s[i]))
  }

  /** Lower-casing twice is lower-casing once. */
  lemma LowerIdempotent(s: string)
    ensures Lower(Lower(s)) == Lower(s)
  {
    var l := Lower(s);
    assert forall i :: 0 <= i < |l| ==> Lower(l)[i] == l[i];
  }

  /** `sub` occurs in `s` at position `i`. */
  predicate At(s: string, sub: string, i: int) {
    0 <= i <= |s| - |sub| && s[i..i + |sub|] == sub
  }

  /** Python's `sub in s`. */
  predicate Contains(s: string, sub: string) {
    exists i | 0 <= i <= |s| - |sub| :: At(s, sub, i)
  }

  /** The types `parse_component_type` can answer. */
  predicate Answer(r: string) {
    r == "battery" || r == "led" || r == "resistor" || r == "button" || r == "potentiometer" || r == ""
  }

  /** `parse_component_type`: the first keyword found in the lower-cased
      text decides, in the order battery, led (unless the text also says
      rgb), resistor, button, potentiometer; no keyword gives "". */
  function ParseComponentType(text: string): (r: string)
    ensures Answer(r)
    ensures var t := Lower(text);
      var battery, led := Contains(t, "battery"), Contains(t, "led") && !Contains(t, "rgb");
      && (r == "battery" <==> battery)
      && (r == "led" <==> !battery && led)
      && (r == "resistor" <==> !battery && !led && Contains(t, "resistor"))
      && (r == "button" <==> !battery && !led && !Contains(t, "resistor") && Contains(t, "button"))
      && (r == "potentiometer" <==>
            !battery && !led && !Contains(t, "resistor") && !Contains(t, "button") && Contains(t, "potentiometer"))
      && (r == "" <==>
            !battery && !led && !Contains(t, "resistor") && !Contains(t, "button") && !Contains(t, "potentiometer"))
  {
    var t := Lower(text);
    if Contains(t, "battery") then "battery"
    else if Contains(t, "led") && !Contains(t, "rgb") then "led"
    else if Contains(t, "resistor") then "resistor"
    else if Contains(t, "button") then "button"
    else if Contains(t, "potentiometer") then "potentiometer"
    else ""
  }

  /** The classification ignores case: lower-casing the text first changes
      nothing. */
  lemma ParseIgnoresCase(text: string)
    ensures ParseComponentType(Lower(text)) == ParseComponentType(text)
  {
    LowerIdempotent(text);
  }

  /** A text lacking one of the characters of `sub` does not contain it. */
  lemma Lacks(s: string, sub: string, c: char)
    requires c in sub && c !in s
    ensures !Contains(s, sub)
  {
    var k :| 0 <= k < |sub| && sub[k] == c;
    forall i | 0 <= i <= |s| - |sub|
      ensures !At(s, sub, i)
    {
      assert s[i..i + |sub|][k] == s[i + k] != c;
    }
  }

  /** The panel's power-source entries name a battery. */
  lemma BatteryEntry()
    ensures ParseComponentType("Battery (5V)") == "battery"
  {
    assert Lower("Battery (5V)") == "battery (5v)";
    assert At("battery (5v)", "battery", 0);
  }

  /** A single-colour LED entry names an LED. */
  lemma LedEntry()
    ensures ParseComponentType("LED (Red)") == "led"
  {
    var t := "led (red)";
    assert Lower("LED (Red)") == t;
    Lacks(t, "battery", 'b');
    assert At(t, "led", 0);
    Lacks(t, "rgb", 'g');
  }

  /** "RGB LED" contains "led" but also "rgb", so it names nothing. */
  lemma RgbLedEntry()
    ensures ParseComponentType("RGB LED") == ""
  {
    assert Lower("RGB LED") == "rgb led";
    RgbLedWords();
  }

  lemma RgbLedWords()
    ensures var t := "rgb led";
      && !Contains(t, "battery") && Contains(t, "rgb") && !Contains(t, "resistor")
      && !Contains(t, "button") && !Contains(t, "potentiometer")
  {
    var t := "rgb led";
    Lacks(t, "battery", 'y');
    assert At(t, "rgb", 0);
    Lacks(t, "resistor", 'i');
    Lacks(t, "button", 'u');
    Lacks(t, "potentiometer", 'p');
  }

  lemma ResistorEntry()
    ensures ParseComponentType("Resistor (1kΩ)") == "resistor"
  {
    var t := "resistor (1kΩ)";
    assert Lower("Resistor (1kΩ)") == t;
    Lacks(t, "battery", 'b');
    Lacks(t, "led", 'l');
    assert At(t, "resistor", 0);
  }

  /** The capacitor entry names no type. */
  lemma CapacitorEntry()
    ensures ParseComponentType("Capacitor") == ""
  {
    var t := "capacitor";
    assert Lower("Capacitor") == t;
    Lacks(t, "battery", 'b');
    Lacks(t, "led", 'l');
    Lacks(t, "resistor", 's');
    Lacks(t, "button", 'b');
    Lacks(t, "potentiometer", 'm');
  }

  lemma ButtonEntry()
    ensures ParseComponentType("Push Button") == "button"
  {
    assert Lower("Push Button") == "push button";
    ButtonWords();
  }

  lemma ButtonWords()
    ensures var t := "push button";
      !Contains(t, "battery") && !Contains(t, "led") && !Contains(t, "resistor") && Contains(t, "button")
  {
    var t := "push button";
    Lacks(t, "battery", 'a');
    Lacks(t, "led", 'l');
    Lacks(t, "resistor", 'r');
    assert t[5..11] == "button";
    assert At(t, "button", 5);
  }

  lemma PotentiometerEntry()
    ensures ParseComponentType("Potentiometer") == "potentiometer"
  {
    var t := "potentiometer";
    assert Lower("Potentiometer") == t;
    Lacks(t, "battery", 'b');
    Lacks(t, "led", 'l');
    Lacks(t, "resistor", 's');
    Lacks(t, "button", 'b');
    assert At(t, "potentiometer", 0);
  }

  /** The characters `str.strip()` removes: those `str.isspace()` accepts
      (the control characters 9-13 and 28-31, and the Unicode spaces). */
  predicate IsSpace(c: char) {
    || '\t' <= c <= '\r'
    || '\U{1C}' <= c <= ' '
    || c == '\U{85}' || c == '\U{A0}' || c == '\U{1680}'
    || '\U{2000}' <= c <= '\U{200A}'
    || c == '\U{2028}' || c == '\U{2029}' || c == '\U{202F}' || c == '\U{205F}' || c == '\U{3000}'
  }

  /** Every character of `s` is blank. */
  predicate Blank(s: string) {
    forall i :: 0 <= i < |s| ==> IsSpace(s[i])
  }

  function TrimStart(s: string): (r: string)
    ensures |r| <= |s| && r == s[|s| - |r|..]
    ensures r == [] || !IsSpace(r[0])
    ensures forall i :: 0 <= i < |s| - |r| ==> IsSpace(s[i])
  {
    if s != [] && IsSpace(s[0]) then TrimStart(s[1..]) else s
  }

  function TrimEnd(s: string): (r: string)
    ensures |r| <= |s| && r == s[..|r|]
    ensures r == [] || !IsSpace(r[|r| - 1])
    ensures forall i :: |r| <= i < |s| ==> IsSpace(s[i])
  {
    if s != [] && IsSpace(s[|s| - 1]) then TrimEnd(s[..|s| - 1]) else s
  }

  /** `text.strip()`: the part of `s` left between a blank prefix and a
      blank suffix, neither starting nor ending with a blank. */
  function Strip(s: string): (r: string)
    ensures |r| <= |s|
    ensures r == [] || (!IsSpace(r[0]) && !IsSpace(r[|r| - 1]))
  {
    TrimEnd(TrimStart(s))
  }

  /** What `strip` removes: `Strip(s)` sits in `s` between a blank prefix
      and a blank suffix. */
  lemma StripSlice(s: string)
    ensures var r := Strip(s);
      exists i :: 0 <= i <= |s| - |r| && r == s[i..i + |r|] && Blank(s[..i]) && Blank(s[i + |r|..])
  {
    var t := TrimStart(s);
    var r := TrimEnd(t);
    var i := |s| - |t|;
    TrimStartBlank(s);
    TrimEndBlank(t);
    assert s[i + |r|..] == t[|r|..];
    assert r == s[i..i + |r|];
  }

  lemma TrimStartBlank(s: string)
    ensures Blank(s[..|s| - |TrimStart(s)|])
  {
    var i := |s| - |TrimStart(s)|;
    assert forall k :: 0 <= k < i ==> s[..i][k] == s[k];
  }

  lemma TrimEndBlank(s: string)
    ensures Blank(s[|TrimEnd(s)|..])
  {
    var j := |TrimEnd(s)|;
    assert forall k :: 0 <= k < |s| - j ==> s[j..][k] == s[j + k];
  }

  /** `on_item_double_clicked`: the type it emits for an entry with this
      text, if any. Blank entries, entries ending in ':' and entries that
      name no type emit nothing. */
  function DoubleClicked(itemText: string): (r: Option<string>)
    ensures var text := Strip(itemText);
      && (r == None <==> text == [] || text[|text| - 1] == ':' || ParseComponentType(text) == "")
      && (r != None ==> r == Some(ParseComponentType(text)))
  {
    var text := Strip(itemText);
    if text == [] || text[|text| - 1] == ':' then None
    else
      var kind := ParseComponentType(text);
      if kind != "" then Some(kind) else None
  }

  /** A text that neither starts nor ends with a blank is its own strip. */
  lemma StripNothing(s: string)
    requires s != [] && !IsSpace(s[0]) && !IsSpace(s[|s| - 1])
    ensures Strip(s) == s
  {
  }

  lemma StripBlank(s: string)
    ensures Strip(" " + s) == Strip(s)
  {
    var t := " " + s;
    assert t[0] == ' ' && t[1..] == s;
    assert TrimStart(t) == TrimStart(s);
  }

  /** A blank in front of an entry does not matter. */
  lemma LeadingBlank(s: string)
    ensures DoubleClicked(" " + s) == DoubleClicked(s)
  {
    StripBlank(s);
  }

  /** An entry ending in ':' emits nothing, whatever it names. */
  lemma ColonEntry()
    ensures DoubleClicked("Battery:") == None
  {
    StripNothing("Battery:");
  }
}
