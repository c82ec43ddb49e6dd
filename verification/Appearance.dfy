/**
  The Lua form of the appearance settings (`hyprland_generate_appearance_lua` in
  `src/ipc/hyprland/generator.c`).

  Any combination of settings may be missing, and the table that `hl.config` gets is opened by
  whichever of its two parts comes first.  Numbers are taken as the text they are printed as.
  First the settings as a document and its nesting, then the code that appends its text.
 */
module Appearance {
  import opened Wrappers
  import opened Strings
  import opened LuaNesting
  import Colors

  datatype Gaps = Gaps(inner: Option<string>, outer: Option<string>)

  datatype Border = Border(
    width: Option<string>,
    activeColor: Option<string>,
    inactiveColor: Option<string>,
    rounding: Option<string>
  )

  datatype Opacity = Opacity(active: Option<string>, inactive: Option<string>)

  datatype Blur = Blur(enabled: Option<bool>, size: Option<string>, passes: Option<string>)

  datatype Shadow = Shadow(enabled: Option<bool>, size: Option<string>, color: Option<string>)

  datatype Config = Config(
    gaps: Option<Gaps>,
    border: Option<Border>,
    opacity: Option<Opacity>,
    blur: Option<Blur>,
    shadow: Option<Shadow>,
    animations: Option<bool>,
    layout: Option<string>
  )

  predicate NeedsGeneral(c: Config) {
    c.gaps.Some? || c.border.Some? || (c.layout.Some? && c.layout.value != "")
  }

  predicate NeedsDecoration(c: Config) {
    (c.border.Some? && c.border.value.rounding.Some?) || c.opacity.Some? || c.shadow.Some? || c.blur.Some?
  }

  // ------------------------------------------------------------------
  // The document
  // ------------------------------------------------------------------

  const INDENT1 := "    "
  const INDENT2 := "        "
  const INDENT3 := "            "

  function Truth(b: bool): string { if b then "true" else "false" }

  function Assign(indent: string, name: string, value: Doc): Doc {
    Cat(Word(indent), Cat(Word(name), Cat(Word(" = "), Cat(value, Word(",\n")))))
  }

  function Setting(indent: string, name: string, value: Option<string>): Doc {
    if value.Some? then Assign(indent, name, Word(value.value)) else Nil
  }

  function Switch(indent: string, name: string, value: Option<bool>): Doc {
    if value.Some? then Assign(indent, name, Word(Truth(value.value))) else Nil
  }

  function Table(indent: string, name: string, body: Doc): Doc {
    Assign(indent, name, Braces(Cat(Word("\n"), Cat(body, Word(indent)))))
  }

  /** A call with one table as its argument. */
  function Call(name: string, body: Doc): Doc {
    Cat(Word(name), Parens(Braces(body)))
  }

  /** The quoted tokens from `i` on, with commas between them. */
  function TokenList(tokens: seq<string>, i: nat): Doc
    requires i <= |tokens|
    decreases |tokens| - i
  {
    if i == |tokens| then Nil
    else Cat(if i > 0 then Word(", ") else Nil, Cat(Str(tokens[i]), TokenList(tokens, i + 1)))
  }

  function Gradient(colors: string, angle: string): Doc {
    Braces(Cat(Word(" colors = "), Cat(Braces(TokenList(Colors.Tokens(colors), 0)),
               Cat(Word(", angle = "), Cat(Word(Degrees(angle)), Word(" "))))))
  }

  /** The angle without its unit. */
  function Degrees(angle: string): string {
    if Colors.IsAngle(angle) then angle[..|angle| - 3] else angle
  }

  function ActiveBorder(color: Option<string>): Doc {
    if color.None? then Nil
    else
      var p := Colors.Parse(color.value);
      if p.colors.None? then Nil
      else if p.angle.Some? then Assign(INDENT3, "active_border", Gradient(p.colors.value, p.angle.value))
      else Assign(INDENT3, "active_border", Str(p.colors.value))
  }

  function ColorSetting(indent: string, name: string, color: Option<string>): Doc {
    if color.None? then Nil
    else
      var p := Colors.Parse(color.value);
      if p.colors.Some? then Assign(indent, name, Str(p.colors.value)) else Nil
  }

  function BorderDoc(b: Border): Doc {
    Cat(Setting(INDENT2, "border_size", b.width),
        if b.activeColor.Some? || b.inactiveColor.Some?
        then Table(INDENT2, "col", Cat(ActiveBorder(b.activeColor),
                                       ColorSetting(INDENT3, "inactive_border", b.inactiveColor)))
        else Nil)
  }

  function GapsDoc(g: Gaps): Doc {
    Cat(Setting(INDENT2, "gaps_in", g.inner), Setting(INDENT2, "gaps_out", g.outer))
  }

  function LayoutDoc(layout: Option<string>): Doc {
    if layout.Some? && layout.value != "" then Assign(INDENT2, "layout", Str(layout.value)) else Nil
  }

  function GeneralBody(c: Config): Doc {
    Cat(if c.gaps.Some? then GapsDoc(c.gaps.value) else Nil,
        Cat(if c.border.Some? then BorderDoc(c.border.value) else Nil,
            LayoutDoc(c.layout)))
  }

  function OpacityDoc(o: Opacity): Doc {
    Cat(Setting(INDENT2, "active_opacity", o.active), Setting(INDENT2, "inactive_opacity", o.inactive))
  }

  /** The shadow table is written only if it says whether shadows are on. */
  function ShadowDoc(s: Shadow): Doc {
    if s.enabled.None? then Nil
    else Table(INDENT2, "shadow", Cat(Switch(INDENT3, "enabled", s.enabled),
                                      Cat(Setting(INDENT3, "range", s.size), ColorSetting(INDENT3, "color", s.color))))
  }

  function BlurDoc(b: Blur): Doc {
    Table(INDENT2, "blur", Cat(Switch(INDENT3, "enabled", b.enabled),
                               Cat(Setting(INDENT3, "size", b.size), Setting(INDENT3, "passes", b.passes))))
  }

  function DecorationBody(c: Config): Doc {
    Cat(if c.border.Some? then Setting(INDENT2, "rounding", c.border.value.rounding) else Nil,
        Cat(if c.opacity.Some? then OpacityDoc(c.opacity.value) else Nil,
            Cat(if c.shadow.Some? then ShadowDoc(c.shadow.value) else Nil,
                if c.blur.Some? then BlurDoc(c.blur.value) else Nil)))
  }

  function General(c: Config): Doc {
    if NeedsGeneral(c) then Table(INDENT1, "general", GeneralBody(c)) else Nil
  }

  function Decoration(c: Config): Doc {
    if NeedsDecoration(c) then Table(INDENT1, "decoration", DecorationBody(c)) else Nil
  }

  function MainTable(c: Config): Doc {
    if NeedsGeneral(c) || NeedsDecoration(c)
    then Cat(Call("hl.config", Cat(Word("\n"), Cat(General(c), Decoration(c)))), Word("\n\n"))
    else Nil
  }

  function StyleDoc(style: Option<string>): Doc {
    if style.Some? then Cat(Word(", style = "), Str(style.value)) else Nil
  }

  function AnimationBody(leaf: string, style: Option<string>): Doc {
    Cat(Word(" leaf = "), Cat(Str(leaf), Cat(Word(", enabled = true"), Cat(Word(", speed = 2.5"),
    Cat(Word(", bezier = "), Cat(Str("myBezier"), Cat(StyleDoc(style), Word(" "))))))))
  }

  function Animation(leaf: string, style: Option<string>): Doc {
    Cat(Call("hl.animation", AnimationBody(leaf, style)), Word("\n"))
  }

  function Points(): Doc {
    Cat(Word(" "), Cat(Braces(Word("0.4, 0.0")), Cat(Word(", "), Cat(Braces(Word("0.2, 1.0")), Word(" ")))))
  }

  function CurveTable(): Doc {
    Cat(Word(" type = "), Cat(Str("bezier"), Cat(Word(", points = "), Cat(Braces(Points()), Word(" ")))))
  }

  function Curve(): Doc {
    Cat(Word("hl.curve"),
        Cat(Parens(Cat(Str("myBezier"), Cat(Word(", "), Braces(CurveTable())))), Word("\n\n")))
  }

  function CurveAndAnimations(): Doc {
    Cat(Curve(),
        Cat(Animation("windows", Some("popin 80%")),
        Cat(Animation("border", None),
        Cat(Animation("fade", None),
            Animation("workspaces", Some("slidefade 20%"))))))
  }

  function Animations(enabled: Option<bool>): Doc {
    if enabled.None? then Nil
    else
      Cat(Call("hl.config", Cat(Word("\n"), Assign(INDENT1, "animations",
                 Braces(Cat(Word(" enabled = "), Cat(Word(Truth(enabled.value)), Word(" "))))))),
          Cat(Word("\n\n"), if enabled.value then CurveAndAnimations() else Nil))
  }

  function Header(): Doc { Remark(" Appearance (generated by axctl)") }

  function Whole(c: Config): Doc {
    Cat(Header(), Cat(MainTable(c), Animations(c.animations)))
  }

  function Generated(c: Config): string { Emit("", Whole(c)) }
  // ------------------------------------------------------------------
  // Well-worded settings
  // ------------------------------------------------------------------

  predicate NumberOk(n: Option<string>) { n.Some? ==> Plain(n.value) }

  /** What is printed of a colour can be closed by a quote. */
  predicate ColorOk(color: Option<string>) {
    color.Some? ==>
      var colors := Colors.Parse(color.value).colors;
      colors.Some? ==> Closable(colors.value)
  }

  predicate AllClosable(tokens: seq<string>) { forall k :: 0 <= k < |tokens| ==> Closable(tokens[k]) }

  /** With an angle the colours are quoted one by one, and the angle is not quoted. */
  predicate ActiveColorOk(color: Option<string>) {
    color.Some? ==>
      var p := Colors.Parse(color.value);
      p.colors.Some? ==>
        if p.angle.Some? then AllClosable(Colors.Tokens(p.colors.value)) && Plain(Degrees(p.angle.value))
        else Closable(p.colors.value)
  }

  /** The angle is written without quotes, and contains nothing that Lua would take for a bracket,
      a string or a comment. */
  predicate AngleOk(color: Option<string>) {
    color.Some? ==>
      var angle := Colors.Parse(color.value).angle;
      angle.Some? ==> Plain(Degrees(angle.value))
  }

  predicate SettingsOk(c: Config) {
    && (c.gaps.Some? ==> NumberOk(c.gaps.value.inner) && NumberOk(c.gaps.value.outer))
    && (c.border.Some? ==> BorderOk(c.border.value))
    && (c.opacity.Some? ==> NumberOk(c.opacity.value.active) && NumberOk(c.opacity.value.inactive))
    && (c.blur.Some? ==> NumberOk(c.blur.value.size) && NumberOk(c.blur.value.passes))
    && (c.shadow.Some? ==> NumberOk(c.shadow.value.size) && ColorOk(c.shadow.value.color))
    && (c.layout.Some? ==> Closable(c.layout.value))
  }

  predicate BorderOk(b: Border) {
    && NumberOk(b.width) && NumberOk(b.rounding)
    && ActiveColorOk(b.activeColor) && ColorOk(b.inactiveColor)
  }

  // ------------------------------------------------------------------
  // Parsed colours bring in no quotes
  // ------------------------------------------------------------------

  lemma {:induction false} TokensQuotable(s: string)
    requires Quotable(s)
    ensures forall k :: 0 <= k < |Colors.Tokens(s)| ==> Quotable(Colors.Tokens(s)[k])
    decreases |s|
  {
    if s != "" {
      if IsBlank(s[0]) {
        TokensQuotable(s[1..]);
      } else {
        TokensQuotable(s[Colors.TokenEnd(s)..]);
      }
    }
  }

  lemma HyprlandColorQuotable(t: string)
    requires Quotable(t)
    ensures Quotable(Colors.HyprlandColor(t))
  {
    var c := Colors.StripHash(t);
    var rgb, a := if |c| >= 6 then c[..6] else "000000", if |c| >= 8 then c[6..8] else "ff";
    assert Quotable(rgb) && Quotable(a) by {
      assert Quotable(c);
    }
    QuotableJoined("rgba(", rgb);
    QuotableJoined("rgba(" + rgb, a);
    QuotableJoined("rgba(" + rgb + a, ")");
  }

  lemma QuotableJoined(a: string, b: string)
    requires Quotable(a) && Quotable(b)
    ensures Quotable(a + b)
  {
  }

  lemma {:induction false} ColorsQuotable(tokens: seq<string>, n: nat)
    requires n <= |tokens| && forall k :: 0 <= k < |tokens| ==> Quotable(tokens[k])
    ensures forall k :: 0 <= k < |Colors.ColorsTo(tokens, n)| ==> Quotable(Colors.ColorsTo(tokens, n)[k])
  {
    if n > 0 {
      ColorsQuotable(tokens, n - 1);
      HyprlandColorQuotable(tokens[n - 1]);
    }
  }

  lemma {:induction false} RestQuotable(parts: seq<string>, i: nat)
    requires i <= |parts| && forall k :: 0 <= k < |parts| ==> Quotable(parts[k])
    ensures Quotable(Rest(parts, " ", i))
    decreases |parts| - i
  {
    if i < |parts| {
      RestQuotable(parts, i + 1);
    }
  }

  lemma ParsedColorsQuotable(s: string)
    requires Quotable(s)
    ensures var p := Colors.Parse(s); p.colors.Some? ==> Quotable(p.colors.value)
  {
    var tokens := Colors.Tokens(s);
    TokensQuotable(s);
    ColorsQuotable(tokens, |tokens|);
    var colors := Colors.ColorsTo(tokens, |tokens|);
    if colors != [] {
      RestQuotable(colors, 1);
    }
  }

  lemma QuotableIsClosable(s: string)
    requires Quotable(s)
    ensures Closable(s)
  {
    assert Backslashes(s, |s|) == 0;
  }

  /** Colours without quotes, backslashes and line breaks can always be printed. */
  lemma QuotableColorsAreOk(color: Option<string>)
    requires color.Some? ==> Quotable(color.value)
    ensures ColorOk(color) && (AngleOk(color) ==> ActiveColorOk(color))
  {
    if color.Some? {
      var p := Colors.Parse(color.value);
      ParsedColorsQuotable(color.value);
      if p.colors.Some? {
        QuotableIsClosable(p.colors.value);
        TokensQuotable(p.colors.value);
        var tokens := Colors.Tokens(p.colors.value);
        forall k | 0 <= k < |tokens| ensures Closable(tokens[k]) {
          QuotableIsClosable(tokens[k]);
        }
      }
    }
  }

  // ------------------------------------------------------------------
  // The document is well-worded
  // ------------------------------------------------------------------

  lemma PunctuationPlain()
    ensures Plain(" = ") && Plain(",\n") && Plain("\n") && Plain(", ") && Plain(" ") && Plain("\n\n")
    ensures Plain(INDENT1) && Plain(INDENT2) && Plain(INDENT3) && Plain("true") && Plain("false")
  {
  }

  lemma AssignOk(indent: string, name: string, value: Doc)
    requires Plain(indent) && Plain(name) && WellWorded(value)
    ensures WellWorded(Assign(indent, name, value))
  {
    PunctuationPlain();
    assert WellWorded(Cat(value, Word(",\n")));
    assert WellWorded(Cat(Word(" = "), Cat(value, Word(",\n"))));
  }

  lemma TableOk(indent: string, name: string, body: Doc)
    requires Plain(indent) && Plain(name) && WellWorded(body)
    ensures WellWorded(Table(indent, name, body))
  {
    PunctuationPlain();
    assert WellWorded(Cat(body, Word(indent)));
    assert WellWorded(Braces(Cat(Word("\n"), Cat(body, Word(indent)))));
    AssignOk(indent, name, Braces(Cat(Word("\n"), Cat(body, Word(indent)))));
  }

  lemma CallOk(name: string, body: Doc)
    requires Plain(name) && WellWorded(body)
    ensures WellWorded(Call(name, body))
  {
    assert WellWorded(Braces(body));
    assert WellWorded(Parens(Braces(body)));
  }

  lemma SettingOk(indent: string, name: string, value: Option<string>)
    requires Plain(indent) && Plain(name) && NumberOk(value)
    ensures WellWorded(Setting(indent, name, value))
  {
    if value.Some? {
      AssignOk(indent, name, Word(value.value));
    }
  }

  lemma SwitchOk(indent: string, name: string, value: Option<bool>)
    requires Plain(indent) && Plain(name)
    ensures WellWorded(Switch(indent, name, value))
  {
    PunctuationPlain();
    if value.Some? {
      AssignOk(indent, name, Word(Truth(value.value)));
    }
  }

  lemma {:induction false} TokenListOk(tokens: seq<string>, i: nat)
    requires i <= |tokens| && AllClosable(tokens)
    ensures WellWorded(TokenList(tokens, i))
    decreases |tokens| - i
  {
    if i < |tokens| {
      TokenListOk(tokens, i + 1);
      PunctuationPlain();
      assert WellWorded(Cat(Str(tokens[i]), TokenList(tokens, i + 1)));
    }
  }

  lemma GradientOk(colors: string, angle: string)
    requires AllClosable(Colors.Tokens(colors)) && Plain(Degrees(angle))
    ensures WellWorded(Gradient(colors, angle))
  {
    PunctuationPlain();
    var list := TokenList(Colors.Tokens(colors), 0);
    TokenListOk(Colors.Tokens(colors), 0);
    assert Plain(" colors = ") && Plain(", angle = ");
    var d1 := Cat(Word(Degrees(angle)), Word(" "));
    var d2 := Cat(Word(", angle = "), d1);
    var d3 := Cat(Braces(list), d2);
    assert WellWorded(Word(Degrees(angle))) && WellWorded(Word(" "));
    assert WellWorded(d1);
    assert WellWorded(d2);
    assert WellWorded(d3);
    assert WellWorded(Cat(Word(" colors = "), d3));
  }

  lemma ColorSettingOk(indent: string, name: string, color: Option<string>)
    requires Plain(indent) && Plain(name) && ColorOk(color)
    ensures WellWorded(ColorSetting(indent, name, color))
  {
    if color.Some? {
      var p := Colors.Parse(color.value);
      if p.colors.Some? {
        AssignOk(indent, name, Str(p.colors.value));
      }
    }
  }

  lemma ActiveBorderOk(color: Option<string>)
    requires ActiveColorOk(color)
    ensures WellWorded(ActiveBorder(color))
  {
    PunctuationPlain();
    assert Plain("active_border");
    if color.Some? {
      var p := Colors.Parse(color.value);
      if p.colors.Some? {
        if p.angle.Some? {
          GradientOk(p.colors.value, p.angle.value);
          AssignOk(INDENT3, "active_border", Gradient(p.colors.value, p.angle.value));
        } else {
          AssignOk(INDENT3, "active_border", Str(p.colors.value));
        }
      }
    }
  }

  lemma BorderDocOk(b: Border)
    requires BorderOk(b)
    ensures WellWorded(BorderDoc(b))
  {
    PunctuationPlain();
    assert Plain("border_size") && Plain("col") && Plain("inactive_border");
    SettingOk(INDENT2, "border_size", b.width);
    ActiveBorderOk(b.activeColor);
    ColorSettingOk(INDENT3, "inactive_border", b.inactiveColor);
    TableOk(INDENT2, "col", Cat(ActiveBorder(b.activeColor),
                                ColorSetting(INDENT3, "inactive_border", b.inactiveColor)));
  }

  lemma GapsDocOk(g: Gaps)
    requires NumberOk(g.inner) && NumberOk(g.outer)
    ensures WellWorded(GapsDoc(g))
  {
    PunctuationPlain();
    assert Plain("gaps_in") && Plain("gaps_out");
    SettingOk(INDENT2, "gaps_in", g.inner);
    SettingOk(INDENT2, "gaps_out", g.outer);
  }

  lemma GeneralOk(c: Config)
    requires SettingsOk(c)
    ensures WellWorded(General(c))
  {
    PunctuationPlain();
    assert Plain("layout") && Plain("general");
    if c.gaps.Some? {
      GapsDocOk(c.gaps.value);
    }
    if c.border.Some? {
      BorderDocOk(c.border.value);
    }
    if c.layout.Some? {
      AssignOk(INDENT2, "layout", Str(c.layout.value));
    }
    TableOk(INDENT1, "general", GeneralBody(c));
  }

  lemma ShadowDocOk(s: Shadow)
    requires NumberOk(s.size) && ColorOk(s.color)
    ensures WellWorded(ShadowDoc(s))
  {
    PunctuationPlain();
    assert Plain("shadow") && Plain("enabled") && Plain("range") && Plain("color");
    SwitchOk(INDENT3, "enabled", s.enabled);
    SettingOk(INDENT3, "range", s.size);
    ColorSettingOk(INDENT3, "color", s.color);
    var rest := Cat(Setting(INDENT3, "range", s.size), ColorSetting(INDENT3, "color", s.color));
    assert WellWorded(rest);
    TableOk(INDENT2, "shadow", Cat(Switch(INDENT3, "enabled", s.enabled), rest));
  }

  lemma BlurDocOk(b: Blur)
    requires NumberOk(b.size) && NumberOk(b.passes)
    ensures WellWorded(BlurDoc(b))
  {
    PunctuationPlain();
    assert Plain("blur") && Plain("enabled") && Plain("size") && Plain("passes");
    SwitchOk(INDENT3, "enabled", b.enabled);
    SettingOk(INDENT3, "size", b.size);
    SettingOk(INDENT3, "passes", b.passes);
    var rest := Cat(Setting(INDENT3, "size", b.size), Setting(INDENT3, "passes", b.passes));
    assert WellWorded(rest);
    TableOk(INDENT2, "blur", Cat(Switch(INDENT3, "enabled", b.enabled), rest));
  }

  lemma DecorationWordsPlain()
    ensures Plain("rounding") && Plain("active_opacity") && Plain("inactive_opacity") && Plain("decoration")
  {
  }

  lemma DecorationOk(c: Config)
    requires SettingsOk(c)
    ensures WellWorded(Decoration(c))
  {
    PunctuationPlain();
    DecorationWordsPlain();
    if c.border.Some? {
      SettingOk(INDENT2, "rounding", c.border.value.rounding);
    }
    if c.opacity.Some? {
      SettingOk(INDENT2, "active_opacity", c.opacity.value.active);
      SettingOk(INDENT2, "inactive_opacity", c.opacity.value.inactive);
    }
    if c.shadow.Some? {
      ShadowDocOk(c.shadow.value);
    }
    if c.blur.Some? {
      BlurDocOk(c.blur.value);
    }
    var d1 := Cat(if c.shadow.Some? then ShadowDoc(c.shadow.value) else Nil,
                  if c.blur.Some? then BlurDoc(c.blur.value) else Nil);
    var d2 := Cat(if c.opacity.Some? then OpacityDoc(c.opacity.value) else Nil, d1);
    assert WellWorded(d1);
    assert WellWorded(d2);
    TableOk(INDENT1, "decoration", DecorationBody(c));
  }

  lemma MainTableOk(c: Config)
    requires SettingsOk(c)
    ensures WellWorded(MainTable(c))
  {
    PunctuationPlain();
    assert Plain("hl.config");
    GeneralOk(c);
    DecorationOk(c);
    var body := Cat(Word("\n"), Cat(General(c), Decoration(c)));
    assert WellWorded(Cat(General(c), Decoration(c)));
    assert WellWorded(body);
    CallOk("hl.config", body);
  }

  lemma AnimationWordsPlain()
    ensures Plain(" leaf = ") && Plain(", enabled = true") && Plain(", speed = 2.5")
  {
  }

  lemma AnimationNamesPlain()
    ensures Plain(", bezier = ") && Quotable("myBezier") && Plain(", style = ") && Plain("hl.animation")
  {
  }

  lemma AnimationOk(leaf: string, style: Option<string>)
    requires Quotable(leaf) && (style.Some? ==> Quotable(style.value))
    ensures WellWorded(Animation(leaf, style))
  {
    PunctuationPlain();
    AnimationWordsPlain();
    AnimationNamesPlain();
    var tail := if style.Some? then Cat(Word(", style = "), Str(style.value)) else Nil;
    assert WellWorded(tail) by {
      if style.Some? {
        assert WellWorded(Word(", style = ")) && WellWorded(Str(style.value));
      }
    }
    var d1 := Cat(tail, Word(" "));
    var d2 := Cat(Word(", bezier = "), Cat(Str("myBezier"), d1));
    var d3 := Cat(Word(", enabled = true"), Cat(Word(", speed = 2.5"), d2));
    var d4 := Cat(Word(" leaf = "), Cat(Str(leaf), d3));
    assert WellWorded(Word(" "));
    assert WellWorded(d1);
    assert WellWorded(Cat(Str("myBezier"), d1));
    assert WellWorded(d2);
    assert WellWorded(Cat(Word(", speed = 2.5"), d2));
    assert WellWorded(d3);
    assert WellWorded(Cat(Str(leaf), d3));
    assert WellWorded(d4);
    CallOk("hl.animation", d4);
  }

  lemma CurveWordsPlain()
    ensures Plain("hl.curve") && Plain(" type = ") && Plain(", points = ") && Plain("0.4, 0.0") && Plain("0.2, 1.0")
    ensures Quotable("myBezier") && Quotable("bezier")
  {
  }

  lemma PointsOk(p1: Doc, p2: Doc)
    requires p1 == Cat(Word(", "), Cat(Braces(Word("0.2, 1.0")), Word(" ")))
    requires p2 == Cat(Word(" "), Cat(Braces(Word("0.4, 0.0")), p1))
    ensures WellWorded(p2)
  {
    PunctuationPlain();
    CurveWordsPlain();
    assert WellWorded(Cat(Braces(Word("0.2, 1.0")), Word(" ")));
    assert WellWorded(p1);
    assert WellWorded(Cat(Braces(Word("0.4, 0.0")), p1));
  }

  lemma CurveOk()
    ensures WellWorded(Curve())
  {
    PunctuationPlain();
    CurveWordsPlain();
    var p1 := Cat(Word(", "), Cat(Braces(Word("0.2, 1.0")), Word(" ")));
    var p2 := Cat(Word(" "), Cat(Braces(Word("0.4, 0.0")), p1));
    var t1 := Cat(Word(", points = "), Cat(Braces(p2), Word(" ")));
    var t2 := Cat(Word(" type = "), Cat(Str("bezier"), t1));
    var c1 := Cat(Str("myBezier"), Cat(Word(", "), Braces(t2)));
    PointsOk(p1, p2);
    assert WellWorded(Braces(p2));
    assert WellWorded(Cat(Braces(p2), Word(" ")));
    assert WellWorded(t1);
    assert WellWorded(Cat(Str("bezier"), t1));
    assert WellWorded(t2);
    assert WellWorded(Braces(t2));
    assert WellWorded(Cat(Word(", "), Braces(t2)));
    assert WellWorded(c1);
    assert WellWorded(Parens(c1));
    assert WellWorded(Cat(Parens(c1), Word("\n\n")));
  }

  lemma SwitchWordsPlain()
    ensures Plain("hl.config") && Plain("animations") && Plain(" enabled = ")
  {
  }

  lemma AnimationsOk(enabled: Option<bool>)
    ensures WellWorded(Animations(enabled))
  {
    if enabled.Some? {
      PunctuationPlain();
      SwitchWordsPlain();
      var inner := Cat(Word(" enabled = "), Cat(Word(Truth(enabled.value)), Word(" ")));
      assert WellWorded(Cat(Word(Truth(enabled.value)), Word(" ")));
      assert WellWorded(Braces(inner));
      AssignOk(INDENT1, "animations", Braces(inner));
      var body := Cat(Word("\n"), Assign(INDENT1, "animations", Braces(inner)));
      assert WellWorded(body);
      CallOk("hl.config", body);
      CurveAndAnimationsOk();
    }
  }

  lemma CurveAndAnimationsOk()
    ensures WellWorded(CurveAndAnimations())
  {
    assert Quotable("windows") && Quotable("border") && Quotable("fade") && Quotable("workspaces");
    assert Quotable("popin 80%") && Quotable("slidefade 20%");
    CurveOk();
    AnimationOk("windows", Some("popin 80%"));
    AnimationOk("border", None);
    AnimationOk("fade", None);
    AnimationOk("workspaces", Some("slidefade 20%"));
    var d1 := Cat(Animation("fade", None), Animation("workspaces", Some("slidefade 20%")));
    var d2 := Cat(Animation("border", None), d1);
    assert WellWorded(d1);
    assert WellWorded(d2);
    assert WellWorded(Cat(Animation("windows", Some("popin 80%")), d2));
  }

  lemma HeaderOk()
    ensures WellWorded(Header()) && Scan("") == START
  {
    var text := Header().text;
    forall k | 0 <= k < |text| ensures text[k] != '\n' && text[k] != '\r' {
      if k < 8 {} else if k < 16 {} else if k < 24 {} else {}
    }
  }

  /** Main result: whatever is present or missing, all brackets match. */
  lemma GeneratedIsNested(c: Config)
    requires SettingsOk(c)
    ensures Nested(Generated(c))
  {
    MainTableOk(c);
    AnimationsOk(c.animations);
    HeaderOk();
    assert WellWorded(Cat(MainTable(c), Animations(c.animations)));
    EmitKeepsNesting("", Whole(c), Empty);
  }

  // ------------------------------------------------------------------
  // The layout is written without escaping
  // ------------------------------------------------------------------

  lemma LayoutBreaks(out: string, s: string, open: Stack)
    requires Scan(out) == At(open, Code) && Unquoted(s) && Backslashes(s, |s|) % 2 == 1
    ensures Scan(Emit(out, LayoutDoc(Some(s)))) == Bad
  {
    var before := out + INDENT2 + "layout" + " = ";
    EmitAssign(out, INDENT2, "layout", Str(s));
    PunctuationPlain();
    assert Plain("layout");
    PlainWordScans(out, INDENT2, open);
    PlainWordScans(out + INDENT2, "layout", open);
    PlainWordScans(out + INDENT2 + "layout", " = ", open);
    OddRunStaysOpen(before, s, open);
    var quoted := Emit(before, Str(s));
    ScanSnoc(quoted, ',');
    ScanSnoc(quoted + ",", '\n');
    assert quoted + ",\n" == quoted + "," + "\n";
  }

  ghost predicate OddLayout(c: Config) {
    && SettingsOk(c.(layout := None)) && c.layout.Some?
    && Unquoted(c.layout.value) && Backslashes(c.layout.value, |c.layout.value|) % 2 == 1
  }

  lemma PlainWordScans(out: string, w: string, open: Stack)
    requires Scan(out) == At(open, Code) && Plain(w)
    ensures Scan(out + w) == At(open, Code)
  {
    EmitKeepsNesting(out, Word(w), open);
  }

  lemma OpenGeneralScans(out: string, open: Stack)
    requires Scan(out) == At(open, Code)
    ensures Scan(out + INDENT1 + "general" + " = " + "{" + "\n") == At(Push('{', open), Code)
  {
    PunctuationPlain();
    assert Plain("general");
    PlainWordScans(out, INDENT1, open);
    PlainWordScans(out + INDENT1, "general", open);
    PlainWordScans(out + INDENT1 + "general", " = ", open);
    var before := out + INDENT1 + "general" + " = ";
    ScanSnoc(before, '{');
    PlainWordScans(before + "{", "\n", Push('{', open));
  }

  lemma GeneralBreaks(out: string, c: Config, open: Stack)
    requires Scan(out) == At(open, Code) && OddLayout(c)
    ensures Scan(Emit(out, General(c))) == Bad
  {
    var gaps := if c.gaps.Some? then GapsDoc(c.gaps.value) else Nil;
    var border := if c.border.Some? then BorderDoc(c.border.value) else Nil;
    if c.gaps.Some? {
      GapsDocOk(c.gaps.value);
    }
    if c.border.Some? {
      BorderDocOk(c.border.value);
    }
    var inside := Push('{', open);
    var o := out + INDENT1 + "general" + " = " + "{" + "\n";
    OpenGeneralScans(out, open);
    EmitKeepsNesting(o, gaps, inside);
    EmitKeepsNesting(Emit(o, gaps), border, inside);
    LayoutBreaks(Emit(Emit(o, gaps), border), c.layout.value, inside);
    EmitThree(o, gaps, border, LayoutDoc(c.layout));
    var bad := Emit(o, GeneralBody(c));
    EmitTable(out, INDENT1, "general", GeneralBody(c));
    BadForever(bad, INDENT1);
    BadForever(bad + INDENT1, "}");
    BadForever(bad + INDENT1 + "}", ",\n");
  }

  lemma OddLayoutBreaks(c: Config)
    requires OddLayout(c)
    ensures !Nested(Generated(c))
  {
    var none := "";
    var start := Emit(none, Header());
    HeaderOk();
    EmitKeepsNesting(none, Header(), Empty);
    EmitThree(none, Header(), MainTable(c), Animations(c.animations));
    EmitMainTable(start, c);
    OpenConfigScans(start);
    GeneralBreaks(start + OPEN_CONFIG, c, Push('{', Push('(', Empty)));
    var bad := Emit(start + OPEN_CONFIG, General(c));
    EmitKeepsBad(bad, Decoration(c));
    BadForever(Emit(bad, Decoration(c)), CLOSE_CONFIG);
    EmitKeepsBad(Emit(start, MainTable(c)), Animations(c.animations));
  }

  /** Main result on the layout, which is written without escaping: for every layout without
      quotes and line breaks, all brackets match exactly if the run of backslashes at its end
      has even length. */
  lemma LayoutNestedIff(c: Config)
    requires SettingsOk(c.(layout := None)) && c.layout.Some? && Unquoted(c.layout.value)
    ensures Nested(Generated(c)) <==> Backslashes(c.layout.value, |c.layout.value|) % 2 == 0
  {
    if Backslashes(c.layout.value, |c.layout.value|) % 2 == 0 {
      GeneratedIsNested(c);
    } else {
      OddLayoutBreaks(c);
    }
  }

  const ONLY_LAYOUT := Config(None, None, None, None, None, None, Some("dwindle\\"))

  /** For instance, with a layout that ends in one backslash. */
  lemma BackslashLayoutBreaks()
    ensures !Nested(Generated(ONLY_LAYOUT))
  {
    var s := "dwindle\\";
    assert Backslashes(s, 7) == 0 && Backslashes(s, 8) == 1;
    LayoutNestedIff(ONLY_LAYOUT);
  }

  lemma OpenConfigScans(out: string)
    requires Scan(out) == START
    ensures Scan(out + OPEN_CONFIG) == At(Push('{', Push('(', Empty)), Code)
  {
    var before := out + "hl.config";
    assert Plain("hl.config");
    PunctuationPlain();
    PlainWordScans(out, "hl.config", Empty);
    ScanSnoc(before, '(');
    ScanSnoc(before + "(", '{');
    PlainWordScans(before + "(" + "{", "\n", Push('{', Push('(', Empty)));
    assert before + "(" + "{" + "\n" == out + OPEN_CONFIG;
  }

  // ------------------------------------------------------------------
  // The code
  // ------------------------------------------------------------------

  const OPEN_CONFIG := "hl.config({\n"
  const CLOSE_CONFIG := "})\n\n"

  lemma EmitAssign(out: string, indent: string, name: string, value: Doc)
    ensures Emit(out, Assign(indent, name, value)) == Emit(out + indent + name + " = ", value) + ",\n"
  {
    var d1 := Cat(value, Word(",\n"));
    var d2 := Cat(Word(" = "), d1);
    assert Emit(out + indent + name + " = ", d1) == Emit(out + indent + name + " = ", value) + ",\n";
    assert Emit(out + indent + name, d2) == Emit(out + indent + name + " = ", d1);
    assert Emit(out + indent, Cat(Word(name), d2)) == Emit(out + indent + name, d2);
  }

  lemma EmitTable(out: string, indent: string, name: string, body: Doc)
    ensures Emit(out, Table(indent, name, body)) ==
            Emit(out + indent + name + " = " + "{" + "\n", body) + indent + "}" + ",\n"
  {
    var inner := Cat(Word("\n"), Cat(body, Word(indent)));
    var before := out + indent + name + " = ";
    var open := before + "{" + "\n";
    EmitAssign(out, indent, name, Braces(inner));
    assert Emit(open, Cat(body, Word(indent))) == Emit(open, body) + indent;
    assert Emit(before + "{", inner) == Emit(open, Cat(body, Word(indent)));
    assert Emit(before, Braces(inner)) == Emit(before + "{", inner) + "}";
  }

  lemma EmitCall(out: string, name: string, body: Doc)
    ensures Emit(out, Call(name, body)) == Emit(out + name + "(" + "{", body) + "}" + ")"
  {
    var o := out + name;
    assert Emit(o + "(", Braces(body)) == Emit(o + "(" + "{", body) + "}";
    assert Emit(o, Parens(Braces(body))) == Emit(o + "(", Braces(body)) + ")";
  }

  lemma EmitMainTable(out: string, c: Config)
    requires NeedsGeneral(c) || NeedsDecoration(c)
    ensures Emit(out, MainTable(c)) == Emit(Emit(out + OPEN_CONFIG, General(c)), Decoration(c)) + CLOSE_CONFIG
  {
    var parts := Cat(General(c), Decoration(c));
    var body := Cat(Word("\n"), parts);
    var before := out + "hl.config" + "(" + "{";
    assert before + "\n" == out + OPEN_CONFIG by {
      assert OPEN_CONFIG == "hl.config" + "(" + "{" + "\n";
    }
    assert Emit(before, body) == Emit(before + "\n", parts);
    EmitCall(out, "hl.config", body);
    var inside := Emit(before, body);
    assert inside + "}" + ")" + "\n\n" == inside + CLOSE_CONFIG by {
      assert CLOSE_CONFIG == "}" + ")" + "\n\n";
    }
  }

  method AddSetting(out: string, indent: string, name: string, value: Option<string>) returns (r: string)
    ensures r == Emit(out, Setting(indent, name, value))
  {
    r := out;
    if value.Some? {
      EmitAssign(out, indent, name, Word(value.value));
      r := out + indent + name + " = " + value.value + ",\n";
    }
  }

  method AddSwitch(out: string, indent: string, name: string, value: Option<bool>) returns (r: string)
    ensures r == Emit(out, Switch(indent, name, value))
  {
    r := out;
    if value.Some? {
      EmitAssign(out, indent, name, Word(Truth(value.value)));
      r := out + indent + name + " = " + Truth(value.value) + ",\n";
    }
  }

  method AddColor(out: string, indent: string, name: string, color: Option<string>) returns (r: string)
    ensures r == Emit(out, ColorSetting(indent, name, color))
  {
    r := out;
    if color.Some? {
      var colors, angle := Colors.ParseColorString(color);
      if colors.Some? {
        EmitAssign(out, indent, name, Str(colors.value));
        r := out + indent + name + " = " + "\"" + colors.value + "\"" + ",\n";
      }
    }
  }

  lemma EmitTokenList(out: string, tokens: seq<string>, i: nat)
    requires i < |tokens|
    ensures Emit(out, TokenList(tokens, i)) ==
            Emit((if i > 0 then out + ", " else out) + "\"" + tokens[i] + "\"", TokenList(tokens, i + 1))
  {
    var separated := if i > 0 then out + ", " else out;
    assert Emit(separated, Cat(Str(tokens[i]), TokenList(tokens, i + 1)))
        == Emit(separated + "\"" + tokens[i] + "\"", TokenList(tokens, i + 1));
  }

  method AddToken(out: string, first: bool, token: string, ghost tokens: seq<string>, ghost n: nat)
    returns (r: string)
    requires n < |tokens| && token == tokens[n] && (first <==> n == 0)
    ensures Emit(r, TokenList(tokens, n + 1)) == Emit(out, TokenList(tokens, n))
  {
    EmitTokenList(out, tokens, n);
    r := out;
    if !first {
      r := r + ", ";
    }
    r := r + "\"" + token + "\"";
  }

  method AddTokens(out: string, colors: string) returns (r: string)
    ensures r == Emit(out, TokenList(Colors.Tokens(colors), 0))
  {
    ghost var tokens := Colors.Tokens(colors);
    ghost var n: nat := 0;
    r := out;
    var first := true;
    assert colors[0..] == colors;
    var token, p := Colors.NextAhead(tokens, 0, colors, 0);
    while token.Some?
      invariant Colors.Ahead(tokens, n, token, colors, p)
      invariant first <==> n == 0
      invariant Emit(r, TokenList(tokens, n)) == Emit(out, TokenList(tokens, 0))
      decreases |tokens| - n
    {
      r := AddToken(r, first, token.value, tokens, n);
      first := false;
      n := n + 1;
      token, p := Colors.NextAhead(tokens, n, colors, p);
    }
  }

  method AddActiveBorder(out: string, color: string) returns (r: string)
    ensures r == Emit(out, ActiveBorder(Some(color)))
  {
    r := out;
    var colors, angle := Colors.ParseColorString(Some(color));
    if colors.Some? {
      r := r + INDENT3 + "active_border" + " = ";
      if angle.Some? {
        EmitAssign(out, INDENT3, "active_border", Gradient(colors.value, angle.value));
        EmitGradient(r, colors.value, angle.value);
        var degrees := if Colors.IsAngle(angle.value) then angle.value[..|angle.value| - 3] else angle.value;
        r := r + "{" + " colors = " + "{";
        r := AddTokens(r, colors.value);
        r := r + "}" + ", angle = " + degrees + " " + "}" + ",\n";
      } else {
        EmitAssign(out, INDENT3, "active_border", Str(colors.value));
        r := r + "\"" + colors.value + "\"" + ",\n";
      }
    }
  }

  lemma EmitGradient(out: string, colors: string, angle: string)
    ensures Emit(out, Gradient(colors, angle)) ==
            Emit(out + "{" + " colors = " + "{", TokenList(Colors.Tokens(colors), 0))
            + "}" + ", angle = " + Degrees(angle) + " " + "}"
  {
    var list := TokenList(Colors.Tokens(colors), 0);
    var d1 := Cat(Word(Degrees(angle)), Word(" "));
    var d2 := Cat(Word(", angle = "), d1);
    var d3 := Cat(Braces(list), d2);
    var o1 := out + "{" + " colors = ";
    var o2 := Emit(o1 + "{", list) + "}";
    assert Emit(o2 + ", angle = ", d1) == o2 + ", angle = " + Degrees(angle) + " ";
    assert Emit(o2, d2) == Emit(o2 + ", angle = ", d1);
    assert Emit(o1, d3) == Emit(o2, d2);
    assert Emit(out + "{", Cat(Word(" colors = "), d3)) == Emit(o1, d3);
  }

  method AddBorder(out: string, b: Border) returns (r: string)
    ensures r == Emit(out, BorderDoc(b))
  {
    r := AddSetting(out, INDENT2, "border_size", b.width);
    if b.activeColor.Some? || b.inactiveColor.Some? {
      ghost var before := r;
      ghost var body := Cat(ActiveBorder(b.activeColor), ColorSetting(INDENT3, "inactive_border", b.inactiveColor));
      EmitTable(before, INDENT2, "col", body);
      r := r + INDENT2 + "col" + " = " + "{" + "\n";
      if b.activeColor.Some? {
        r := AddActiveBorder(r, b.activeColor.value);
      }
      r := AddColor(r, INDENT3, "inactive_border", b.inactiveColor);
      r := r + INDENT2 + "}" + ",\n";
    }
  }

  lemma EmitThree(out: string, a: Doc, b: Doc, c: Doc)
    ensures Emit(out, Cat(a, Cat(b, c))) == Emit(Emit(Emit(out, a), b), c)
  {
    assert Emit(Emit(out, a), Cat(b, c)) == Emit(Emit(Emit(out, a), b), c);
  }

  method AddGaps(out: string, gaps: Option<Gaps>) returns (r: string)
    ensures r == Emit(out, if gaps.Some? then GapsDoc(gaps.value) else Nil)
  {
    r := out;
    if gaps.Some? {
      r := AddSetting(r, INDENT2, "gaps_in", gaps.value.inner);
      r := AddSetting(r, INDENT2, "gaps_out", gaps.value.outer);
    }
  }

  method AddLayout(out: string, layout: Option<string>) returns (r: string)
    ensures r == Emit(out, LayoutDoc(layout))
  {
    r := out;
    if layout.Some? && layout.value != "" {
      EmitAssign(r, INDENT2, "layout", Str(layout.value));
      r := r + INDENT2 + "layout" + " = " + "\"" + layout.value + "\"" + ",\n";
    }
  }

  method AddGeneral(out: string, c: Config) returns (r: string)
    requires NeedsGeneral(c)
    ensures r == Emit(out, General(c))
  {
    EmitTable(out, INDENT1, "general", GeneralBody(c));
    r := out + INDENT1 + "general" + " = " + "{" + "\n";
    EmitThree(r, if c.gaps.Some? then GapsDoc(c.gaps.value) else Nil,
              if c.border.Some? then BorderDoc(c.border.value) else Nil, LayoutDoc(c.layout));
    r := AddGaps(r, c.gaps);
    if c.border.Some? {
      r := AddBorder(r, c.border.value);
    }
    r := AddLayout(r, c.layout);
    r := r + INDENT1 + "}" + ",\n";
  }

  method AddShadow(out: string, s: Shadow) returns (r: string)
    ensures r == Emit(out, ShadowDoc(s))
  {
    r := out;
    if s.enabled.Some? {
      ghost var rest := Cat(Setting(INDENT3, "range", s.size), ColorSetting(INDENT3, "color", s.color));
      EmitTable(out, INDENT2, "shadow", Cat(Switch(INDENT3, "enabled", s.enabled), rest));
      r := r + INDENT2 + "shadow" + " = " + "{" + "\n";
      r := AddSwitch(r, INDENT3, "enabled", s.enabled);
      r := AddSetting(r, INDENT3, "range", s.size);
      r := AddColor(r, INDENT3, "color", s.color);
      r := r + INDENT2 + "}" + ",\n";
    }
  }

  method AddBlur(out: string, b: Blur) returns (r: string)
    ensures r == Emit(out, BlurDoc(b))
  {
    ghost var rest := Cat(Setting(INDENT3, "size", b.size), Setting(INDENT3, "passes", b.passes));
    EmitTable(out, INDENT2, "blur", Cat(Switch(INDENT3, "enabled", b.enabled), rest));
    r := out + INDENT2 + "blur" + " = " + "{" + "\n";
    r := AddSwitch(r, INDENT3, "enabled", b.enabled);
    r := AddSetting(r, INDENT3, "size", b.size);
    r := AddSetting(r, INDENT3, "passes", b.passes);
    r := r + INDENT2 + "}" + ",\n";
  }

  method AddOpacity(out: string, opacity: Option<Opacity>) returns (r: string)
    ensures r == Emit(out, if opacity.Some? then OpacityDoc(opacity.value) else Nil)
  {
    r := out;
    if opacity.Some? {
      r := AddSetting(r, INDENT2, "active_opacity", opacity.value.active);
      r := AddSetting(r, INDENT2, "inactive_opacity", opacity.value.inactive);
    }
  }

  method AddDecoration(out: string, c: Config) returns (r: string)
    requires NeedsDecoration(c)
    ensures r == Emit(out, Decoration(c))
  {
    EmitTable(out, INDENT1, "decoration", DecorationBody(c));
    r := out + INDENT1 + "decoration" + " = " + "{" + "\n";
    ghost var tables := Cat(if c.shadow.Some? then ShadowDoc(c.shadow.value) else Nil,
                            if c.blur.Some? then BlurDoc(c.blur.value) else Nil);
    EmitThree(r, if c.border.Some? then Setting(INDENT2, "rounding", c.border.value.rounding) else Nil,
              if c.opacity.Some? then OpacityDoc(c.opacity.value) else Nil, tables);
    if c.border.Some? {
      r := AddSetting(r, INDENT2, "rounding", c.border.value.rounding);
    }
    r := AddOpacity(r, c.opacity);
    if c.shadow.Some? {
      r := AddShadow(r, c.shadow.value);
    }
    if c.blur.Some? {
      r := AddBlur(r, c.blur.value);
    }
    r := r + INDENT1 + "}" + ",\n";
  }

  method AddMainTable(out: string, c: Config) returns (r: string)
    ensures r == Emit(out, MainTable(c))
  {
    r := out;
    var general, decoration := NeedsGeneral(c), NeedsDecoration(c);
    if general {
      r := r + OPEN_CONFIG;
      r := AddGeneral(r, c);
    }
    if decoration {
      if !general {
        r := r + OPEN_CONFIG;
      }
      r := AddDecoration(r, c);
    }
    if general || decoration {
      EmitMainTable(out, c);
      r := r + CLOSE_CONFIG;
    }
  }

  lemma Regroup(out: string, a: string, b: string, c: string, whole: string)
    requires whole == a + b + c
    ensures out + a + b + c == out + whole
  {
  }

  /** `text` is these five pieces, one after the other. */
  lemma RegroupFive(out: string, a: string, b: string, c: string, d: string, e: string, whole: string)
    requires whole == a + b + c + d + e
    ensures out + a + b + c + d + e == out + whole
  {
  }

  lemma EmitFour(out: string, a: Doc, b: Doc, c: Doc, d: Doc)
    ensures Emit(out, Cat(a, Cat(b, Cat(c, d)))) == Emit(Emit(Emit(Emit(out, a), b), c), d)
  {
    EmitThree(Emit(out, a), b, c, d);
  }

  const POINT1 := ", points = { {0.4, 0.0}"
  const POINT2 := ", {0.2, 1.0} } })\n\n"

  lemma EmitPoints(out: string)
    ensures Emit(out, Points()) == out + " " + "{" + "0.4, 0.0" + "}" + ", " + "{" + "0.2, 1.0" + "}" + " "
  {
    var o1 := Emit(out + " ", Braces(Word("0.4, 0.0")));
    var rest := Cat(Word(", "), Cat(Braces(Word("0.2, 1.0")), Word(" ")));
    assert o1 == out + " " + "{" + "0.4, 0.0" + "}";
    EmitThree(o1, Word(", "), Braces(Word("0.2, 1.0")), Word(" "));
    assert Emit(o1 + ", ", Braces(Word("0.2, 1.0"))) == o1 + ", " + "{" + "0.2, 1.0" + "}";
    assert Emit(out + " ", Cat(Braces(Word("0.4, 0.0")), rest)) == Emit(o1, rest);
  }

  lemma EmitCurveTable(out: string)
    ensures Emit(out, CurveTable()) ==
            Emit(out + " type = " + "\"" + "bezier" + "\"" + ", points = " + "{", Points()) + "}" + " "
  {
    var o := out + " type = " + "\"" + "bezier" + "\"" + ", points = ";
    assert Emit(out + " type = ", Str("bezier")) == out + " type = " + "\"" + "bezier" + "\"";
    assert Emit(o, Cat(Braces(Points()), Word(" "))) == Emit(o + "{", Points()) + "}" + " ";
    EmitThree(out, Word(" type = "), Str("bezier"), Cat(Word(", points = "), Cat(Braces(Points()), Word(" "))));
  }

  lemma EmitCurve(out: string)
    ensures Emit(out, Curve()) ==
            Emit(out + "hl.curve" + "(" + "\"" + "myBezier" + "\"" + ", " + "{", CurveTable()) + "}" + ")" + "\n\n"
  {
    var arguments := Cat(Str("myBezier"), Cat(Word(", "), Braces(CurveTable())));
    var o := out + "hl.curve" + "(";
    assert Emit(o, Str("myBezier")) == o + "\"" + "myBezier" + "\"";
    EmitThree(o, Str("myBezier"), Word(", "), Braces(CurveTable()));
    EmitThree(out, Word("hl.curve"), Parens(arguments), Word("\n\n"));
  }

  lemma CurveStart(out: string)
    ensures out + "hl.curve" + "(" + "\"" + "myBezier" + "\"" + ", " + "{" + " type = " + "\"" + "bezier" + "\"" ==
            out + "hl.curve(\"myBezier\", " + "{ type = \"bezier\""
  {
    RegroupFive(out, "hl.curve", "(", "\"", "myBezier", "\"", "hl.curve(\"myBezier\"");
    assert "hl.curve(\"myBezier\"" + ", " == "hl.curve(\"myBezier\", ";
    AppendAssoc(out, "hl.curve(\"myBezier\"", ", ");
    RegroupFive(out + "hl.curve(\"myBezier\", ", "{", " type = ", "\"", "bezier", "\"", "{ type = \"bezier\"");
  }

  lemma CurveEnd(out: string)
    ensures out + ", points = " + "{" + " " + "{" + "0.4, 0.0" + "}" + ", " + "{" + "0.2, 1.0" + "}" + " " + "}"
              + " " + "}" + ")" + "\n\n" ==
            out + POINT1 + POINT2
  {
    var start := ", points = { {0.4, 0.0";
    RegroupFive(out, ", points = ", "{", " ", "{", "0.4, 0.0", start);
    assert POINT1 == start + "}";
    AppendAssoc(out, start, "}");
    var o1 := out + POINT1;
    RegroupFive(o1, ", ", "{", "0.2, 1.0", "}", " ", ", {0.2, 1.0} ");
    RegroupFive(o1 + ", {0.2, 1.0} ", "}", " ", "}", ")", "\n\n", "} })\n\n");
    assert POINT2 == ", {0.2, 1.0} " + "} })\n\n";
    AppendAssoc(o1, ", {0.2, 1.0} ", "} })\n\n");
  }

  const ANIMATION := "hl.animation({ leaf = "
  const TIMING := ", enabled = true, speed = 2.5"
  const BEZIER := ", bezier = \"myBezier\""
  const END := " })\n"

  lemma EmitCurveAndAnimations(out: string)
    ensures Emit(out, CurveAndAnimations()) ==
            Emit(Emit(Emit(Emit(Emit(out, Curve()),
                                Animation("windows", Some("popin 80%"))), Animation("border", None)),
                      Animation("fade", None)), Animation("workspaces", Some("slidefade 20%")))
  {
    EmitFour(Emit(out, Curve()), Animation("windows", Some("popin 80%")), Animation("border", None),
             Animation("fade", None), Animation("workspaces", Some("slidefade 20%")));
  }

  lemma EmitAnimationEnd(out: string, style: Option<string>)
    ensures var s := if style.Some? then out + ", style = " + "\"" + style.value + "\"" else out;
            Emit(out, Cat(StyleDoc(style), Word(" "))) == s + " "
  {
    if style.Some? {
      assert Emit(out, StyleDoc(style)) == Emit(out + ", style = ", Str(style.value));
    }
  }

  lemma EmitAnimationBody(out: string, leaf: string, style: Option<string>)
    ensures var o := out + " leaf = " + "\"" + leaf + "\"" + ", enabled = true" + ", speed = 2.5"
                     + ", bezier = " + "\"" + "myBezier" + "\"";
            Emit(out, AnimationBody(leaf, style)) == Emit(o, Cat(StyleDoc(style), Word(" ")))
  {
    var end := Cat(StyleDoc(style), Word(" "));
    var d2 := Cat(Word(", bezier = "), Cat(Str("myBezier"), end));
    var o1 := out + " leaf = " + "\"" + leaf + "\"";
    var o2 := o1 + ", enabled = true" + ", speed = 2.5";
    EmitThree(o2, Word(", bezier = "), Str("myBezier"), end);
    EmitThree(o1, Word(", enabled = true"), Word(", speed = 2.5"), d2);
    assert Emit(out + " leaf = ", Str(leaf)) == o1;
    EmitThree(out, Word(" leaf = "), Str(leaf), Cat(Word(", enabled = true"), Cat(Word(", speed = 2.5"), d2)));
  }

  lemma AnimationStart(out: string, leaf: string)
    ensures out + "hl.animation" + "(" + "{" + " leaf = " + "\"" + leaf + "\"" + ", enabled = true" + ", speed = 2.5"
            + ", bezier = " + "\"" + "myBezier" + "\"" == out + ANIMATION + ("\"" + leaf + "\"") + TIMING + BEZIER
  {
    var quoted := "\"" + leaf + "\"";
    RegroupFive(out, "hl.animation", "(", "{", " leaf", " = ", ANIMATION);
    assert " leaf = " == " leaf" + " = ";
    AppendAssoc(out + "hl.animation" + "(" + "{", " leaf", " = ");
    var o := out + ANIMATION;
    Regroup(o, "\"", leaf, "\"", quoted);
    assert TIMING == ", enabled = true" + ", speed = 2.5";
    AppendAssoc(o + quoted, ", enabled = true", ", speed = 2.5");
    RegroupFour(o + quoted + TIMING, ", bezier = ", "\"", "myBezier", "\"", BEZIER);
  }

  lemma RegroupFour(out: string, a: string, b: string, c: string, d: string, whole: string)
    requires whole == a + b + c + d
    ensures out + a + b + c + d == out + whole
  {
  }

  lemma AnimationIs(out: string, leaf: string, style: Option<string>, styleText: string)
    requires styleText == if style.Some? then ", style = " + "\"" + style.value + "\"" else ""
    ensures Emit(out, Animation(leaf, style)) ==
            out + ANIMATION + ("\"" + leaf + "\"") + TIMING + BEZIER + styleText + END
  {
    var o := out + ANIMATION + ("\"" + leaf + "\"") + TIMING + BEZIER;
    EmitCall(out, "hl.animation", AnimationBody(leaf, style));
    EmitAnimationBody(out + "hl.animation" + "(" + "{", leaf, style);
    AnimationStart(out, leaf);
    EmitAnimationEnd(o, style);
    if style.Some? {
      Regroup(o, ", style = ", "\"" + style.value, "\"", styleText);
      AppendAssoc(o + ", style = ", "\"", style.value);
    } else {
      assert o + styleText == o;
    }
    RegroupFour(o + styleText, " ", "}", ")", "\n", END);
  }

  method AddAnimations(out: string, enabled: Option<bool>) returns (r: string)
    ensures r == Emit(out, Animations(enabled))
  {
    r := out;
    if enabled.Some? {
      EmitAnimations(out, enabled.value);
      r := r + "hl.config" + "(" + "{" + "\n" + INDENT1 + "animations" + " = "
        + "{" + " enabled = " + Truth(enabled.value) + " " + "}" + ",\n" + "}" + ")" + "\n\n";
      if enabled.value {
        r := AddCurveAndAnimations(r);
      }
    }
  }

  lemma WindowsLine(out: string)
    ensures Emit(out, Animation("windows", Some("popin 80%"))) ==
            out + ANIMATION + "\"windows\"" + TIMING + BEZIER + ", style = \"popin 80%\"" + END
  {
    assert "\"windows\"" == "\"" + "windows" + "\"";
    assert ", style = \"popin 80%\"" == ", style = " + "\"" + "popin 80%" + "\"";
    AnimationIs(out, "windows", Some("popin 80%"), ", style = \"popin 80%\"");
  }

  lemma WorkspacesLine(out: string)
    ensures Emit(out, Animation("workspaces", Some("slidefade 20%"))) ==
            out + ANIMATION + "\"workspaces\"" + TIMING + BEZIER + ", style = \"slidefade 20%\"" + END
  {
    assert "\"workspaces\"" == "\"" + "workspaces" + "\"";
    assert ", style = \"slidefade 20%\"" == ", style = " + "\"" + "slidefade 20%" + "\"";
    AnimationIs(out, "workspaces", Some("slidefade 20%"), ", style = \"slidefade 20%\"");
  }

  lemma PlainAnimationLine(out: string, leaf: string, quoted: string)
    requires quoted == "\"" + leaf + "\""
    ensures Emit(out, Animation(leaf, None)) == out + ANIMATION + quoted + TIMING + BEZIER + END
  {
    var o := out + ANIMATION + quoted + TIMING + BEZIER;
    AnimationIs(out, leaf, None, "");
    assert o + "" == o;
  }

  lemma BorderLine(out: string)
    ensures Emit(out, Animation("border", None)) == out + ANIMATION + "\"border\"" + TIMING + BEZIER + END
  {
    assert "\"border\"" == "\"" + "border" + "\"";
    PlainAnimationLine(out, "border", "\"border\"");
  }

  lemma FadeLine(out: string)
    ensures Emit(out, Animation("fade", None)) == out + ANIMATION + "\"fade\"" + TIMING + BEZIER + END
  {
    assert "\"fade\"" == "\"" + "fade" + "\"";
    PlainAnimationLine(out, "fade", "\"fade\"");
  }

  method AddCurveAndAnimations(out: string) returns (r: string)
    ensures r == Emit(out, CurveAndAnimations())
  {
    EmitCurveAndAnimations(out);
    r := AddCurve(out);
    WindowsLine(r);
    r := r + ANIMATION + "\"windows\"" + TIMING + BEZIER + ", style = \"popin 80%\"" + END;
    BorderLine(r);
    r := r + ANIMATION + "\"border\"" + TIMING + BEZIER + END;
    FadeLine(r);
    r := r + ANIMATION + "\"fade\"" + TIMING + BEZIER + END;
    WorkspacesLine(r);
    r := r + ANIMATION + "\"workspaces\"" + TIMING + BEZIER + ", style = \"slidefade 20%\"" + END;
  }

  method AddCurve(out: string) returns (r: string)
    ensures r == Emit(out, Curve())
  {
    EmitCurve(out);
    var o := out + "hl.curve" + "(" + "\"" + "myBezier" + "\"" + ", " + "{";
    EmitCurveTable(o);
    var o1 := o + " type = " + "\"" + "bezier" + "\"";
    EmitPoints(o1 + ", points = " + "{");
    CurveStart(out);
    CurveEnd(o1);
    r := out + "hl.curve(\"myBezier\", " + "{ type = \"bezier\"" + POINT1 + POINT2;
  }

  lemma EmitAnimations(out: string, on: bool)
    ensures var r := out + "hl.config" + "(" + "{" + "\n" + INDENT1 + "animations" + " = "
                     + "{" + " enabled = " + Truth(on) + " " + "}" + ",\n" + "}" + ")" + "\n\n";
            Emit(out, Animations(Some(on))) == if on then Emit(r, CurveAndAnimations()) else r
  {
    var inner := Cat(Word(" enabled = "), Cat(Word(Truth(on)), Word(" ")));
    var assign := Assign(INDENT1, "animations", Braces(inner));
    var before := out + "hl.config" + "(" + "{";
    var o1 := before + "\n" + INDENT1 + "animations" + " = ";
    EmitAssign(before + "\n", INDENT1, "animations", Braces(inner));
    EmitThree(o1 + "{", Word(" enabled = "), Word(Truth(on)), Word(" "));
    assert Emit(o1, Braces(inner)) == o1 + "{" + " enabled = " + Truth(on) + " " + "}";
    var body := Cat(Word("\n"), assign);
    assert Emit(before, body) == Emit(before + "\n", assign);
    EmitThree(out, Call("hl.config", body), Word("\n\n"), if on then CurveAndAnimations() else Nil);
    EmitCall(out, "hl.config", body);
  }

  // ------------------------------------------------------------------
  // The text of each setting
  // ------------------------------------------------------------------

  const NOTHING := Config(None, None, None, None, None, None, None)

  const FIRST_LINE := "" + "-" + "-" + Header().text + "\n"

  function Opened(out: string, indent: string, name: string): string { out + indent + name + " = " + "{" + "\n" }

  function Closed(out: string, indent: string): string { out + indent + "}" + ",\n" }

  function Assigned(out: string, indent: string, name: string, value: string): string {
    out + indent + name + " = " + value + ",\n"
  }

  lemma OneSection(c: Config)
    requires c.animations.None? && NeedsGeneral(c) != NeedsDecoration(c)
    ensures var name, body := if NeedsGeneral(c) then "general" else "decoration",
                              if NeedsGeneral(c) then GeneralBody(c) else DecorationBody(c);
            Generated(c) == Closed(Emit(Opened(FIRST_LINE + OPEN_CONFIG, INDENT1, name), body), INDENT1) + CLOSE_CONFIG
  {
    var none, out := "", FIRST_LINE + OPEN_CONFIG;
    EmitThree(none, Header(), MainTable(c), Animations(c.animations));
    EmitMainTable(FIRST_LINE, c);
    if NeedsGeneral(c) {
      EmitTable(out, INDENT1, "general", GeneralBody(c));
    } else {
      EmitTable(out, INDENT1, "decoration", DecorationBody(c));
    }
  }

  lemma TwoSettings(out: string, indent: string, a: string, x: string, b: string, y: string)
    ensures Emit(out, Cat(Setting(indent, a, Some(x)), Setting(indent, b, Some(y)))) ==
            Assigned(Assigned(out, indent, a, x), indent, b, y)
  {
    EmitAssign(out, indent, a, Word(x));
    EmitAssign(Assigned(out, indent, a, x), indent, b, Word(y));
  }

  /** With nothing but gaps set, the text is one table that gives the inner and the outer gap. */
  lemma GapsText(inner: string, outer: string)
    ensures var out := Opened(FIRST_LINE + OPEN_CONFIG, INDENT1, "general");
            Generated(NOTHING.(gaps := Some(Gaps(Some(inner), Some(outer))))) ==
            Closed(Assigned(Assigned(out, INDENT2, "gaps_in", inner), INDENT2, "gaps_out", outer), INDENT1)
              + CLOSE_CONFIG
  {
    var c := NOTHING.(gaps := Some(Gaps(Some(inner), Some(outer))));
    var out := Opened(FIRST_LINE + OPEN_CONFIG, INDENT1, "general");
    OneSection(c);
    EmitThree(out, GapsDoc(c.gaps.value), Nil, Nil);
    TwoSettings(out, INDENT2, "gaps_in", inner, "gaps_out", outer);
  }

  lemma OpacityText(active: string, inactive: string)
    ensures var out := Opened(FIRST_LINE + OPEN_CONFIG, INDENT1, "decoration");
            Generated(NOTHING.(opacity := Some(Opacity(Some(active), Some(inactive))))) ==
            Closed(Assigned(Assigned(out, INDENT2, "active_opacity", active), INDENT2, "inactive_opacity", inactive),
                   INDENT1) + CLOSE_CONFIG
  {
    var c := NOTHING.(opacity := Some(Opacity(Some(active), Some(inactive))));
    var out := Opened(FIRST_LINE + OPEN_CONFIG, INDENT1, "decoration");
    OneSection(c);
    EmitThree(out, Nil, OpacityDoc(c.opacity.value), Cat(Nil, Nil));
    TwoSettings(out, INDENT2, "active_opacity", active, "inactive_opacity", inactive);
  }

  lemma BlurText(on: bool, size: string, passes: string)
    ensures var out := Opened(Opened(FIRST_LINE + OPEN_CONFIG, INDENT1, "decoration"), INDENT2, "blur");
            var first := Assigned(out, INDENT3, "enabled", if on then "true" else "false");
            Generated(NOTHING.(blur := Some(Blur(Some(on), Some(size), Some(passes))))) ==
            Closed(Closed(Assigned(Assigned(first, INDENT3, "size", size), INDENT3, "passes", passes), INDENT2),
                   INDENT1) + CLOSE_CONFIG
  {
    var c := NOTHING.(blur := Some(Blur(Some(on), Some(size), Some(passes))));
    var section := Opened(FIRST_LINE + OPEN_CONFIG, INDENT1, "decoration");
    OneSection(c);
    EmitThree(section, Nil, Nil, Cat(Nil, BlurDoc(c.blur.value)));
    BlurDocText(section, on, size, passes);
  }

  lemma BlurDocText(section: string, on: bool, size: string, passes: string)
    ensures var first := Assigned(Opened(section, INDENT2, "blur"), INDENT3, "enabled", if on then "true" else "false");
            Emit(section, BlurDoc(Blur(Some(on), Some(size), Some(passes)))) ==
            Closed(Assigned(Assigned(first, INDENT3, "size", size), INDENT3, "passes", passes), INDENT2)
  {
    var out := Opened(section, INDENT2, "blur");
    var rest := Cat(Setting(INDENT3, "size", Some(size)), Setting(INDENT3, "passes", Some(passes)));
    EmitTable(section, INDENT2, "blur", Cat(Switch(INDENT3, "enabled", Some(on)), rest));
    EmitAssign(out, INDENT3, "enabled", Word(Truth(on)));
    TwoSettings(Assigned(out, INDENT3, "enabled", Truth(on)), INDENT3, "size", size, "passes", passes);
  }

  lemma ShadowText(on: bool, size: string, color: string, y: string)
    requires Colors.Parse(color).colors == Some(y)
    ensures var out := Opened(Opened(FIRST_LINE + OPEN_CONFIG, INDENT1, "decoration"), INDENT2, "shadow");
            var first := Assigned(out, INDENT3, "enabled", if on then "true" else "false");
            Generated(NOTHING.(shadow := Some(Shadow(Some(on), Some(size), Some(color))))) ==
            Closed(Closed(Assigned(Assigned(first, INDENT3, "range", size), INDENT3, "color", "\"" + y + "\""),
                          INDENT2), INDENT1) + CLOSE_CONFIG
  {
    var c := NOTHING.(shadow := Some(Shadow(Some(on), Some(size), Some(color))));
    var section := Opened(FIRST_LINE + OPEN_CONFIG, INDENT1, "decoration");
    OneSection(c);
    EmitThree(section, Nil, Nil, Cat(ShadowDoc(c.shadow.value), Nil));
    ShadowDocText(section, on, size, color, y);
  }

  lemma ShadowDocText(section: string, on: bool, size: string, color: string, y: string)
    requires Colors.Parse(color).colors == Some(y)
    ensures var out := Opened(section, INDENT2, "shadow");
            var first := Assigned(out, INDENT3, "enabled", if on then "true" else "false");
            Emit(section, ShadowDoc(Shadow(Some(on), Some(size), Some(color)))) ==
            Closed(Assigned(Assigned(first, INDENT3, "range", size), INDENT3, "color", "\"" + y + "\""), INDENT2)
  {
    var out := Opened(section, INDENT2, "shadow");
    var rest := Cat(Setting(INDENT3, "range", Some(size)), ColorSetting(INDENT3, "color", Some(color)));
    EmitTable(section, INDENT2, "shadow", Cat(Switch(INDENT3, "enabled", Some(on)), rest));
    EmitAssign(out, INDENT3, "enabled", Word(Truth(on)));
    var first := Assigned(out, INDENT3, "enabled", Truth(on));
    EmitAssign(first, INDENT3, "range", Word(size));
    var second := Assigned(first, INDENT3, "range", size);
    EmitAssign(second, INDENT3, "color", Str(y));
    EmitString(second + INDENT3 + "color" + " = ", y);
  }

  /** A shadow that does not say whether it is on leaves its section empty. */
  lemma UndecidedShadowText(size: Option<string>, color: Option<string>)
    ensures Generated(NOTHING.(shadow := Some(Shadow(None, size, color)))) ==
            Closed(Opened(FIRST_LINE + OPEN_CONFIG, INDENT1, "decoration"), INDENT1) + CLOSE_CONFIG
  {
    var c := NOTHING.(shadow := Some(Shadow(None, size, color)));
    var section := Opened(FIRST_LINE + OPEN_CONFIG, INDENT1, "decoration");
    OneSection(c);
    EmitThree(section, Nil, Nil, Cat(Nil, Nil));
  }

  lemma EmitString(out: string, s: string)
    ensures Emit(out, Str(s)) == out + ("\"" + s + "\"")
  {
    Regroup(out, "\"", s, "\"", "\"" + s + "\"");
  }

  lemma LayoutText(layout: string)
    requires layout != ""
    ensures var out := Opened(FIRST_LINE + OPEN_CONFIG, INDENT1, "general");
            Generated(NOTHING.(layout := Some(layout))) ==
            Closed(Assigned(out, INDENT2, "layout", "\"" + layout + "\""), INDENT1) + CLOSE_CONFIG
  {
    var c := NOTHING.(layout := Some(layout));
    var out := Opened(FIRST_LINE + OPEN_CONFIG, INDENT1, "general");
    OneSection(c);
    EmitThree(out, Nil, Nil, LayoutDoc(c.layout));
    EmitAssign(out, INDENT2, "layout", Str(layout));
    EmitString(out + INDENT2 + "layout" + " = ", layout);
  }

  /** With a border width only, the text has no decoration. */
  lemma WidthText(width: string)
    ensures var out := Opened(FIRST_LINE + OPEN_CONFIG, INDENT1, "general");
            Generated(NOTHING.(border := Some(Border(Some(width), None, None, None)))) ==
            Closed(Assigned(out, INDENT2, "border_size", width), INDENT1) + CLOSE_CONFIG
  {
    var c := NOTHING.(border := Some(Border(Some(width), None, None, None)));
    var out := Opened(FIRST_LINE + OPEN_CONFIG, INDENT1, "general");
    OneSection(c);
    EmitThree(out, Nil, BorderDoc(c.border.value), Nil);
    EmitAssign(out, INDENT2, "border_size", Word(width));
  }

  /** Rounding belongs to the border but stands in the second table. */
  lemma RoundingText(rounding: string)
    ensures var first := Closed(Opened(FIRST_LINE + OPEN_CONFIG, INDENT1, "general"), INDENT1);
            Generated(NOTHING.(border := Some(Border(None, None, None, Some(rounding))))) ==
            Closed(Assigned(Opened(first, INDENT1, "decoration"), INDENT2, "rounding", rounding), INDENT1)
              + CLOSE_CONFIG
  {
    var c := NOTHING.(border := Some(Border(None, None, None, Some(rounding))));
    var none, out := "", FIRST_LINE + OPEN_CONFIG;
    EmitThree(none, Header(), MainTable(c), Animations(c.animations));
    EmitMainTable(FIRST_LINE, c);
    EmitTable(out, INDENT1, "general", GeneralBody(c));
    EmitThree(Opened(out, INDENT1, "general"), Nil, BorderDoc(c.border.value), Nil);
    DecorationOfRounding(Closed(Opened(out, INDENT1, "general"), INDENT1), c, rounding);
  }

  lemma DecorationOfRounding(out: string, c: Config, rounding: string)
    requires c == NOTHING.(border := Some(Border(None, None, None, Some(rounding))))
    ensures Emit(out, Decoration(c)) ==
            Closed(Assigned(Opened(out, INDENT1, "decoration"), INDENT2, "rounding", rounding), INDENT1)
  {
    EmitTable(out, INDENT1, "decoration", DecorationBody(c));
    EmitThree(Opened(out, INDENT1, "decoration"), Setting(INDENT2, "rounding", Some(rounding)), Nil, Cat(Nil, Nil));
    EmitAssign(Opened(out, INDENT1, "decoration"), INDENT2, "rounding", Word(rounding));
  }

  /** The two colours of a border without an angle are strings. */
  lemma ColorsText(out: string, active: string, inactive: string, x: string, y: string)
    requires Colors.Parse(active) == Colors.Parsed(Some(x), None) && Colors.Parse(inactive).colors == Some(y)
    ensures var first := Assigned(Opened(out, INDENT2, "col"), INDENT3, "active_border", "\"" + x + "\"");
            Emit(out, BorderDoc(Border(None, Some(active), Some(inactive), None))) ==
            Closed(Assigned(first, INDENT3, "inactive_border", "\"" + y + "\""), INDENT2)
  {
    var table := Opened(out, INDENT2, "col");
    var a, b := ActiveBorder(Some(active)), ColorSetting(INDENT3, "inactive_border", Some(inactive));
    EmitTable(out, INDENT2, "col", Cat(a, b));
    EmitAssign(table, INDENT3, "active_border", Str(x));
    EmitString(table + INDENT3 + "active_border" + " = ", x);
    var second := Assigned(table, INDENT3, "active_border", "\"" + x + "\"");
    EmitAssign(second, INDENT3, "inactive_border", Str(y));
    EmitString(second + INDENT3 + "inactive_border" + " = ", y);
  }

  /** With an angle the active colours are a list of strings, and the angle is a number. */
  lemma GradientText(out: string, active: string, colors: string, x: string, y: string, degrees: string)
    requires Colors.Parse(active) == Colors.Parsed(Some(colors), Some(degrees + "deg")) && degrees != ""
    requires Colors.Tokens(colors) == [x, y]
    ensures Emit(out, ActiveBorder(Some(active))) ==
            out + INDENT3 + "active_border" + " = " + "{" + " colors = " + "{" + "\"" + x + "\"" + ", "
              + "\"" + y + "\"" + "}" + ", angle = " + degrees + " " + "}" + ",\n"
  {
    var angle, tokens := degrees + "deg", Colors.Tokens(colors);
    assert angle[..|angle| - 3] == degrees && angle[|angle| - 3..] == "deg";
    EmitAssign(out, INDENT3, "active_border", Gradient(colors, angle));
    var o := out + INDENT3 + "active_border" + " = ";
    EmitGradient(o, colors, angle);
    EmitTwoTokens(o + "{" + " colors = " + "{", tokens, x, y);
  }

  lemma EmitTwoTokens(out: string, tokens: seq<string>, x: string, y: string)
    requires tokens == [x, y]
    ensures Emit(out, TokenList(tokens, 0)) == out + "\"" + x + "\"" + ", " + "\"" + y + "\""
  {
    EmitTokenList(out, tokens, 0);
    EmitTokenList(out + "\"" + x + "\"", tokens, 1);
  }

  /** What is missing is not mentioned. */
  lemma MissingText()
    ensures Generated(NOTHING) == FIRST_LINE
    ensures Generated(NOTHING.(gaps := Some(Gaps(None, None)))) ==
            Closed(Opened(FIRST_LINE + OPEN_CONFIG, INDENT1, "general"), INDENT1) + CLOSE_CONFIG
  {
    var c := NOTHING.(gaps := Some(Gaps(None, None)));
    OneSection(c);
    EmitThree(Opened(FIRST_LINE + OPEN_CONFIG, INDENT1, "general"), GapsDoc(c.gaps.value), Nil, Nil);
  }

  /** Colours that cannot be read are not mentioned either; their table stays empty. */
  lemma UnreadableColorsText(out: string, active: string, inactive: string)
    requires Colors.Parse(active).colors == None && Colors.Parse(inactive).colors == None
    ensures Emit(out, BorderDoc(Border(None, Some(active), Some(inactive), None))) ==
            Closed(Opened(out, INDENT2, "col"), INDENT2)
  {
    EmitTable(out, INDENT2, "col",
              Cat(ActiveBorder(Some(active)), ColorSetting(INDENT3, "inactive_border", Some(inactive))));
  }

  method GenerateAppearanceLua(c: Config) returns (out: string)
    ensures out == Generated(c)
  {
    out := "" + "-" + "-" + Header().text + "\n";
    ghost var none := "";
    EmitThree(none, Header(), MainTable(c), Animations(c.animations));
    out := AddMainTable(out, c);
    out := AddAnimations(out, c.animations);
  }
}
