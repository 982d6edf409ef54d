/** The generated `tailwind.config.ts` colour snippet, `configCode`
    (app/colors/page.tsx, lines 97-142). */
module ConfigCode {
  import opened Wrappers
  import opened JsObject
  import opened Text
  import Shades
  import Palette

  /** `semanticColors`: design tokens that refer to CSS variables and do not
      depend on any colour the user picks. */
  const SemanticColors: seq<string> := [
    "border: \"hsl(var(--border))\",",
    "input: \"hsl(var(--input))\",",
    "ring: \"hsl(var(--ring))\",",
    "background: \"hsl(var(--background))\",",
    "foreground: \"hsl(var(--foreground))\",",
    "muted: {",
    "  DEFAULT: \"hsl(var(--muted))\",",
    "  foreground: \"hsl(var(--muted-foreground))\",",
    "},",
    "popover: {",
    "  DEFAULT: \"hsl(var(--popover))\",",
    "  foreground: \"hsl(var(--popover-foreground))\",",
    "},",
    "card: {",
    "  DEFAULT: \"hsl(var(--card))\",",
    "  foreground: \"hsl(var(--card-foreground))\",",
    "},",
    "destructive: {",
    "  DEFAULT: \"hsl(var(--destructive))\",",
    "  foreground: \"hsl(var(--destructive-foreground))\",",
    "},"]

  /** The fixed preamble: the semantic tokens one per line. */
  function Preamble(): string {
    Join(SemanticColors, "\n")
  }

  /** The `foreground` every generated colour object carries. */
  const White: string := "#FFFFFF"

  /** `colorObjectWithDefaultAndForeground`: the shades, then `DEFAULT` copied
      from stop "500", then the constant `foreground`. */
  function ColorObject(shades: Object<string>): (r: Object<string>)
    requires "500" in Keys(shades)
    ensures Get(r, "DEFAULT") == Get(shades, "500")
    ensures Get(r, "foreground") == Some(White)
    ensures forall k :: k != "DEFAULT" && k != "foreground" ==> Get(r, k) == Get(shades, k)
  {
    var d := Set(shades, "DEFAULT", Get(shades, "500").value);
    assert "DEFAULT" != "foreground" by { assert "DEFAULT"[0] != "foreground"[0]; }
    Set(d, "foreground", White)
  }

  /** When the shades carry neither synthesised key, both are appended. */
  lemma ColorObjectAppends(shades: Object<string>)
    requires "500" in Keys(shades)
    requires "DEFAULT" !in Keys(shades) && "foreground" !in Keys(shades)
    ensures ColorObject(shades) ==
      shades + [Entry("DEFAULT", Get(shades, "500").value), Entry("foreground", White)]
  {
    assert "DEFAULT" != "foreground" by { assert "DEFAULT"[0] != "foreground"[0]; }
    SetTwiceAppends(shades, "DEFAULT", Get(shades, "500").value, "foreground", White);
  }

  /** For a generated ramp: the nine stops in ascending order, `DEFAULT`
      equal to the library's normalised base, and white `foreground`,
      whatever the base. */
  lemma RampColorObject(lib: Shades.ColorLib, base: string)
    ensures "500" in Keys(Shades.GenerateShades(lib, base))
    ensures ColorObject(Shades.GenerateShades(lib, base)) ==
      Shades.GenerateShades(lib, base) + [Entry("DEFAULT", lib.hex(base)), Entry("foreground", White)]
  {
    var g := Shades.GenerateShades(lib, base);
    Shades.StopBaseIsNormalizedBase(lib, base);
    assert Keys(g)[Shades.BaseIndex] == "500";
    NotAStop("DEFAULT");
    NotAStop("foreground");
    ColorObjectAppends(g);
  }

  /** A key that does not start with a digit is not a stop label. */
  lemma NotAStop(k: string)
    requires |k| > 0 && !('0' <= k[0] <= '9')
    ensures k !in Shades.StopKeys
  {
    forall i | 0 <= i < |Shades.StopKeys|
      ensures Shades.StopKeys[i] != k
    {
      assert '0' <= Shades.StopKeys[i][0] <= '9';
    }
  }

  // ---- JSON.stringify(value, null, 4) for an object of strings ----------

  function HexDigitLower(n: nat): char
    requires n < 16
  {
    if n < 10 then ('0' as int + n) as char else ('a' as int + n - 10) as char
  }

  /** One character of a JSON string literal, escaped as ECMAScript's
      `QuoteJSONString` does. */
  function EscapeChar(c: char): string {
    if c == '"' then "\\\""
    else if c == '\\' then "\\\\"
    else if c == '\U{0008}' then "\\b"
    else if c == '\t' then "\\t"
    else if c == '\n' then "\\n"
    else if c == '\U{000C}' then "\\f"
    else if c == '\r' then "\\r"
    else if c < ' ' then "\\u00" + [HexDigitLower(c as nat / 16), HexDigitLower(c as nat % 16)]
    else [c]
  }

  function Escape(s: string): string {
    if |s| == 0 then "" else EscapeChar(s[0]) + Escape(s[1..])
  }

  function Quote(s: string): string {
    "\"" + Escape(s) + "\""
  }

  /** One property line at nesting depth one. */
  function Member(e: Entry<string>): string {
    "    " + Quote(e.key) + ": " + Quote(e.value)
  }

  function Members(o: Object<string>): seq<string> {
    seq(|o|, i requires 0 <= i < |o| => Member(o[i]))
  }

  /** `JSON.stringify(o, null, 4)` for a flat object of strings. */
  function Stringify(o: Object<string>): string {
    if |o| == 0 then "{}" else "{\n" + Join(Members(o), ",\n") + "\n}"
  }

  /** `.replace(/"/g, "'")`: every double quote becomes a single quote. */
  function SingleQuotes(s: string): string {
    if |s| == 0 then "" else [if s[0] == '"' then '\'' else s[0]] + SingleQuotes(s[1..])
  }

  lemma {:induction false} SingleQuotesAppend(a: string, b: string)
    ensures SingleQuotes(a + b) == SingleQuotes(a) + SingleQuotes(b)
  {
    if |a| == 0 {
      assert a + b == b;
    } else {
      SingleQuotesAppend(a[1..], b);
      assert (a + b)[1..] == a[1..] + b;
    }
  }

  /** The replacement leaves no double quote and changes nothing else. */
  lemma {:induction false} SingleQuotesSpec(s: string)
    ensures |SingleQuotes(s)| == |s|
    ensures '"' !in SingleQuotes(s)
    ensures forall i :: 0 <= i < |s| && s[i] != '"' ==> SingleQuotes(s)[i] == s[i]
    ensures forall i :: 0 <= i < |s| && s[i] == '"' ==> SingleQuotes(s)[i] == '\''
  {
    if |s| > 0 {
      SingleQuotesSpec(s[1..]);
    }
  }

  lemma SingleQuotesKeeps(s: string)
    requires '"' !in s
    ensures SingleQuotes(s) == s
  {
    SingleQuotesSpec(s);
  }

  /** The replacement commutes with joining. */
  lemma {:induction false} SingleQuotesJoin(parts: seq<string>, sep: string)
    ensures SingleQuotes(Join(parts, sep))
         == Join(seq(|parts|, i requires 0 <= i < |parts| => SingleQuotes(parts[i])), SingleQuotes(sep))
  {
    var mapped := seq(|parts|, i requires 0 <= i < |parts| => SingleQuotes(parts[i]));
    if |parts| > 1 {
      SingleQuotesJoin(parts[1..], sep);
      assert mapped[1..] == seq(|parts[1..]|, i requires 0 <= i < |parts[1..]| => SingleQuotes(parts[1..][i]));
      SingleQuotesAppend(parts[0] + sep, Join(parts[1..], sep));
      SingleQuotesAppend(parts[0], sep);
    }
  }

  /** One line group of the snippet: `  key: {...},` for one ramp. */
  function Block(key: string, shades: Object<string>): string
    requires "500" in Keys(shades)
  {
    "  " + key + ": " + SingleQuotes(Stringify(ColorObject(shades))) + ","
  }

  ghost predicate AllRamps(palette: Object<Object<string>>) {
    forall i :: 0 <= i < |palette| ==> "500" in Keys(palette[i].value)
  }

  /** The blocks of one palette, in its key order. */
  function Blocks(palette: Object<Object<string>>): (bs: seq<string>)
    requires AllRamps(palette)
    ensures |bs| == |palette|
  {
    seq(|palette|, i requires 0 <= i < |palette| => Block(palette[i].key, palette[i].value))
  }

  /** The template of `configCode`: the opening line, the preamble, the
      brand blocks, the swatch blocks and the closing brace. */
  function Snippet(preamble: string, brandBlocks: seq<string>, twBlocks: seq<string>): string {
    "colors: {\n" + preamble + "\n" + Join(brandBlocks, "\n") + "\n" + Join(twBlocks, "\n") + "\n}"
  }

  /** The page's snippet, computed from the canonical colours of the two groups. */
  function ConfigFor(lib: Shades.ColorLib, brand: Palette.Fields, tw: Palette.Fields): (code: string)
  {
    RampsAreRamps(lib, brand);
    RampsAreRamps(lib, tw);
    Snippet(Preamble(), Blocks(Palette.Ramps(lib, brand)), Blocks(Palette.Ramps(lib, tw)))
  }

  lemma RampsAreRamps(lib: Shades.ColorLib, f: Palette.Fields)
    ensures AllRamps(Palette.Ramps(lib, f))
  {
    var r := Palette.Ramps(lib, f);
    forall i | 0 <= i < |r|
      ensures "500" in Keys(r[i].value)
    {
      assert r[i].value == Shades.GenerateShades(lib, f.colors[i].value);
      assert Keys(r[i].value)[Shades.BaseIndex] == "500";
    }
  }

  // ---- what the snippet looks like ----------------------------------------

  /** Text that JSON writes verbatim: no double quote, no backslash and no
      control character. Chroma's hex strings and the stop labels are such. */
  predicate Plain(s: string) {
    forall i :: 0 <= i < |s| ==> s[i] != '"' && s[i] != '\\' && s[i] >= ' '
  }

  lemma {:induction false} EscapePlain(s: string)
    requires Plain(s)
    ensures Escape(s) == s
  {
    if |s| > 0 {
      EscapePlain(s[1..]);
      assert s == [s[0]] + s[1..];
    }
  }


  function SingleQuoted(s: string): string {
    "'" + s + "'"
  }

  /** A property line as it appears in the snippet. */
  function SnippetMember(e: Entry<string>): string {
    "    " + SingleQuoted(e.key) + ": " + SingleQuoted(e.value)
  }

  lemma QuoteText(s: string)
    requires Plain(s)
    ensures SingleQuotes(Quote(s)) == SingleQuoted(s)
  {
    EscapePlain(s);
    SingleQuotesAppend("\"" + s, "\"");
    SingleQuotesAppend("\"", s);
    SingleQuotesKeeps(s);
  }

  lemma MemberText(e: Entry<string>)
    requires Plain(e.key) && Plain(e.value)
    ensures SingleQuotes(Member(e)) == SnippetMember(e)
  {
    SingleQuotesAppend("    " + Quote(e.key) + ": ", Quote(e.value));
    SingleQuotesAppend("    " + Quote(e.key), ": ");
    SingleQuotesAppend("    ", Quote(e.key));
    QuoteText(e.key);
    QuoteText(e.value);
  }

  /** An object as the snippet shows it: one `'label': 'value'` line per
      property, in order, between braces. */
  function SnippetObject(o: Object<string>): string {
    "{\n" + Join(seq(|o|, i requires 0 <= i < |o| => SnippetMember(o[i])), ",\n") + "\n}"
  }

  /** A non-empty object whose keys and values are plain is stringified and
      re-quoted into exactly its snippet form. */
  lemma StringifyText(o: Object<string>)
    requires |o| > 0
    requires forall i :: 0 <= i < |o| ==> Plain(o[i].key) && Plain(o[i].value)
    ensures SingleQuotes(Stringify(o)) == SnippetObject(o)
  {
    var ms := Members(o);
    var body := Join(ms, ",\n");
    assert Stringify(o) == "{\n" + body + "\n}";
    SingleQuotesAppend("{\n" + body, "\n}");
    SingleQuotesAppend("{\n", body);
    SingleQuotesJoin(ms, ",\n");
    SingleQuotesKeeps("{\n");
    SingleQuotesKeeps("\n}");
    SingleQuotesKeeps(",\n");
    var mapped := seq(|ms|, i requires 0 <= i < |ms| => SingleQuotes(ms[i]));
    forall i | 0 <= i < |ms|
      ensures mapped[i] == SnippetMember(o[i])
    {
      MemberText(o[i]);
    }
    assert mapped == seq(|o|, i requires 0 <= i < |o| => SnippetMember(o[i]));
    assert SingleQuotes(body) == Join(mapped, ",\n");
  }

  /** The block of a ramp whose colour object has plain keys and values:
      the key, then the object in its snippet form. */
  lemma BlockText(key: string, shades: Object<string>)
    requires "500" in Keys(shades)
    requires forall i :: 0 <= i < |ColorObject(shades)| ==>
      Plain(ColorObject(shades)[i].key) && Plain(ColorObject(shades)[i].value)
    ensures Block(key, shades) == "  " + key + ": " + SnippetObject(ColorObject(shades)) + ","
  {
    var o := ColorObject(shades);
    assert |o| > 0 by {
      assert Get(o, "foreground").Some?;
    }
    StringifyText(o);
  }

  /** A line `  key: text,` has a double quote only where the key or the
      re-quoted text has one, and the latter has none. */
  lemma BlockLineHasNoDoubleQuote(key: string, json: string)
    requires '"' !in key
    ensures '"' !in "  " + key + ": " + SingleQuotes(json) + ","
  {
    SingleQuotesSpec(json);
  }

  /** A block whose key has no double quote has none at all. */
  lemma BlockHasNoDoubleQuote(key: string, shades: Object<string>)
    requires "500" in Keys(shades)
    requires '"' !in key
    ensures '"' !in Block(key, shades)
  {
    BlockLineHasNoDoubleQuote(key, Stringify(ColorObject(shades)));
  }

  /** No double quote is left in the blocks of a palette whose keys have
      none: the only double quotes of the snippet are the preamble's. */
  lemma BlocksHaveNoDoubleQuote(palette: Object<Object<string>>)
    requires AllRamps(palette)
    requires forall i :: 0 <= i < |palette| ==> '"' !in palette[i].key
    ensures '"' !in Join(Blocks(palette), "\n")
  {
    var bs := Blocks(palette);
    forall i | 0 <= i < |bs|
      ensures '"' !in bs[i]
    {
      BlockHasNoDoubleQuote(palette[i].key, palette[i].value);
    }
    JoinAvoids(bs, "\n", '"');
  }

  /** The snippet is `colors: {`, the preamble, then the brand blocks
      followed by the swatch blocks as one newline-separated list, then the
      closing brace. */
  lemma SnippetShape(p: string, brandBlocks: seq<string>, twBlocks: seq<string>)
    requires |brandBlocks| > 0 && |twBlocks| > 0
    ensures Snippet(p, brandBlocks, twBlocks) ==
      "colors: {\n" + p + "\n" + Join(brandBlocks + twBlocks, "\n") + "\n}"
  {
    JoinAppend(brandBlocks, twBlocks, "\n");
  }

  /** The blocks of a group: one per canonical colour, in the key order of
      the group's state, each rendering the ramp of that colour. */
  lemma BlocksOfRamps(lib: Shades.ColorLib, f: Palette.Fields)
    ensures AllRamps(Palette.Ramps(lib, f))
    ensures var bs := Blocks(Palette.Ramps(lib, f));
      && |bs| == |f.colors|
      && forall i :: 0 <= i < |f.colors| ==>
           bs[i] == Block(f.colors[i].key, Shades.GenerateShades(lib, f.colors[i].value))
  {
    RampsAreRamps(lib, f);
  }

  /** The page's snippet: the preamble, then the brand group's blocks
      followed by the swatch group's blocks as one newline-separated list. */
  lemma ConfigForShape(lib: Shades.ColorLib, brand: Palette.Fields, tw: Palette.Fields)
    requires |brand.colors| > 0 && |tw.colors| > 0
    ensures AllRamps(Palette.Ramps(lib, brand)) && AllRamps(Palette.Ramps(lib, tw))
    ensures ConfigFor(lib, brand, tw) == "colors: {\n" + Preamble() + "\n"
      + Join(Blocks(Palette.Ramps(lib, brand)) + Blocks(Palette.Ramps(lib, tw)), "\n") + "\n}"
  {
    BlocksOfRamps(lib, brand);
    BlocksOfRamps(lib, tw);
    SnippetShape(Preamble(), Blocks(Palette.Ramps(lib, brand)), Blocks(Palette.Ramps(lib, tw)));
  }

  /** The blocks of a state's ramps follow the key order of its canonical
      colours. */
  lemma BlocksInKeyOrder(lib: Shades.ColorLib, f: Palette.Fields)
    ensures AllRamps(Palette.Ramps(lib, f))
    ensures var bs := Blocks(Palette.Ramps(lib, f));
      && |bs| == |Keys(f.colors)|
      && forall i :: 0 <= i < |bs| ==>
           bs[i] == Block(Keys(f.colors)[i], Shades.GenerateShades(lib, f.colors[i].value))
  {
    BlocksOfRamps(lib, f);
  }

  /** Whatever the user has done on the cards of a group that starts from
      valid defaults, the snippet opens with one block per colour of the
      group in the order of its defaults, each holding the ramp of that
      colour's current, valid canonical value. */
  lemma ReachableBlocks(lib: Shades.ColorLib, defaults: Object<string>, events: seq<Palette.Event>, tw: Palette.Fields)
    requires Palette.CanonicalValid(Palette.Init(defaults))
    requires Palette.Emittable(Keys(defaults), events)
    requires |defaults| > 0 && |tw.colors| > 0
    ensures AllRamps(Palette.Ramps(lib, Palette.Run(Palette.Init(defaults), events)))
    ensures AllRamps(Palette.Ramps(lib, tw))
    ensures var f := Palette.Run(Palette.Init(defaults), events);
      var bs := Blocks(Palette.Ramps(lib, f));
      && Palette.CanonicalValid(f)
      && |bs| == |Keys(defaults)|
      && (forall i :: 0 <= i < |bs| ==>
            bs[i] == Block(Keys(defaults)[i], Shades.GenerateShades(lib, f.colors[i].value)))
      && ConfigFor(lib, f, tw) == "colors: {\n" + Preamble() + "\n"
           + Join(bs + Blocks(Palette.Ramps(lib, tw)), "\n") + "\n}"
  {
    var f0 := Palette.Init(defaults);
    Palette.RunKeepsCanonicalValid(f0, Keys(defaults), events);
    var f := Palette.Run(f0, events);
    BlocksInKeyOrder(lib, f);
    ConfigForShape(lib, f, tw);
  }

  /** The brand cards are such a group: any snippet the page shows lists
      the brand blocks in the order of the brand defaults. */
  lemma ReachableBrandBlocks(lib: Shades.ColorLib, events: seq<Palette.Event>, tw: Palette.Fields)
    requires Palette.Emittable(Keys(Palette.BrandDefaults), events)
    requires |tw.colors| > 0
    ensures AllRamps(Palette.Ramps(lib, Palette.Run(Palette.Init(Palette.BrandDefaults), events)))
    ensures AllRamps(Palette.Ramps(lib, tw))
    ensures var f := Palette.Run(Palette.Init(Palette.BrandDefaults), events);
      var bs := Blocks(Palette.Ramps(lib, f));
      && Palette.CanonicalValid(f)
      && |bs| == |Keys(Palette.BrandDefaults)|
      && (forall i :: 0 <= i < |bs| ==>
            bs[i] == Block(Keys(Palette.BrandDefaults)[i], Shades.GenerateShades(lib, f.colors[i].value)))
      && ConfigFor(lib, f, tw) == "colors: {\n" + Preamble() + "\n"
           + Join(bs + Blocks(Palette.Ramps(lib, tw)), "\n") + "\n}"
  {
    Palette.BrandDefaultsValid();
    ReachableBlocks(lib, Palette.BrandDefaults, events, tw);
  }

  /** The group facts alone: from valid defaults, after any actions the page
      can emit, the colours stay valid and block `i` is the block of the
      `i`-th default key with the ramp of its current colour. */
  lemma ReachableGroup(lib: Shades.ColorLib, defaults: Object<string>, events: seq<Palette.Event>)
    requires Palette.CanonicalValid(Palette.Init(defaults))
    requires Palette.Emittable(Keys(defaults), events)
    ensures AllRamps(Palette.Ramps(lib, Palette.Run(Palette.Init(defaults), events)))
    ensures var f := Palette.Run(Palette.Init(defaults), events);
      var bs := Blocks(Palette.Ramps(lib, f));
      && Palette.CanonicalValid(f)
      && |f.colors| == |defaults|
      && |bs| == |Keys(defaults)|
      && (forall i :: 0 <= i < |bs| ==>
            bs[i] == Block(Keys(defaults)[i], Shades.GenerateShades(lib, f.colors[i].value)))
  {
    var f0 := Palette.Init(defaults);
    Palette.RunKeepsCanonicalValid(f0, Keys(defaults), events);
    BlocksInKeyOrder(lib, Palette.Run(f0, events));
  }

  /** The swatch cards likewise: every snippet the page can show closes with
      the swatch blocks in the order of `TAILWIND_COLOR_KEYS`, each with the
      ramp of that swatch's current, valid value. */
  lemma ReachableSwatchBlocks(lib: Shades.ColorLib, brand: Palette.Fields, events: seq<Palette.Event>)
    requires Palette.Emittable(Keys(Palette.TailwindDefaults()), events)
    requires |brand.colors| > 0
    ensures AllRamps(Palette.Ramps(lib, brand))
    ensures AllRamps(Palette.Ramps(lib, Palette.Run(Palette.Init(Palette.TailwindDefaults()), events)))
    ensures var f := Palette.Run(Palette.Init(Palette.TailwindDefaults()), events);
      var bs := Blocks(Palette.Ramps(lib, f));
      && Palette.CanonicalValid(f)
      && |bs| == |Palette.TailwindColorKeys|
      && (forall i :: 0 <= i < |bs| ==>
            bs[i] == Block(Palette.TailwindColorKeys[i].key, Shades.GenerateShades(lib, f.colors[i].value)))
      && ConfigFor(lib, brand, f) == "colors: {\n" + Preamble() + "\n"
           + Join(Blocks(Palette.Ramps(lib, brand)) + bs, "\n") + "\n}"
  {
    var d := Palette.TailwindDefaults();
    Palette.TailwindDefaultsValid();
    ReachableGroup(lib, d, events);
    var f := Palette.Run(Palette.Init(d), events);
    ConfigForShape(lib, brand, f);
  }
}
