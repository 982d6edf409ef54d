/** The colour tool's state (app/colors/page.tsx, lines 9-42 and 60-95):
    for each palette group a map of canonical colours, which feed the
    ramps, and a map of hex text-field buffers, which only the text inputs
    display. Both groups use the same two handlers. */
module Palette {
  import opened Wrappers
  import opened JsObject
  import HexColor
  import Shades

  datatype KeyLabel = KeyLabel(key: string, caption: string)

  /** `BRAND_COLOR_KEYS`: the order in which the page lays out the brand cards. */
  const BrandColorKeys: seq<KeyLabel> := [
    KeyLabel("primary", "Primary"), KeyLabel("secondary", "Secondary"),
    KeyLabel("success", "Success"), KeyLabel("danger", "Danger"),
    KeyLabel("warning", "Warning"), KeyLabel("info", "Info"),
    KeyLabel("dark", "Dark")]

  /** `BRAND_DEFAULTS`: its own key order is the one the state objects keep. */
  const BrandDefaults: Object<string> := [
    Entry("primary", "#009FDB"), Entry("secondary", "#878C94"),
    Entry("success", "#2D7E24"), Entry("warning", "#EA712F"),
    Entry("danger", "#C70032"), Entry("dark", "#25303A"),
    Entry("info", "#49EEDC")]

  datatype SwatchKey = SwatchKey(key: string, caption: string, defaultHex: string)

  /** `TAILWIND_COLOR_KEYS`. */
  const TailwindColorKeys: seq<SwatchKey> := [
    SwatchKey("gray", "Gray", "#878C94"), SwatchKey("red", "Red", "#C70032"),
    SwatchKey("orange", "Orange", "#EA712F"), SwatchKey("lime", "Lime", "#91DC00"),
    SwatchKey("green", "Green", "#2D7E24"), SwatchKey("blue", "Blue", "#009FDB"),
    SwatchKey("cobalt", "Cobalt", "#00388F"), SwatchKey("mint", "Mint", "#49EEDC")]

  /** `TAILWIND_DEFAULTS = Object.fromEntries(...)` over the swatch list. */
  function TailwindDefaults(): (d: Object<string>)
    ensures |d| == |TailwindColorKeys|
    ensures forall i :: 0 <= i < |d| ==>
      d[i].key == TailwindColorKeys[i].key && d[i].value == TailwindColorKeys[i].defaultHex
  {
    seq(|TailwindColorKeys|, i requires 0 <= i < |TailwindColorKeys| =>
      Entry(TailwindColorKeys[i].key, TailwindColorKeys[i].defaultHex))
  }

  /** One palette group: `colors` are the canonical values (`brandColors`,
      `twColors`), `inputs` the text buffers (`brandHexInputs`, `twHexInputs`). */
  datatype Fields = Fields(colors: Object<string>, inputs: Object<string>)

  /** Both maps start from the same defaults. */
  function Init(defaults: Object<string>): (f: Fields)
    ensures f.colors == defaults && f.inputs == defaults
  {
    Fields(defaults, defaults)
  }

  /** `handleBrandColorChange` / `handleTwColorChange`: the colour picker
      writes the canonical value and the buffer alike. */
  function PickColor(f: Fields, key: string, value: string): (r: Fields)
    ensures Get(r.colors, key) == Some(value) && Get(r.inputs, key) == Some(value)
    ensures forall k :: k != key ==> Get(r.colors, k) == Get(f.colors, k) && Get(r.inputs, k) == Get(f.inputs, k)
    ensures key in Keys(f.colors) ==> Keys(r.colors) == Keys(f.colors)
    ensures key in Keys(f.inputs) ==> Keys(r.inputs) == Keys(f.inputs)
  {
    Fields(Set(f.colors, key, value), Set(f.inputs, key, value))
  }

  /** `handleBrandHexInput` / `handleTwHexInput`: typed text always lands in
      the buffer, and in the canonical map only when it passes the validator. */
  function TypeHex(f: Fields, key: string, value: string): (r: Fields)
    ensures Get(r.inputs, key) == Some(value)
    ensures Get(r.colors, key) == if HexColor.IsValidHex(value) then Some(value) else Get(f.colors, key)
    ensures forall k :: k != key ==> Get(r.colors, k) == Get(f.colors, k) && Get(r.inputs, k) == Get(f.inputs, k)
    ensures key in Keys(f.colors) ==> Keys(r.colors) == Keys(f.colors)
    ensures key in Keys(f.inputs) ==> Keys(r.inputs) == Keys(f.inputs)
  {
    HexColor.PatternIsGrammar(value);
    var inputs := Set(f.inputs, key, value);
    if HexColor.MatchesHexPattern(value) then Fields(Set(f.colors, key, value), inputs)
    else Fields(f.colors, inputs)
  }

  /** Every canonical colour is valid hex. */
  ghost predicate CanonicalValid(f: Fields) {
    AllValues(f.colors, HexColor.IsValidHex)
  }

  /** A user action on one card of a group. */
  datatype Event = Picked(key: string, value: string) | Typed(key: string, value: string)

  function Step(f: Fields, e: Event): Fields {
    match e
    case Picked(k, v) => PickColor(f, k, v)
    case Typed(k, v) => TypeHex(f, k, v)
  }

  /** The state after a sequence of actions, oldest first. */
  function Run(f: Fields, events: seq<Event>): Fields
    decreases |events|
  {
    if |events| == 0 then f else Run(Step(f, events[0]), events[1..])
  }

  /** Actions the page can emit for a group with these keys: only its own
      keys, and picker values in the form a colour input reports them. */
  ghost predicate Emittable(keys: seq<string>, events: seq<Event>) {
    forall i :: 0 <= i < |events| ==>
      events[i].key in keys && (events[i].Picked? ==> HexColor.IsPickerValue(events[i].value))
  }

  /** One action keeps the canonical colours valid when a picked value is valid. */
  lemma StepKeepsCanonicalValid(f: Fields, e: Event)
    requires CanonicalValid(f)
    requires e.Picked? ==> HexColor.IsValidHex(e.value)
    ensures CanonicalValid(Step(f, e))
  {
    match e
    case Picked(k, v) =>
      SetKeepsAllValues(f.colors, k, v, HexColor.IsValidHex);
    case Typed(k, v) =>
      HexColor.PatternIsGrammar(v);
      if HexColor.IsValidHex(v) {
        SetKeepsAllValues(f.colors, k, v, HexColor.IsValidHex);
      }
  }

  /** Starting from valid defaults, no sequence of picker and text actions
      the page can emit leaves an invalid canonical colour: only buffers
      ever hold invalid text. The key order of both maps never changes. */
  lemma {:induction false} RunKeepsCanonicalValid(f: Fields, keys: seq<string>, events: seq<Event>)
    requires CanonicalValid(f)
    requires Keys(f.colors) == keys && Keys(f.inputs) == keys
    requires Emittable(keys, events)
    ensures CanonicalValid(Run(f, events))
    ensures Keys(Run(f, events).colors) == keys && Keys(Run(f, events).inputs) == keys
    decreases |events|
  {
    if |events| > 0 {
      var e := events[0];
      if e.Picked? {
        HexColor.PickerValueIsValid(e.value);
      }
      StepKeepsCanonicalValid(f, e);
      RunKeepsCanonicalValid(Step(f, e), keys, events[1..]);
    }
  }

  /** Each swatch default is a valid colour. */
  lemma SwatchDefaultsValid()
    ensures forall i :: 0 <= i < |TailwindColorKeys| ==> HexColor.IsValidHex(TailwindColorKeys[i].defaultHex)
  {
    forall i | 0 <= i < |TailwindColorKeys|
      ensures HexColor.IsValidHex(TailwindColorKeys[i].defaultHex)
    {
      SwatchDefaultValid(i);
    }
  }

  lemma SwatchDefaultValid(i: nat)
    requires i < |TailwindColorKeys|
    ensures HexColor.IsValidHex(TailwindColorKeys[i].defaultHex)
  {
    if i == 0 { HexColor.SixDigitsValid("#878C94"); }
    else if i == 1 { HexColor.SixDigitsValid("#C70032"); }
    else if i == 2 { HexColor.SixDigitsValid("#EA712F"); }
    else if i == 3 { HexColor.SixDigitsValid("#91DC00"); }
    else if i == 4 { HexColor.SixDigitsValid("#2D7E24"); }
    else if i == 5 { HexColor.SixDigitsValid("#009FDB"); }
    else if i == 6 { HexColor.SixDigitsValid("#00388F"); }
    else { HexColor.SixDigitsValid("#49EEDC"); }
  }

  /** The brand defaults are valid colours. */
  lemma BrandDefaultsValid()
    ensures CanonicalValid(Init(BrandDefaults))
  {
    HexColor.SixDigitsValid("#009FDB");
    HexColor.SixDigitsValid("#878C94");
    HexColor.SixDigitsValid("#2D7E24");
    HexColor.SixDigitsValid("#EA712F");
    HexColor.SixDigitsValid("#C70032");
    HexColor.SixDigitsValid("#25303A");
    HexColor.SixDigitsValid("#49EEDC");
  }

  /** The keys of the brand defaults are those of the brand list with
      danger/warning and info/dark swapped, and it is this order the state
      objects keep. */
  lemma BrandDefaultsOrder()
    ensures Keys(BrandDefaults) == [BrandColorKeys[0].key, BrandColorKeys[1].key, BrandColorKeys[2].key,
      BrandColorKeys[4].key, BrandColorKeys[3].key, BrandColorKeys[6].key, BrandColorKeys[5].key]
  {
  }

  /** The swatch defaults are valid colours, keyed in swatch-list order. */
  lemma TailwindDefaultsValid()
    ensures CanonicalValid(Init(TailwindDefaults()))
    ensures Keys(TailwindDefaults()) ==
      seq(|TailwindColorKeys|, i requires 0 <= i < |TailwindColorKeys| => TailwindColorKeys[i].key)
  {
    SwatchDefaultsValid();
  }

  /** `brandPalette` / `twPalette`: one ramp per canonical colour, in the
      canonical map's key order. */
  function Ramps(lib: Shades.ColorLib, f: Fields): (r: Object<Object<string>>)
    ensures Keys(r) == Keys(f.colors)
  {
    MapValues(f.colors, (base: string) => Shades.GenerateShades(lib, base))
  }

  /** Ramps depend on the canonical colours only: two states that agree on
      them have the same ramps whatever their buffers hold, and the ramp of
      a key has the library's normalised canonical colour at stop 500. */
  lemma RampsFromCanonicalOnly(lib: Shades.ColorLib, f: Fields, g: Fields, k: string)
    requires f.colors == g.colors
    ensures Ramps(lib, f) == Ramps(lib, g)
    ensures k in Keys(f.colors) <==> k in Keys(Ramps(lib, f))
    ensures k in Keys(f.colors) ==>
      Get(Ramps(lib, f), k) == Some(Shades.GenerateShades(lib, Get(f.colors, k).value))
      && Get(Get(Ramps(lib, f), k).value, "500") == Some(lib.hex(Get(f.colors, k).value))
  {
    GetMapValues(f.colors, (base: string) => Shades.GenerateShades(lib, base), k);
    if k in Keys(f.colors) {
      Shades.StopBaseIsNormalizedBase(lib, Get(f.colors, k).value);
    }
  }

  /** Typing text that fails the validator changes no ramp. */
  lemma InvalidTextKeepsRamps(lib: Shades.ColorLib, f: Fields, key: string, value: string)
    requires !HexColor.MatchesHexPattern(value)
    ensures Ramps(lib, TypeHex(f, key, value)) == Ramps(lib, f)
    ensures Get(TypeHex(f, key, value).inputs, key) == Some(value)
  {
  }

  /** The primary brand colour: default, then an unfinished edit `#12`
      that only the buffer shows, then `#123456` which reaches both maps. */
  lemma PrimaryEditScenario()
    ensures var f0 := Init(BrandDefaults);
      var f1 := TypeHex(f0, "primary", "#12");
      var f2 := TypeHex(f1, "primary", "#123456");
      && Get(f1.colors, "primary") == Some("#009FDB")
      && Get(f1.inputs, "primary") == Some("#12")
      && Get(f2.colors, "primary") == Some("#123456")
      && Get(f2.inputs, "primary") == Some("#123456")
  {
    GetFirst(BrandDefaults, "primary", 0);
    assert !HexColor.IsValidHex("#12");
    assert HexColor.IsValidHex("#123456");
  }
}
