/** The shade generator `generateShades` (app/colors/page.tsx, lines 44-57).
    chroma-js is not modelled: its three operations enter as the function
    values of a `ColorLib`, so every statement here holds for any colour
    library. */
module Shades {
  import opened Wrappers
  import opened JsObject

  /** `brighten(b, a)` is `chroma(b).brighten(a).hex()`, `darken(b, a)` is
      `chroma(b).darken(a).hex()` and `hex(b)` is `chroma(b).hex()`. */
  datatype ColorLib = ColorLib(
    brighten: (string, real) -> string,
    darken: (string, real) -> string,
    hex: string -> string)

  /** The nine stop labels, lightest first. */
  const StopKeys: seq<string> := ["100", "200", "300", "400", "500", "600", "700", "800", "900"]

  /** Index of the untransformed stop "500" in `StopKeys`. */
  const BaseIndex: nat := 4

  /** The ramp for one base colour, as the object literal the source builds
      (its integer-like keys enumerate in ascending order). */
  function GenerateShades(lib: ColorLib, base: string): (r: Object<string>)
    ensures Keys(r) == StopKeys
    ensures r[BaseIndex].value == lib.hex(base)
  {
    [ Entry("100", lib.brighten(base, 2.0)),
      Entry("200", lib.brighten(base, 1.5)),
      Entry("300", lib.brighten(base, 1.0)),
      Entry("400", lib.brighten(base, 0.5)),
      Entry("500", lib.hex(base)),
      Entry("600", lib.darken(base, 0.5)),
      Entry("700", lib.darken(base, 1.0)),
      Entry("800", lib.darken(base, 1.5)),
      Entry("900", lib.darken(base, 2.0)) ]
  }

  /** Stops below 500 brighten the base by half a step per stop of
      distance, stops above it darken it likewise. */
  lemma ShadeAmounts(lib: ColorLib, base: string)
    ensures var r := GenerateShades(lib, base);
      && (forall i :: 0 <= i < BaseIndex ==>
            r[i].value == lib.brighten(base, (BaseIndex - i) as real / 2.0))
      && (forall i :: BaseIndex < i < |r| ==>
            r[i].value == lib.darken(base, (i - BaseIndex) as real / 2.0))
  {
    var r := GenerateShades(lib, base);
    forall i | 0 <= i < BaseIndex
      ensures r[i].value == lib.brighten(base, (BaseIndex - i) as real / 2.0)
    {
      if i == 0 {} else if i == 1 {} else if i == 2 {} else {}
    }
    forall i | BaseIndex < i < |r|
      ensures r[i].value == lib.darken(base, (i - BaseIndex) as real / 2.0)
    {
      if i == 5 {} else if i == 6 {} else if i == 7 {} else {}
    }
  }

  /** Reading stop "500" of a ramp gives the library's normalised base. */
  lemma StopBaseIsNormalizedBase(lib: ColorLib, base: string)
    ensures Get(GenerateShades(lib, base), "500") == Some(lib.hex(base))
  {
    GetFirst(GenerateShades(lib, base), "500", BaseIndex);
  }

  /** The transform amount grows with the distance from stop 500: lighter
      stops brighten more the further they are, darker stops darken more. */
  lemma AmountGrowsWithDistance(lib: ColorLib, base: string, i: nat, j: nat)
    requires i < j < |StopKeys|
    ensures j < BaseIndex ==>
      exists a, b :: a > b > 0.0 && GenerateShades(lib, base)[i].value == lib.brighten(base, a)
        && GenerateShades(lib, base)[j].value == lib.brighten(base, b)
    ensures BaseIndex < i ==>
      exists a, b :: 0.0 < a < b && GenerateShades(lib, base)[i].value == lib.darken(base, a)
        && GenerateShades(lib, base)[j].value == lib.darken(base, b)
  {
    var r := GenerateShades(lib, base);
    ShadeAmounts(lib, base);
    if j < BaseIndex {
      var a, b := (BaseIndex - i) as real / 2.0, (BaseIndex - j) as real / 2.0;
      assert r[i].value == lib.brighten(base, a) && r[j].value == lib.brighten(base, b);
    }
    if BaseIndex < i {
      var a, b := (i - BaseIndex) as real / 2.0, (j - BaseIndex) as real / 2.0;
      assert r[i].value == lib.darken(base, a) && r[j].value == lib.darken(base, b);
    }
  }
}
