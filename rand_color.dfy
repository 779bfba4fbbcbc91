/** utils/randcolor.js: the display colour given to each participant. The six
    `Math.random()` values the loop draws are the parameter `draws`. */
module RandColor {

  const Letters := "0123456789ABCDEF"

  /** `Math.floor(r * 16)`: for a draw in `[0, 1)` always a valid index into
      `Letters`. */
  function HexIndex(r: real): (k: nat)
    requires 0.0 <= r < 1.0
    ensures k < |Letters|
    ensures k as real <= r * 16.0 < (k + 1) as real
  {
    (r * 16.0).Floor
  }

  /** A colour of the form `#RRGGBB` in upper-case hexadecimal. */
  predicate IsHexColor(color: string) {
    |color| == 7 && color[0] == '#' && forall i :: 1 <= i < 7 ==> color[i] in Letters
  }

  /** Starts from `'#'` and appends, for each of the six draws in order, the
      letter at `Math.floor(draw * 16)`. */
  method GenerateRandomColor(draws: seq<real>) returns (color: string)
    requires |draws| == 6
    requires forall i :: 0 <= i < |draws| ==> 0.0 <= draws[i] < 1.0
    ensures IsHexColor(color)
    ensures forall i :: 0 <= i < 6 ==> color[i + 1] == Letters[HexIndex(draws[i])]
  {
    color := "#";
    var i := 0;
    while i < 6
      invariant 0 <= i <= 6
      invariant |color| == i + 1 && color[0] == '#'
      invariant forall j :: 0 <= j < i ==> color[j + 1] == Letters[HexIndex(draws[j])]
      invariant forall j :: 1 <= j <= i ==> color[j] in Letters
    {
      color := color + [Letters[HexIndex(draws[i])]];
      i := i + 1;
    }
  }
}
