/** The six-colour gradient palette that the projects sidebar, the deliveries
    carousel and the deliveries timeline each declare, and their identical
    `getProjectColor(index)` lookup `colors[index % colors.length]`. */
module Palette {
  import opened Options
  import Js

  const Colors: seq<string> := [
    "from-purple-500 to-indigo-500",
    "from-pink-500 to-rose-500",
    "from-blue-500 to-cyan-500",
    "from-emerald-500 to-teal-500",
    "from-amber-500 to-orange-500",
    "from-violet-500 to-purple-500"
  ]

  /** JavaScript array indexing `Colors[i]`: `undefined` outside the array. */
  function ColorAt(i: int): (c: Option<string>)
    ensures c.Some? <==> 0 <= i < |Colors|
    ensures c.Some? ==> c.value == Colors[i]
  {
    if 0 <= i < |Colors| then Some(Colors[i]) else None
  }

  /** `getProjectColor(index)`: the palette entry `index % 6` under JavaScript's
      remainder. A non-negative index always finds a colour, cycling through the
      palette; a negative index finds one only when it is a multiple of six. */
  function ProjectColor(index: int): (c: Option<string>)
    ensures 0 <= index ==> c == Some(Colors[index % 6])
    ensures index < 0 ==> (c.Some? <==> index % 6 == 0)
    ensures c.Some? ==> c.value in Colors
  {
    Js.RemOfNonNegative(if index < 0 then -index else index, 6);
    ColorAt(Js.Rem(index, |Colors|))
  }

  /** Indices six apart get the same colour. */
  lemma ProjectColorPeriodic(index: nat)
    ensures ProjectColor(index + 6) == ProjectColor(index)
  {
  }

  /** The six palette entries are pairwise different, so consecutive projects
      differ in colour. */
  lemma PaletteDistinct()
    ensures forall i, j :: 0 <= i < j < |Colors| ==> Colors[i] != Colors[j]
  {
    assert Colors[0][5] == 'p' && Colors[1][5] == 'p' && Colors[2][5] == 'b';
    assert Colors[3][5] == 'e' && Colors[4][5] == 'a' && Colors[5][5] == 'v';
    assert Colors[0][6] == 'u' && Colors[1][6] == 'i';
  }
}
