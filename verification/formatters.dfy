/** The gross-margin colour bands (`getGMPercentageColor` in
    src/utils/formatters.ts). */
module Formatters {

  const Green: string := "#4CAF50"
  const Yellow: string := "#FFEB3B"
  const Orange: string := "#FF9800"
  const Red: string := "#F44336"

  /** The colour of a gross-margin percentage. */
  function GmPercentageColor(value: real): (c: string)
    ensures c == Green <==> value >= 40.0
    ensures c == Yellow <==> 10.0 <= value < 40.0
    ensures c == Orange <==> 5.0 < value < 10.0
    ensures c == Red <==> value <= 5.0
  {
    if value >= 40.0 then Green
    else if value >= 10.0 then Yellow
    else if value > 5.0 then Orange
    else Red
  }

  /** Position of a band from worst (red) to best (green). */
  function BandRank(c: string): nat {
    if c == Green then 3 else if c == Yellow then 2 else if c == Orange then 1 else 0
  }

  /** Raising the percentage never moves it to a worse band. */
  lemma ColorMonotone(v: real, w: real)
    requires v <= w
    ensures BandRank(GmPercentageColor(v)) <= BandRank(GmPercentageColor(w))
  {
  }
}
