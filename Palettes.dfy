/** The time-of-day colour scheme: four fixed palettes, one per band of hours. */
module Palettes {

  /** The four periods of the day the scene distinguishes. */
  datatype TimeBand = Morning | Midday | Evening | Night

  /** Colours of one frame: background, glow around routes, route colours (cycled by
      route index) and hub fill, as CSS colour strings. */
  datatype Palette = Palette(bg: string, lineGlow: string, colors: seq<string>, hub: string)

  const MorningPalette := Palette("#211006", "rgba(255, 200, 0, 0.5)", ["#FFC300", "#FFD700", "#FFA500"], "#fff")
  const MiddayPalette := Palette("#0e1932", "rgba(0, 200, 255, 0.3)", ["#6EC6FF", "#00C853", "#80D8FF"], "#b0f0ff")
  const EveningPalette := Palette("#2a0a2e", "rgba(200, 0, 255, 0.3)", ["#B71C1C", "#9C27B0", "#F50057"], "#fff2")
  const NightPalette := Palette("#0a0c1a", "rgba(100, 150, 255, 0.2)", ["#90caf9", "#bdbdbd", "#9fa8da"], "#aaa")

  /** The palette that belongs to a band. */
  function PaletteOf(b: TimeBand): Palette
  {
    match b
    case Morning => MorningPalette
    case Midday => MiddayPalette
    case Evening => EveningPalette
    case Night => NightPalette
  }

  /** Reference definition of the bands, written as closed ranges of whole hours:
      6-9 morning, 10-15 midday, 16-19 evening, every other integer night. */
  predicate InBand(b: TimeBand, hour: int)
  {
    match b
    case Morning => 6 <= hour <= 9
    case Midday => 10 <= hour <= 15
    case Evening => 16 <= hour <= 19
    case Night => hour <= 5 || 20 <= hour
  }

  /** `getPalette(hour)`: the if/else chain over half-open hour ranges. Every integer
      gets a palette, and it is the palette of exactly the band the hour lies in. */
  function GetPalette(hour: int): (p: Palette)
    ensures |p.colors| == 3
    ensures forall b :: p == PaletteOf(b) <==> InBand(b, hour)
  {
    PalettesDistinct();
    if hour >= 6 && hour < 10 then MorningPalette
    else if hour >= 10 && hour < 16 then MiddayPalette
    else if hour >= 16 && hour < 20 then EveningPalette
    else NightPalette
  }

  /** No two bands share a palette, so a palette identifies its band. */
  lemma PalettesDistinct()
    ensures forall b1, b2 :: PaletteOf(b1) == PaletteOf(b2) ==> b1 == b2
  {
    forall b1, b2 | PaletteOf(b1) == PaletteOf(b2) ensures b1 == b2 {
      assert PaletteOf(b1).bg == PaletteOf(b2).bg;
    }
  }

  /** The bands cover every integer hour and no hour lies in two of them. */
  lemma BandsPartition(hour: int)
    ensures exists b :: InBand(b, hour)
    ensures forall b1, b2 :: InBand(b1, hour) && InBand(b2, hour) ==> b1 == b2
  {
    var b := if hour <= 5 || 20 <= hour then Night
             else if hour <= 9 then Morning
             else if hour <= 15 then Midday
             else Evening;
    assert InBand(b, hour);
  }

  /** The band of an hour, read back from the palette `getPalette` chose. */
  lemma PaletteDeterminesBand(h1: int, h2: int)
    ensures GetPalette(h1) == GetPalette(h2) <==> forall b :: InBand(b, h1) <==> InBand(b, h2)
  {
    BandsPartition(h1);
    BandsPartition(h2);
    var b1 :| InBand(b1, h1);
    assert GetPalette(h1) == PaletteOf(b1);
    if GetPalette(h1) == GetPalette(h2) {
      assert InBand(b1, h2);
    } else {
      assert !InBand(b1, h2);
    }
  }
}
