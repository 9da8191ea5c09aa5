/** `ToDWriteFontWeight` of the Windows font loader: a CSS font weight, a `LONG`, is
    put into one of DirectWrite's eleven named weights. */
module FontWeight {
  datatype Weight =
    | Thin | ExtraLight | Light | SemiLight | Normal | Medium
    | SemiBold | Bold | ExtraBold | Black | ExtraBlack

  /** The numeric value DirectWrite gives each named weight (`DWRITE_FONT_WEIGHT`). */
  function Value(w: Weight): (v: nat)
    ensures 100 <= v <= 950
  {
    match w
    case Thin => 100
    case ExtraLight => 200
    case Light => 300
    case SemiLight => 350
    case Normal => 400
    case Medium => 500
    case SemiBold => 600
    case Bold => 700
    case ExtraBold => 800
    case Black => 900
    case ExtraBlack => 950
  }

  /** The lower edge of the band of inputs a weight takes. */
  function Floor(w: Weight): int
  {
    match w
    case Thin => -0x8000_0000
    case ExtraLight => 150
    case Light => 250
    case SemiLight => 350
    case Normal => 400
    case Medium => 450
    case SemiBold => 550
    case Bold => 650
    case ExtraBold => 750
    case Black => 850
    case ExtraBlack => 950
  }

  /** `ToDWriteFontWeight(w)`: the first band, from the lightest, that `w` falls below
      the top of. */
  function ToDWriteFontWeight(w: int): (r: Weight)
    ensures Floor(r) <= w || r == Thin
    ensures w < 150 <==> r == Thin
    ensures w >= 950 <==> r == ExtraBlack
    ensures 400 <= w < 450 <==> r == Normal
    ensures 650 <= w < 750 <==> r == Bold
  {
    if w < 150 then Thin
    else if w < 250 then ExtraLight
    else if w < 350 then Light
    else if w < 400 then SemiLight
    else if w < 450 then Normal
    else if w < 550 then Medium
    else if w < 650 then SemiBold
    else if w < 750 then Bold
    else if w < 850 then ExtraBold
    else if w < 950 then Black
    else ExtraBlack
  }

  /** A heavier input never gives a lighter weight. */
  lemma Monotone(a: int, b: int)
    requires a <= b
    ensures Value(ToDWriteFontWeight(a)) <= Value(ToDWriteFontWeight(b))
  {
  }

  /** Between 150 and 950 the chosen weight is the named weight nearest the input: it
      is never more than 50 away. */
  lemma NearestWeight(w: int)
    requires 150 <= w < 950
    ensures -50 <= Value(ToDWriteFontWeight(w)) - w <= 50
  {
  }

  /** Every named weight is chosen for its own value, so the mapping is onto. */
  lemma ValuesMapToThemselves(x: Weight)
    ensures ToDWriteFontWeight(Value(x)) == x
  {
  }
}
