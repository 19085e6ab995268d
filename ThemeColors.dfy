/** The three accent colours the user can choose, and the lookup from a stored label. */
module ThemeColors {

  /** `ThemeColorsConfig`: each object carries an ARGB colour and a label. */
  datatype ThemeColorsConfig = Green | Blue | Purple {
    function Color(): nat {
      match this
      case Green => 0xFF63A002
      case Blue => 0xFF2F57EA
      case Purple => 0xFF4E02A0
    }

    function Label(): string {
      match this
      case Green => "Green"
      case Blue => "Blue"
      case Purple => "Purple"
    }
  }

  /** The labels `getColor` recognises. */
  const Labels: seq<string> := ["Green", "Blue", "Purple"]

  /** `getColor(label)`: the object with that label; any other text gives Green. */
  function GetColor(text: string): (r: ThemeColorsConfig)
    ensures r.Label() == text <==> text in Labels
    ensures text !in Labels ==> r == Green
  {
    if text == "Green" then Green
    else if text == "Blue" then Blue
    else if text == "Purple" then Purple
    else Green
  }

  /** Looking up an object's own label gives the object back. */
  lemma GetColorOfLabel(c: ThemeColorsConfig)
    ensures GetColor(c.Label()) == c
  {
  }

  /** Different objects have different labels and different colours, all fully opaque. */
  lemma LabelsAndColorsDistinct(c: ThemeColorsConfig, d: ThemeColorsConfig)
    ensures c != d ==> c.Label() != d.Label() && c.Color() != d.Color()
    ensures c.Color() / 0x100_0000 == 0xFF
  {
  }
}
