/** Theme colour resolution of the UI kit (frontend/uikit/src/Theme/Theme.tsx):
    the palette and `themeColor`, which turns a theme's colour role into a hex
    colour. The palette is written hue by hue and merged; the merge holds
    exactly the entries of the source's `colors` literal, and its value type
    records that every one of them is a hex colour. */
module Theme {
  import opened Common

  /** A literal colour: the value starts with "#". */
  predicate IsHex(v: string) {
    |v| > 0 && v[0] == '#'
  }

  /** A hex colour, the type of the palette's values. */
  type HexColor = v: string | IsHex(v) witness "#"

  /** Every value of the table is a hex colour or a name in the palette. */
  predicate HexOrPaletteName(palette: map<string, HexColor>, m: map<string, string>) {
    forall c :: c in m ==> IsHex(m[c]) || m[c] in palette
  }

  // ---------------------------------------------------------------- the palette

  const BlueColors: map<string, HexColor> := map[
    "blue:50" := "#E6EDFF",
    "blue:100" := "#C2D4FF",
    "blue:200" := "#99B8FF",
    "blue:300" := "#709CFF",
    "blue:400" := "#4D80FF",
    "blue:500" := "#0052FF",
    "blue:600" := "#0047DB",
    "blue:700" := "#003CB7",
    "blue:800" := "#003193",
    "blue:900" := "#00266F",
    "blue:950" := "#001B4B"
  ]

  const GrayColors: map<string, HexColor> := map[
    "gray:50" := "#FAFAFA",
    "gray:100" := "#F5F5F5",
    "gray:200" := "#E5E5E5",
    "gray:300" := "#D4D4D4",
    "gray:400" := "#A3A3A3",
    "gray:500" := "#737373",
    "gray:600" := "#525252",
    "gray:700" := "#404040",
    "gray:800" := "#262626",
    "gray:900" := "#171717",
    "gray:950" := "#0A0A0A"
  ]

  const YellowColors: map<string, HexColor> := map[
    "yellow:50" := "#FEFCE8",
    "yellow:100" := "#FEF9C3",
    "yellow:200" := "#FEF08A",
    "yellow:300" := "#FDE047",
    "yellow:400" := "#FACC15",
    "yellow:500" := "#EAB308",
    "yellow:600" := "#CA8A04",
    "yellow:700" := "#A16207",
    "yellow:800" := "#854D0E",
    "yellow:900" := "#713F12",
    "yellow:950" := "#422006"
  ]

  const GreenColors: map<string, HexColor> := map[
    "green:50" := "#ECFDF5",
    "green:100" := "#D1FAE5",
    "green:200" := "#A7F3D0",
    "green:300" := "#6EE7B7",
    "green:400" := "#34D399",
    "green:500" := "#10B981",
    "green:600" := "#059669",
    "green:700" := "#047857",
    "green:800" := "#065F46",
    "green:900" := "#064E3B",
    "green:950" := "#022C22"
  ]

  const RedColors: map<string, HexColor> := map[
    "red:50" := "#FEF2F2",
    "red:100" := "#FEE2E2",
    "red:200" := "#FECACA",
    "red:300" := "#FCA5A5",
    "red:400" := "#F87171",
    "red:500" := "#EF4444",
    "red:600" := "#DC2626",
    "red:700" := "#B91C1C",
    "red:800" := "#991B1B",
    "red:900" := "#7F1D1D",
    "red:950" := "#450A0A"
  ]

  const BlackColors: map<string, HexColor> := map[
    "black:50" := "#2A2A2A",
    "black:100" := "#1F1F1F",
    "black:200" := "#1A1A1A",
    "black:300" := "#141414",
    "black:400" := "#0F0F0F",
    "black:500" := "#0A0B0D",
    "black:600" := "#080809",
    "black:700" := "#000000"
  ]

  const SilverColors: map<string, HexColor> := map[
    "silver:100" := "#B8B8B8",
    "silver:200" := "#A0A0A0",
    "silver:300" := "#888888"
  ]

  const BrownColors: map<string, HexColor> := map[
    "brown:50" := "#F8F6F4"
  ]

  const DesertColors: map<string, HexColor> := map[
    "desert:50" := "#FAF9F7",
    "desert:100" := "#EFECE5",
    "desert:950" := "#2C231E"
  ]

  const WhiteColors: map<string, HexColor> := map[
    "white" := "#FFFFFF"
  ]

  const BrandColors: map<string, HexColor> := map[
    "brand:blue" := "#0052FF",
    "brand:lightBlue" := "#709CFF",
    "brand:darkBlue" := "#001B4B",
    "brand:green" := "#10B981",
    "brand:golden" := "#FACC15",
    "brand:cyan" := "#00D4FF",
    "brand:coral" := "#F97316",
    "brand:brown" := "#A16207"
  ]

  /** `colors`: the palette, from colour name to hex value, hue by hue. */
  const Colors: map<string, HexColor> :=
    BlueColors + GrayColors + YellowColors + GreenColors + RedColors + BlackColors
    + SilverColors + BrownColors + DesertColors + WhiteColors + BrandColors

  /** A theme: its name and its colour roles. */
  datatype ThemeDescriptor = ThemeDescriptor(name: string, colors: map<string, string>)

  /** `themeColor`, reading the module's palette through `palette` (the
      source reads the `colors` table, which is `Colors` here): a hex value is
      returned as it is, a palette name resolves to its hex value, and any
      other value fails with the message the source throws. Whatever it
      returns is a hex colour. */
  function ThemeColor(palette: map<string, HexColor>, theme: ThemeDescriptor, role: string): (r: Result<string>)
    requires role in theme.colors
    ensures r.Err? <==> !IsHex(theme.colors[role]) && theme.colors[role] !in palette
    ensures r.Err? ==> r.msg == "Color " + theme.colors[role] + " not found in theme"
    ensures r.Ok? ==> IsHex(r.value)
    ensures r.Ok? && IsHex(theme.colors[role]) ==> r.value == theme.colors[role]
    ensures r.Ok? && !IsHex(theme.colors[role]) ==> r.value == palette[theme.colors[role]]
  {
    var themeColor := theme.colors[role];
    if IsHex(themeColor) then Ok(themeColor)
    else if themeColor in palette then Ok(palette[themeColor])
    else Err("Color " + themeColor + " not found in theme")
  }

  /** A theme whose roles all name palette colours or hex colours (what the
      `satisfies` clause of `lightTheme` demands) never makes `themeColor`
      throw, and every role resolves to a hex colour. */
  lemma ThemeColorNeverThrows(palette: map<string, HexColor>, theme: ThemeDescriptor)
    requires HexOrPaletteName(palette, theme.colors)
    ensures forall role :: role in theme.colors ==> ThemeColor(palette, theme, role).Ok?
  {
  }

  /** Resolving a role is idempotent: a theme whose roles are replaced by
      their resolved colours resolves every role to the same colour. */
  lemma ResolveTwice(palette: map<string, HexColor>, theme: ThemeDescriptor, role: string)
    requires role in theme.colors && ThemeColor(palette, theme, role).Ok?
    ensures var t := ThemeDescriptor(theme.name, theme.colors[role := ThemeColor(palette, theme, role).value]);
      ThemeColor(palette, t, role) == ThemeColor(palette, theme, role)
  {
  }
}
