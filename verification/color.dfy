/**
 * `Color`: four real channels (red, green, blue, alpha), usually in
 * 0..1.  The module covers the exact parts of the type: the HTML hex
 * codec, the 32- and 64-bit packings, the named-colour table and the
 * inversion operators.  Because `real` is exact, a channel read from a
 * byte is the numerator over 255 (or over 15, or 65535) and the
 * decode/encode round trips hold exactly.
 */
module Color {
  import opened Utils

  datatype Color = Color(r: real, g: real, b: real, a: real)

  datatype Option<T> = None | Some(value: T)

  /** `Color::default()`: opaque black. */
  const DEFAULT: Color := Color(0.0, 0.0, 0.0, 1.0)

  // ---------------------------------------------------------------------
  // The named colours.
  // ---------------------------------------------------------------------

  const ALICE_BLUE: Color := Color(0.941176, 0.972549, 1.0, 1.0)
  const ANTIQUE_WHITE: Color := Color(0.980392, 0.921569, 0.843137, 1.0)
  const AQUA: Color := Color(0.0, 1.0, 1.0, 1.0)
  const AQUAMARINE: Color := Color(0.498039, 1.0, 0.831373, 1.0)
  const AZURE: Color := Color(0.941176, 1.0, 1.0, 1.0)
  const BEIGE: Color := Color(0.960784, 0.960784, 0.862745, 1.0)
  const BISQUE: Color := Color(1.0, 0.894118, 0.768627, 1.0)
  const BLACK: Color := Color(0.0, 0.0, 0.0, 1.0)
  const BLANCHED_ALMOND: Color := Color(1.0, 0.921569, 0.803922, 1.0)
  const BLUE: Color := Color(0.0, 0.0, 1.0, 1.0)
  const BLUE_VIOLET: Color := Color(0.541176, 0.168627, 0.886275, 1.0)
  const BROWN: Color := Color(0.647059, 0.164706, 0.164706, 1.0)
  const BURLYWOOD: Color := Color(0.870588, 0.721569, 0.529412, 1.0)
  const CADET_BLUE: Color := Color(0.372549, 0.619608, 0.627451, 1.0)
  const CHARTREUSE: Color := Color(0.498039, 1.0, 0.0, 1.0)
  const CHOCOLATE: Color := Color(0.823529, 0.411765, 0.117647, 1.0)
  const CORAL: Color := Color(1.0, 0.498039, 0.313726, 1.0)
  const CORNFLOWER_BLUE: Color := Color(0.392157, 0.584314, 0.929412, 1.0)
  const CORNSILK: Color := Color(1.0, 0.972549, 0.862745, 1.0)
  const CRIMSON: Color := Color(0.862745, 0.0784314, 0.235294, 1.0)
  const CYAN: Color := Color(0.0, 1.0, 1.0, 1.0)
  const DARK_BLUE: Color := Color(0.0, 0.0, 0.545098, 1.0)
  const DARK_CYAN: Color := Color(0.0, 0.545098, 0.545098, 1.0)
  const DARK_GOLDENROD: Color := Color(0.721569, 0.52549, 0.0431373, 1.0)
  const DARK_GRAY: Color := Color(0.662745, 0.662745, 0.662745, 1.0)
  const DARK_GREEN: Color := Color(0.0, 0.392157, 0.0, 1.0)
  const DARK_KHAKI: Color := Color(0.741176, 0.717647, 0.419608, 1.0)
  const DARK_MAGENTA: Color := Color(0.545098, 0.0, 0.545098, 1.0)
  const DARK_OLIVE_GREEN: Color := Color(0.333333, 0.419608, 0.184314, 1.0)
  const DARK_ORANGE: Color := Color(1.0, 0.54902, 0.0, 1.0)
  const DARK_ORCHID: Color := Color(0.6, 0.196078, 0.8, 1.0)
  const DARK_RED: Color := Color(0.545098, 0.0, 0.0, 1.0)
  const DARK_SALMON: Color := Color(0.913725, 0.588235, 0.478431, 1.0)
  const DARK_SEA_GREEN: Color := Color(0.560784, 0.737255, 0.560784, 1.0)
  const DARK_SLATE_BLUE: Color := Color(0.282353, 0.239216, 0.545098, 1.0)
  const DARK_SLATE_GRAY: Color := Color(0.184314, 0.309804, 0.309804, 1.0)
  const DARK_TURQUOISE: Color := Color(0.0, 0.807843, 0.819608, 1.0)
  const DARK_VIOLET: Color := Color(0.580392, 0.0, 0.827451, 1.0)
  const DEEP_PINK: Color := Color(1.0, 0.0784314, 0.576471, 1.0)
  const DEEP_SKY_BLUE: Color := Color(0.0, 0.74902, 1.0, 1.0)
  const DIM_GRAY: Color := Color(0.411765, 0.411765, 0.411765, 1.0)
  const DODGER_BLUE: Color := Color(0.117647, 0.564706, 1.0, 1.0)
  const FIREBRICK: Color := Color(0.698039, 0.133333, 0.133333, 1.0)
  const FLORAL_WHITE: Color := Color(1.0, 0.980392, 0.941176, 1.0)
  const FOREST_GREEN: Color := Color(0.133333, 0.545098, 0.133333, 1.0)
  const FUCHSIA: Color := Color(1.0, 0.0, 1.0, 1.0)
  const GAINSBORO: Color := Color(0.862745, 0.862745, 0.862745, 1.0)
  const GHOST_WHITE: Color := Color(0.972549, 0.972549, 1.0, 1.0)
  const GOLD: Color := Color(1.0, 0.843137, 0.0, 1.0)
  const GOLDENROD: Color := Color(0.854902, 0.647059, 0.12549, 1.0)
  const GRAY: Color := Color(0.745098, 0.745098, 0.745098, 1.0)
  const GREEN: Color := Color(0.0, 1.0, 0.0, 1.0)
  const GREEN_YELLOW: Color := Color(0.678431, 1.0, 0.184314, 1.0)
  const HONEYDEW: Color := Color(0.941176, 1.0, 0.941176, 1.0)
  const HOT_PINK: Color := Color(1.0, 0.411765, 0.705882, 1.0)
  const INDIAN_RED: Color := Color(0.803922, 0.360784, 0.360784, 1.0)
  const INDIGO: Color := Color(0.294118, 0.0, 0.509804, 1.0)
  const IVORY: Color := Color(1.0, 1.0, 0.941176, 1.0)
  const KHAKI: Color := Color(0.941176, 0.901961, 0.54902, 1.0)
  const LAVENDER: Color := Color(0.901961, 0.901961, 0.980392, 1.0)
  const LAVENDER_BLUSH: Color := Color(1.0, 0.941176, 0.960784, 1.0)
  const LAWN_GREEN: Color := Color(0.486275, 0.988235, 0.0, 1.0)
  const LEMON_CHIFFON: Color := Color(1.0, 0.980392, 0.803922, 1.0)
  const LIGHT_BLUE: Color := Color(0.678431, 0.847059, 0.901961, 1.0)
  const LIGHT_CORAL: Color := Color(0.941176, 0.501961, 0.501961, 1.0)
  const LIGHT_CYAN: Color := Color(0.878431, 1.0, 1.0, 1.0)
  const LIGHT_GOLDENROD: Color := Color(0.980392, 0.980392, 0.823529, 1.0)
  const LIGHT_GRAY: Color := Color(0.827451, 0.827451, 0.827451, 1.0)
  const LIGHT_GREEN: Color := Color(0.564706, 0.933333, 0.564706, 1.0)
  const LIGHT_PINK: Color := Color(1.0, 0.713726, 0.756863, 1.0)
  const LIGHT_SALMON: Color := Color(1.0, 0.627451, 0.478431, 1.0)
  const LIGHT_SEA_GREEN: Color := Color(0.12549, 0.698039, 0.666667, 1.0)
  const LIGHT_SKY_BLUE: Color := Color(0.529412, 0.807843, 0.980392, 1.0)
  const LIGHT_SLATE_GRAY: Color := Color(0.466667, 0.533333, 0.6, 1.0)
  const LIGHT_STEEL_BLUE: Color := Color(0.690196, 0.768627, 0.870588, 1.0)
  const LIGHT_YELLOW: Color := Color(1.0, 1.0, 0.878431, 1.0)
  const LIME: Color := Color(0.0, 1.0, 0.0, 1.0)
  const LIME_GREEN: Color := Color(0.196078, 0.803922, 0.196078, 1.0)
  const LINEN: Color := Color(0.980392, 0.941176, 0.901961, 1.0)
  const MAGENTA: Color := Color(1.0, 0.0, 1.0, 1.0)
  const MAROON: Color := Color(0.690196, 0.188235, 0.376471, 1.0)
  const MEDIUM_AQUAMARINE: Color := Color(0.4, 0.803922, 0.666667, 1.0)
  const MEDIUM_BLUE: Color := Color(0.0, 0.0, 0.803922, 1.0)
  const MEDIUM_ORCHID: Color := Color(0.729412, 0.333333, 0.827451, 1.0)
  const MEDIUM_PURPLE: Color := Color(0.576471, 0.439216, 0.858824, 1.0)
  const MEDIUM_SEA_GREEN: Color := Color(0.235294, 0.701961, 0.443137, 1.0)
  const MEDIUM_SLATE_BLUE: Color := Color(0.482353, 0.407843, 0.933333, 1.0)
  const MEDIUM_SPRING_GREEN: Color := Color(0.0, 0.980392, 0.603922, 1.0)
  const MEDIUM_TURQUOISE: Color := Color(0.282353, 0.819608, 0.8, 1.0)
  const MEDIUM_VIOLET_RED: Color := Color(0.780392, 0.0823529, 0.521569, 1.0)
  const MIDNIGHT_BLUE: Color := Color(0.0980392, 0.0980392, 0.439216, 1.0)
  const MINT_CREAM: Color := Color(0.960784, 1.0, 0.980392, 1.0)
  const MISTY_ROSE: Color := Color(1.0, 0.894118, 0.882353, 1.0)
  const MOCCASIN: Color := Color(1.0, 0.894118, 0.709804, 1.0)
  const NAVAJO_WHITE: Color := Color(1.0, 0.870588, 0.678431, 1.0)
  const NAVY_BLUE: Color := Color(0.0, 0.0, 0.501961, 1.0)
  const OLD_LACE: Color := Color(0.992157, 0.960784, 0.901961, 1.0)
  const OLIVE: Color := Color(0.501961, 0.501961, 0.0, 1.0)
  const OLIVE_DRAB: Color := Color(0.419608, 0.556863, 0.137255, 1.0)
  const ORANGE: Color := Color(1.0, 0.647059, 0.0, 1.0)
  const ORANGE_RED: Color := Color(1.0, 0.270588, 0.0, 1.0)
  const ORCHID: Color := Color(0.854902, 0.439216, 0.839216, 1.0)
  const PALE_GOLDENROD: Color := Color(0.933333, 0.909804, 0.666667, 1.0)
  const PALE_GREEN: Color := Color(0.596078, 0.984314, 0.596078, 1.0)
  const PALE_TURQUOISE: Color := Color(0.686275, 0.933333, 0.933333, 1.0)
  const PALE_VIOLET_RED: Color := Color(0.858824, 0.439216, 0.576471, 1.0)
  const PAPAYA_WHIP: Color := Color(1.0, 0.937255, 0.835294, 1.0)
  const PEACH_PUFF: Color := Color(1.0, 0.854902, 0.72549, 1.0)
  const PERU: Color := Color(0.803922, 0.521569, 0.247059, 1.0)
  const PINK: Color := Color(1.0, 0.752941, 0.796078, 1.0)
  const PLUM: Color := Color(0.866667, 0.627451, 0.866667, 1.0)
  const POWDER_BLUE: Color := Color(0.690196, 0.878431, 0.901961, 1.0)
  const PURPLE: Color := Color(0.627451, 0.12549, 0.941176, 1.0)
  const REBECCA_PURPLE: Color := Color(0.4, 0.2, 0.6, 1.0)
  const RED: Color := Color(1.0, 0.0, 0.0, 1.0)
  const ROSY_BROWN: Color := Color(0.737255, 0.560784, 0.560784, 1.0)
  const ROYAL_BLUE: Color := Color(0.254902, 0.411765, 0.882353, 1.0)
  const SADDLE_BROWN: Color := Color(0.545098, 0.270588, 0.0745098, 1.0)
  const SALMON: Color := Color(0.980392, 0.501961, 0.447059, 1.0)
  const SANDY_BROWN: Color := Color(0.956863, 0.643137, 0.376471, 1.0)
  const SEA_GREEN: Color := Color(0.180392, 0.545098, 0.341176, 1.0)
  const SEASHELL: Color := Color(1.0, 0.960784, 0.933333, 1.0)
  const SIENNA: Color := Color(0.627451, 0.321569, 0.176471, 1.0)
  const SILVER: Color := Color(0.752941, 0.752941, 0.752941, 1.0)
  const SKY_BLUE: Color := Color(0.529412, 0.807843, 0.921569, 1.0)
  const SLATE_BLUE: Color := Color(0.415686, 0.352941, 0.803922, 1.0)
  const SLATE_GRAY: Color := Color(0.439216, 0.501961, 0.564706, 1.0)
  const SNOW: Color := Color(1.0, 0.980392, 0.980392, 1.0)
  const SPRING_GREEN: Color := Color(0.0, 1.0, 0.498039, 1.0)
  const STEEL_BLUE: Color := Color(0.27451, 0.509804, 0.705882, 1.0)
  const TAN: Color := Color(0.823529, 0.705882, 0.54902, 1.0)
  const TEAL: Color := Color(0.0, 0.501961, 0.501961, 1.0)
  const THISTLE: Color := Color(0.847059, 0.74902, 0.847059, 1.0)
  const TOMATO: Color := Color(1.0, 0.388235, 0.278431, 1.0)
  const TRANSPARENT: Color := Color(1.0, 1.0, 1.0, 0.0)
  const TURQUOISE: Color := Color(0.25098, 0.878431, 0.815686, 1.0)
  const VIOLET: Color := Color(0.933333, 0.509804, 0.933333, 1.0)
  const WEB_GRAY: Color := Color(0.501961, 0.501961, 0.501961, 1.0)
  const WEB_GREEN: Color := Color(0.0, 0.501961, 0.0, 1.0)
  const WEB_MAROON: Color := Color(0.501961, 0.0, 0.0, 1.0)
  const WEB_PURPLE: Color := Color(0.501961, 0.0, 0.501961, 1.0)
  const WHEAT: Color := Color(0.960784, 0.870588, 0.701961, 1.0)
  const WHITE: Color := Color(1.0, 1.0, 1.0, 1.0)
  const WHITE_SMOKE: Color := Color(0.960784, 0.960784, 0.960784, 1.0)
  const YELLOW: Color := Color(1.0, 1.0, 0.0, 1.0)
  const YELLOW_GREEN: Color := Color(0.603922, 0.803922, 0.196078, 1.0)

  /** A table of named colours, searched front to back. */
  datatype Table = Nil | Entry(name: string, color: Color, rest: Table)

  /** The cases of `color_name`, in the source's order. */
  const NAMED_COLORS: Table :=
    Entry("ALICE_BLUE", ALICE_BLUE,
    Entry("ANTIQUE_WHITE", ANTIQUE_WHITE,
    Entry("AQUA", AQUA,
    Entry("AQUAMARINE", AQUAMARINE,
    Entry("AZURE", AZURE,
    Entry("BEIGE", BEIGE,
    Entry("BISQUE", BISQUE,
    Entry("BLACK", BLACK,
    Entry("BLANCHED_ALMOND", BLANCHED_ALMOND,
    Entry("BLUE", BLUE,
    Entry("BLUE_VIOLET", BLUE_VIOLET,
    Entry("BROWN", BROWN,
    Entry("BURLYWOOD", BURLYWOOD,
    Entry("CADET_BLUE", CADET_BLUE,
    Entry("CHARTREUSE", CHARTREUSE,
    Entry("CHOCOLATE", CHOCOLATE,
    Entry("CORAL", CORAL,
    Entry("CORNFLOWER_BLUE", CORNFLOWER_BLUE,
    Entry("CORNSILK", CORNSILK,
    Entry("CRIMSON", CRIMSON,
    Entry("CYAN", CYAN,
    Entry("DARK_BLUE", DARK_BLUE,
    Entry("DARK_CYAN", DARK_CYAN,
    Entry("DARK_GOLDENROD", DARK_GOLDENROD,
    Entry("DARK_GRAY", DARK_GRAY,
    Entry("DARK_GREEN", DARK_GREEN,
    Entry("DARK_KHAKI", DARK_KHAKI,
    Entry("DARK_MAGENTA", DARK_MAGENTA,
    Entry("DARK_OLIVE_GREEN", DARK_OLIVE_GREEN,
    Entry("DARK_ORANGE", DARK_ORANGE,
    Entry("DARK_ORCHID", DARK_ORCHID,
    Entry("DARK_RED", DARK_RED,
    Entry("DARK_SALMON", DARK_SALMON,
    Entry("DARK_SEA_GREEN", DARK_SEA_GREEN,
    Entry("DARK_SLATE_BLUE", DARK_SLATE_BLUE,
    Entry("DARK_SLATE_GRAY", DARK_SLATE_GRAY,
    Entry("DARK_TURQUOISE", DARK_TURQUOISE,
    Entry("DARK_VIOLET", DARK_VIOLET,
    Entry("DEEP_PINK", DEEP_PINK,
    Entry("DEEP_SKY_BLUE", DEEP_SKY_BLUE,
    Entry("DIM_GRAY", DIM_GRAY,
    Entry("DODGER_BLUE", DODGER_BLUE,
    Entry("FIREBRICK", FIREBRICK,
    Entry("FLORAL_WHITE", FLORAL_WHITE,
    Entry("FOREST_GREEN", FOREST_GREEN,
    Entry("FUCHSIA", FUCHSIA,
    Entry("GAINSBORO", GAINSBORO,
    Entry("GHOST_WHITE", GHOST_WHITE,
    Entry("GOLD", GOLD,
    Entry("GOLDENROD", GOLDENROD,
    Entry("GRAY", GRAY,
    Entry("GREEN", GREEN,
    Entry("GREEN_YELLOW", GREEN_YELLOW,
    Entry("HONEYDEW", HONEYDEW,
    Entry("HOT_PINK", HOT_PINK,
    Entry("INDIAN_RED", INDIAN_RED,
    Entry("INDIGO", INDIGO,
    Entry("IVORY", IVORY,
    Entry("KHAKI", KHAKI,
    Entry("LAVENDER", LAVENDER,
    Entry("LAVENDER_BLUSH", LAVENDER_BLUSH,
    Entry("LAWN_GREEN", LAWN_GREEN,
    Entry("LEMON_CHIFFON", LEMON_CHIFFON,
    Entry("LIGHT_BLUE", LIGHT_BLUE,
    Entry("LIGHT_CORAL", LIGHT_CORAL,
    Entry("LIGHT_CYAN", LIGHT_CYAN,
    Entry("LIGHT_GOLDENROD", LIGHT_GOLDENROD,
    Entry("LIGHT_GRAY", LIGHT_GRAY,
    Entry("LIGHT_GREEN", LIGHT_GREEN,
    Entry("LIGHT_PINK", LIGHT_PINK,
    Entry("LIGHT_SALMON", LIGHT_SALMON,
    Entry("LIGHT_SEA_GREEN", LIGHT_SEA_GREEN,
    Entry("LIGHT_SKY_BLUE", LIGHT_SKY_BLUE,
    Entry("LIGHT_SLATE_GRAY", LIGHT_SLATE_GRAY,
    Entry("LIGHT_STEEL_BLUE", LIGHT_STEEL_BLUE,
    Entry("LIGHT_YELLOW", LIGHT_YELLOW,
    Entry("LIME", LIME,
    Entry("LIME_GREEN", LIME_GREEN,
    Entry("LINEN", LINEN,
    Entry("MAGENTA", MAGENTA,
    Entry("MAROON", MAROON,
    Entry("MEDIUM_AQUAMARINE", MEDIUM_AQUAMARINE,
    Entry("MEDIUM_BLUE", MEDIUM_BLUE,
    Entry("MEDIUM_ORCHID", MEDIUM_ORCHID,
    Entry("MEDIUM_PURPLE", MEDIUM_PURPLE,
    Entry("MEDIUM_SEA_GREEN", MEDIUM_SEA_GREEN,
    Entry("MEDIUM_SLATE_BLUE", MEDIUM_SLATE_BLUE,
    Entry("MEDIUM_SPRING_GREEN", MEDIUM_SPRING_GREEN,
    Entry("MEDIUM_TURQUOISE", MEDIUM_TURQUOISE,
    Entry("MEDIUM_VIOLET_RED", MEDIUM_VIOLET_RED,
    Entry("MIDNIGHT_BLUE", MIDNIGHT_BLUE,
    Entry("MINT_CREAM", MINT_CREAM,
    Entry("MISTY_ROSE", MISTY_ROSE,
    Entry("MOCCASIN", MOCCASIN,
    Entry("NAVAJO_WHITE", NAVAJO_WHITE,
    Entry("NAVY_BLUE", NAVY_BLUE,
    Entry("OLD_LACE", OLD_LACE,
    Entry("OLIVE", OLIVE,
    Entry("OLIVE_DRAB", OLIVE_DRAB,
    Entry("ORANGE", ORANGE,
    Entry("ORANGE_RED", ORANGE_RED,
    Entry("ORCHID", ORCHID,
    Entry("PALE_GOLDENROD", PALE_GOLDENROD,
    Entry("PALE_GREEN", PALE_GREEN,
    Entry("PALE_TURQUOISE", PALE_TURQUOISE,
    Entry("PALE_VIOLET_RED", PALE_VIOLET_RED,
    Entry("PAPAYA_WHIP", PAPAYA_WHIP,
    Entry("PEACH_PUFF", PEACH_PUFF,
    Entry("PERU", PERU,
    Entry("PINK", PINK,
    Entry("PLUM", PLUM,
    Entry("POWDER_BLUE", POWDER_BLUE,
    Entry("PURPLE", PURPLE,
    Entry("REBECCA_PURPLE", REBECCA_PURPLE,
    Entry("RED", RED,
    Entry("ROSY_BROWN", ROSY_BROWN,
    Entry("ROYAL_BLUE", ROYAL_BLUE,
    Entry("SADDLE_BROWN", SADDLE_BROWN,
    Entry("SALMON", SALMON,
    Entry("SANDY_BROWN", SANDY_BROWN,
    Entry("SEA_GREEN", SEA_GREEN,
    Entry("SEASHELL", SEASHELL,
    Entry("SIENNA", SIENNA,
    Entry("SILVER", SILVER,
    Entry("SKY_BLUE", SKY_BLUE,
    Entry("SLATE_BLUE", SLATE_BLUE,
    Entry("SLATE_GRAY", SLATE_GRAY,
    Entry("SNOW", SNOW,
    Entry("SPRING_GREEN", SPRING_GREEN,
    Entry("STEEL_BLUE", STEEL_BLUE,
    Entry("TAN", TAN,
    Entry("TEAL", TEAL,
    Entry("THISTLE", THISTLE,
    Entry("TOMATO", TOMATO,
    Entry("TRANSPARENT", TRANSPARENT,
    Entry("TURQUOISE", TURQUOISE,
    Entry("VIOLET", VIOLET,
    Entry("WEB_GRAY", WEB_GRAY,
    Entry("WEB_GREEN", WEB_GREEN,
    Entry("WEB_MAROON", WEB_MAROON,
    Entry("WEB_PURPLE", WEB_PURPLE,
    Entry("WHEAT", WHEAT,
    Entry("WHITE", WHITE,
    Entry("WHITE_SMOKE", WHITE_SMOKE,
    Entry("YELLOW", YELLOW,
    Entry("YELLOW_GREEN", YELLOW_GREEN,
    Nil))))))))))))))))))))))))))))))))))))))))))))))))))))))))))))))))))))))))))))))))))))))))))))))))))))))))))))))))))))))))))))))))))))))))))))))))))

  /** `t` has an entry named `name`. */
  predicate HasName(t: Table, name: string) {
    match t
    case Nil => false
    case Entry(n, _, rest) => n == name || HasName(rest, name)
  }

  /** `t` has an entry named `name` with colour `c`. */
  predicate HasEntry(t: Table, name: string, c: Color) {
    match t
    case Nil => false
    case Entry(n, color, rest) => (n == name && color == c) || HasEntry(rest, name, c)
  }

  /** The colour of the first entry named `name`, or `default`. */
  function Lookup(t: Table, name: string, default: Color): (c: Color)
    ensures !HasName(t, name) ==> c == default
    ensures HasName(t, name) ==> HasEntry(t, name, c)
  {
    match t
    case Nil => default
    case Entry(n, color, rest) => if n == name then color else Lookup(rest, name, default)
  }

  /** `color_name`: the colour of the first case matching `name`, otherwise `default`. */
  function ColorName(name: string, default: Color): (c: Color)
    ensures !HasName(NAMED_COLORS, name) ==> c == default
    ensures HasName(NAMED_COLORS, name) ==> HasEntry(NAMED_COLORS, name, c)
  {
    Lookup(NAMED_COLORS, name, default)
  }

  function ToUpperChar(c: char): (u: char) {
    if 'a' <= c <= 'z' then (c as int - 32) as char else c
  }

  function ToLowerChar(c: char): (l: char) {
    if 'A' <= c <= 'Z' then (c as int + 32) as char else c
  }

  /** The ASCII lower-case form of `s`. */
  function ToLower(s: string): (l: string)
    ensures |l| == |s| && forall i :: 0 <= i < |s| ==> l[i] == ToLowerChar(s[i])
  {
    if |s| == 0 then [] else [ToLowerChar(s[0])] + ToLower(s[1..])
  }

  /** The name normalisation of `named`: spaces become `_`, then letters are upper-cased. */
  function Normalize(s: string): (n: string)
    ensures |n| == |s|
    ensures forall i :: 0 <= i < |s| ==> n[i] == ToUpperChar(if s[i] == ' ' then '_' else s[i])
  {
    if |s| == 0 then [] else [ToUpperChar(if s[0] == ' ' then '_' else s[0])] + Normalize(s[1..])
  }

  /** A normalised name holds no space and no lower-case letter, and normalising it again changes nothing. */
  lemma NormalizeIdempotent(s: string)
    ensures forall i :: 0 <= i < |s| ==> Normalize(s)[i] != ' ' && !('a' <= Normalize(s)[i] <= 'z')
    ensures Normalize(Normalize(s)) == Normalize(s)
  {
  }

  /** Normalisation ignores letter case, so `named` does too. */
  lemma NormalizeIgnoresCase(s: string)
    ensures Normalize(ToLower(s)) == Normalize(s)
  {
  }

  /** `named`: looks the normalised name up, falling back on `default`, or opaque black if none is given. */
  function Named(s: string, default: Option<Color>): (c: Color)
    ensures HasName(NAMED_COLORS, Normalize(s)) ==> HasEntry(NAMED_COLORS, Normalize(s), c)
    ensures !HasName(NAMED_COLORS, Normalize(s)) && default.Some? ==> c == default.value
    ensures !HasName(NAMED_COLORS, Normalize(s)) && default.None? ==> c == DEFAULT
  {
    var fallback := if default.Some? then default.value else DEFAULT;
    ColorName(Normalize(s), fallback)
  }

  lemma NamedIgnoresCase(s: string, default: Option<Color>)
    ensures Named(ToLower(s), default) == Named(s, default)
  {
    NormalizeIgnoresCase(s);
  }

  /** Named lookup of the first case, with no default given. */
  lemma NamedFirstExample()
    ensures Named("alice blue", None) == ALICE_BLUE
  {
    NormalizeAliceBlue("alice blue");
    AliceBlueEntry();
  }

  lemma NormalizeAliceBlue(s: string)
    requires s == "alice blue"
    ensures Normalize(s) == "ALICE_BLUE"
  {
    var n := Normalize(s);
    assert |n| == 10;
    assert n[0] == 'A' && n[1] == 'L' && n[2] == 'I' && n[3] == 'C' && n[4] == 'E';
    assert n[5] == '_';
    assert n[6] == 'B' && n[7] == 'L' && n[8] == 'U' && n[9] == 'E';
  }

  lemma AliceBlueEntry()
    ensures ColorName("ALICE_BLUE", DEFAULT) == ALICE_BLUE
  {
    var t := NAMED_COLORS;
    assert t.name == "ALICE_BLUE" && t.color == ALICE_BLUE;
  }

  /** Named lookup of the third case, with a default given; letter case does not matter. */
  lemma NamedThirdExample()
    ensures Named("Aqua", Some(RED)) == AQUA
  {
    assert Normalize("Aqua") == "AQUA";
    AquaEntry();
  }

  lemma AquaEntry()
    ensures ColorName("AQUA", RED) == AQUA
  {
    var t := NAMED_COLORS;
    assert t.rest.rest.name == "AQUA" && t.rest.rest.color == AQUA;
    assert Lookup(t.rest.rest, "AQUA", RED) == AQUA;
    assert t.rest.name != "AQUA";
    assert Lookup(t.rest, "AQUA", RED) == AQUA;
    assert t.name != "AQUA";
  }

  // ---------------------------------------------------------------------
  // Inversion and the operators.
  // ---------------------------------------------------------------------

  /** `inverted`: red, green and blue become `1 - c`; alpha is kept. */
  function Inverted(c: Color): (r: Color)
    ensures r.a == c.a
    ensures r.r + c.r == 1.0 && r.g + c.g == 1.0 && r.b + c.b == 1.0
  {
    Color(1.0 - c.r, 1.0 - c.g, 1.0 - c.b, c.a)
  }

  /** `-c`: like `inverted`, but alpha is inverted too. */
  function Neg(c: Color): (r: Color)
    ensures r == Inverted(c).(a := 1.0 - c.a)
  {
    Color(1.0 - c.r, 1.0 - c.g, 1.0 - c.b, 1.0 - c.a)
  }

  /** `!c`: holds for opaque black only. */
  predicate Not(c: Color) {
    c.r == 0.0 && c.g == 0.0 && c.b == 0.0 && c.a == 1.0
  }

  /** Both inversions undo themselves; `!` holds exactly on the default colour. */
  lemma InversionFacts(c: Color)
    ensures Inverted(Inverted(c)) == c && Neg(Neg(c)) == c
    ensures Not(c) <==> c == DEFAULT
    ensures DEFAULT == BLACK && Not(Neg(TRANSPARENT))
  {
  }

  /** The fixtures of the source's tests. */
  lemma InversionExamples()
    ensures Inverted(Color(0.0, 0.0, 1.0, 0.4)) == Color(1.0, 1.0, 0.0, 0.4)
    ensures Neg(Color(0.2, 0.2, 1.0, 1.0)) == Color(0.8, 0.8, 0.0, 0.0)
    ensures !Not(WHITE) && Not(BLACK)
  {
  }

  // ---------------------------------------------------------------------
  // 32- and 64-bit packing.
  // ---------------------------------------------------------------------

  const TWO_32: int := 0x1_0000_0000
  const TWO_64: int := 0x1_0000_0000_0000_0000

  type u32 = n: int | 0 <= n < TWO_32
  type u64 = n: int | 0 <= n < TWO_64

  function Pow2(k: nat): (p: nat)
    ensures p >= 1
  {
    if k == 0 then 1 else 2 * Pow2(k - 1)
  }

  /** Bitwise or of two naturals, bit by bit from the least significant. */
  function BitOr(a: nat, b: nat): nat
    decreases a + b
  {
    if a == 0 then b
    else if b == 0 then a
    else 2 * BitOr(a / 2, b / 2) + (if a % 2 == 1 || b % 2 == 1 then 1 else 0)
  }

  /** Or-ing into bits that are zero is addition. */
  lemma {:induction false} BitOrDisjoint(a: nat, b: nat, k: nat)
    requires b < Pow2(k)
    ensures BitOr(a * Pow2(k), b) == a * Pow2(k) + b
  {
    if k == 0 || a == 0 || b == 0 {
    } else {
      var h := a * Pow2(k - 1);
      assert a * Pow2(k) == 2 * h;
      assert (2 * h) / 2 == h && (2 * h) % 2 == 0 && h > 0;
      BitOrDisjoint(a, b / 2, k - 1);
    }
  }

  /** Or keeps values below a power of two below it. */
  lemma {:induction false} BitOrBound(a: nat, b: nat, k: nat)
    requires a < Pow2(k) && b < Pow2(k)
    ensures BitOr(a, b) < Pow2(k)
    decreases k
  {
    if a == 0 || b == 0 {
    } else {
      assert k > 0;
      BitOrBound(a / 2, b / 2, k - 1);
    }
  }

  lemma Pow2Facts()
    ensures Pow2(8) == 0x100 && Pow2(16) == 0x1_0000
    ensures Pow2(32) == TWO_32 && Pow2(64) == TWO_64
  {
    Pow2Of16();
    Pow2Of32();
    Pow2Of64();
  }

  lemma Pow2Of16()
    ensures Pow2(8) == 0x100 && Pow2(16) == 0x1_0000
  {
    assert Pow2(8) == 0x100;
    Pow2Add(8, 8);
  }

  lemma Pow2Of32()
    ensures Pow2(32) == TWO_32
  {
    Pow2Of16();
    Pow2Add(16, 16);
  }

  lemma Pow2Of64()
    ensures Pow2(64) == TWO_64
  {
    Pow2Of32();
    Pow2Add(32, 32);
  }

  lemma {:induction false} Pow2Add(i: nat, j: nat)
    ensures Pow2(i + j) == Pow2(i) * Pow2(j)
  {
    if j > 0 {
      Pow2Add(i, j - 1);
    }
  }

  /** `c <<= n` on a `u32`: the bits shifted past the top are lost. */
  function Shl32(c: u32, n: nat): u32 {
    (c * Pow2(n)) % TWO_32
  }

  function Shl64(c: u64, n: nat): u64 {
    (c * Pow2(n)) % TWO_64
  }

  function Or32(a: u32, b: u32): u32 {
    Pow2Facts();
    BitOrBound(a, b, 32);
    BitOr(a, b)
  }

  function Or64(a: u64, b: u64): u64 {
    Pow2Facts();
    BitOrBound(a, b, 64);
    BitOr(a, b)
  }

  /** The cast `as u32` of a rounded float: saturates at 0 and at `u32::MAX`. */
  function SatU32(n: int): (b: u32)
    ensures 0 <= n < TWO_32 ==> b == n
  {
    if n < 0 then 0 else if n >= TWO_32 then TWO_32 - 1 else n
  }

  /** The cast `as u64` of a rounded float. */
  function SatU64(n: int): (b: u64)
    ensures 0 <= n < TWO_64 ==> b == n
  {
    if n < 0 then 0 else if n >= TWO_64 then TWO_64 - 1 else n
  }

  /** A channel scaled to 0..255, rounded half away from zero and cast. */
  function Channel32(v: real): u32 {
    SatU32(Round(v * 255.0))
  }

  /** A channel scaled to 0..65535, rounded half away from zero and cast. */
  function Channel64(v: real): u64 {
    SatU64(Round(v * 65535.0))
  }

  /** The packing sequence of the `to_*32` functions: shift left by 8, or in the next channel. */
  function Pack32(c0: u32, c1: u32, c2: u32, c3: u32): u32 {
    Or32(Shl32(Or32(Shl32(Or32(Shl32(c0, 8), c1), 8), c2), 8), c3)
  }

  /** The packing sequence of the `to_*64` functions: shift left by 16, or in the next channel. */
  function Pack64(c0: u64, c1: u64, c2: u64, c3: u64): u64 {
    Or64(Shl64(Or64(Shl64(Or64(Shl64(c0, 16), c1), 16), c2), 16), c3)
  }

  /** Packing channels that fit their fields places them side by side. */
  lemma {:induction false} Pack32OfBytes(c0: u32, c1: u32, c2: u32, c3: u32)
    requires c0 < 0x100 && c1 < 0x100 && c2 < 0x100 && c3 < 0x100
    ensures Pack32(c0, c1, c2, c3) == ((c0 * 0x100 + c1) * 0x100 + c2) * 0x100 + c3
  {
    Pow2Facts();
    var x := ShiftOrStep32(c0, c1, 0x100);
    var y := ShiftOrStep32(x, c2, 0x1_0000);
    var z := ShiftOrStep32(y, c3, 0x100_0000);
  }

  /** One shift-and-or step of `Pack32` on a value with room for eight more bits. */
  lemma ShiftOrStep32(c: u32, next: u32, bound: nat) returns (r: u32)
    requires c < bound && bound <= 0x100_0000 && next < 0x100
    ensures r == c * 0x100 + next && r < bound * 0x100
    ensures Or32(Shl32(c, 8), next) == r
  {
    Pow2Facts();
    MulLeInt(c + 1, bound, 0x100);
    assert c * 0x100 < TWO_32;
    assert Shl32(c, 8) == c * 0x100;
    BitOrDisjoint(c, next, 8);
    r := c * 0x100 + next;
  }

  lemma {:induction false} Pack64OfFields(c0: u64, c1: u64, c2: u64, c3: u64)
    requires c0 < 0x1_0000 && c1 < 0x1_0000 && c2 < 0x1_0000 && c3 < 0x1_0000
    ensures Pack64(c0, c1, c2, c3) == ((c0 * 0x1_0000 + c1) * 0x1_0000 + c2) * 0x1_0000 + c3
  {
    Pow2Facts();
    var x := ShiftOrStep64(c0, c1, 0x1_0000);
    var y := ShiftOrStep64(x, c2, 0x1_0000_0000);
    var z := ShiftOrStep64(y, c3, 0x1_0000_0000_0000);
  }

  /** One shift-and-or step of `Pack64` on a value with room for sixteen more bits. */
  lemma ShiftOrStep64(c: u64, next: u64, bound: nat) returns (r: u64)
    requires c < bound && bound <= 0x1_0000_0000_0000 && next < 0x1_0000
    ensures r == c * 0x1_0000 + next && r < bound * 0x1_0000
    ensures Or64(Shl64(c, 16), next) == r
  {
    Pow2Facts();
    MulLeInt(c + 1, bound, 0x1_0000);
    assert c * 0x1_0000 < TWO_64;
    assert Shl64(c, 16) == c * 0x1_0000;
    BitOrDisjoint(c, next, 16);
    r := c * 0x1_0000 + next;
  }

  function ToRgba32(c: Color): u32 {
    Pack32(Channel32(c.r), Channel32(c.g), Channel32(c.b), Channel32(c.a))
  }

  function ToArgb32(c: Color): u32 {
    Pack32(Channel32(c.a), Channel32(c.r), Channel32(c.g), Channel32(c.b))
  }

  function ToAbgr32(c: Color): u32 {
    Pack32(Channel32(c.a), Channel32(c.b), Channel32(c.g), Channel32(c.r))
  }

  function ToRgba64(c: Color): u64 {
    Pack64(Channel64(c.r), Channel64(c.g), Channel64(c.b), Channel64(c.a))
  }

  function ToArgb64(c: Color): u64 {
    Pack64(Channel64(c.a), Channel64(c.r), Channel64(c.g), Channel64(c.b))
  }

  function ToAbgr64(c: Color): u64 {
    Pack64(Channel64(c.a), Channel64(c.b), Channel64(c.g), Channel64(c.r))
  }

  /** `n` over `d`, times `d`, is `n` again. */
  lemma DivMulCancel(n: real, d: real)
    requires d != 0.0
    ensures (n / d) * d == n
  {
  }

  /** The bytes of `h` as `hex` reads them, alpha first: `h & 0xff`, then shifting right by 8. */
  function Bytes(h: u32): (f: (nat, nat, nat, nat))
    ensures f.0 < 0x100 && f.1 < 0x100 && f.2 < 0x100 && f.3 < 0x100
    ensures h == ((f.3 * 0x100 + f.2) * 0x100 + f.1) * 0x100 + f.0
  {
    var a := h % 0x100;
    var h1 := h / 0x100;
    var b := h1 % 0x100;
    var h2 := h1 / 0x100;
    var g := h2 % 0x100;
    var r := h2 / 0x100;
    assert r < 0x100;
    (a, b, g, r)
  }

  /** The 16-bit fields of `h` as `hex64` reads them, alpha first. */
  function Fields(h: u64): (f: (nat, nat, nat, nat))
    ensures f.0 < 0x1_0000 && f.1 < 0x1_0000 && f.2 < 0x1_0000 && f.3 < 0x1_0000
    ensures h == ((f.3 * 0x1_0000 + f.2) * 0x1_0000 + f.1) * 0x1_0000 + f.0
  {
    var a := h % 0x1_0000;
    var h1 := h / 0x1_0000;
    var b := h1 % 0x1_0000;
    var h2 := h1 / 0x1_0000;
    var g := h2 % 0x1_0000;
    var r := h2 / 0x1_0000;
    assert r < 0x1_0000;
    (a, b, g, r)
  }

  /** `hex`: red in the most significant byte, alpha in the least, each over 255. */
  function Hex(h: u32): (c: Color)
    ensures InUnitRange(c)
  {
    var f := Bytes(h);
    Color(f.3 as real / 255.0, f.2 as real / 255.0, f.1 as real / 255.0, f.0 as real / 255.0)
  }

  /** `hex64`: red in the most significant 16 bits, alpha in the least, each over 65535. */
  function Hex64(h: u64): (c: Color)
    ensures InUnitRange(c)
  {
    var f := Fields(h);
    Color(f.3 as real / 65535.0, f.2 as real / 65535.0, f.1 as real / 65535.0, f.0 as real / 65535.0)
  }

  predicate InUnitRange(c: Color) {
    0.0 <= c.r <= 1.0 && 0.0 <= c.g <= 1.0 && 0.0 <= c.b <= 1.0 && 0.0 <= c.a <= 1.0
  }

  /** Rounding an integral value gives it back. */
  lemma RoundOfInt(n: int)
    ensures Round(n as real) == n
  {
  }

  /** A byte read as a channel converts back to the same byte. */
  lemma Channel32OfByte(n: nat)
    requires n < 0x100
    ensures Channel32(n as real / 255.0) == n
  {
    DivMulCancel(n as real, 255.0);
    RoundOfInt(n);
  }

  lemma Channel64OfField(n: nat)
    requires n < 0x1_0000
    ensures Channel64(n as real / 65535.0) == n
  {
    DivMulCancel(n as real, 65535.0);
    RoundOfInt(n);
  }

  /** `to_rgba32` is the inverse of `hex`. */
  lemma {:induction false} Rgba32OfHex(h: u32)
    ensures ToRgba32(Hex(h)) == h
  {
    var f := Bytes(h);
    Channel32OfByte(f.0);
    Channel32OfByte(f.1);
    Channel32OfByte(f.2);
    Channel32OfByte(f.3);
    Pack32OfBytes(f.3, f.2, f.1, f.0);
  }

  /** `to_rgba64` is the inverse of `hex64`. */
  lemma {:induction false} Rgba64OfHex64(h: u64)
    ensures ToRgba64(Hex64(h)) == h
  {
    var f := Fields(h);
    Channel64OfField(f.0);
    Channel64OfField(f.1);
    Channel64OfField(f.2);
    Channel64OfField(f.3);
    Pack64OfFields(f.3, f.2, f.1, f.0);
  }

  /**
   * `to_argb32` on `hex(h)` moves the alpha byte to the top (a rotation
   * right by 8 bits); `to_abgr32` reverses the byte order.
   */
  lemma OtherOrders32OfHex(h: u32)
    ensures ToArgb32(Hex(h)) == (h % 0x100) * 0x100_0000 + h / 0x100
    ensures var f := Bytes(h);
      ToAbgr32(Hex(h)) == ((f.0 * 0x100 + f.1) * 0x100 + f.2) * 0x100 + f.3
  {
    Argb32OfHex(h);
    Abgr32OfHex(h);
  }

  lemma {:induction false} Argb32OfHex(h: u32)
    ensures ToArgb32(Hex(h)) == (h % 0x100) * 0x100_0000 + h / 0x100
  {
    var f := Bytes(h);
    var c := Hex(h);
    Channel32OfByte(f.0);
    Channel32OfByte(f.1);
    Channel32OfByte(f.2);
    Channel32OfByte(f.3);
    assert Channel32(c.a) == f.0 && Channel32(c.r) == f.3 && Channel32(c.g) == f.2 && Channel32(c.b) == f.1;
    Pack32OfBytes(f.0, f.3, f.2, f.1);
    assert ToArgb32(c) == ((f.0 * 0x100 + f.3) * 0x100 + f.2) * 0x100 + f.1;
    var rest := (f.3 * 0x100 + f.2) * 0x100 + f.1;
    assert h == rest * 0x100 + f.0;
    DivModOf(h, 0x100);
    DigitsUnique(h, h % 0x100, h / 0x100, f.0, rest, 0x100);
    assert h % 0x100 == f.0 && h / 0x100 == rest;
  }

  lemma {:induction false} Abgr32OfHex(h: u32)
    ensures var f := Bytes(h);
      ToAbgr32(Hex(h)) == ((f.0 * 0x100 + f.1) * 0x100 + f.2) * 0x100 + f.3
  {
    var f := Bytes(h);
    Channel32OfByte(f.0);
    Channel32OfByte(f.1);
    Channel32OfByte(f.2);
    Channel32OfByte(f.3);
    Pack32OfBytes(f.0, f.1, f.2, f.3);
  }

  /** The same for the 64-bit packings: `to_argb64` rotates right by 16 bits, `to_abgr64` reverses the fields. */
  lemma OtherOrders64OfHex64(h: u64)
    ensures ToArgb64(Hex64(h)) == (h % 0x1_0000) * 0x1_0000_0000_0000 + h / 0x1_0000
    ensures var f := Fields(h);
      ToAbgr64(Hex64(h)) == ((f.0 * 0x1_0000 + f.1) * 0x1_0000 + f.2) * 0x1_0000 + f.3
  {
    Argb64OfHex64(h);
    Abgr64OfHex64(h);
  }

  lemma {:induction false} Argb64OfHex64(h: u64)
    ensures ToArgb64(Hex64(h)) == (h % 0x1_0000) * 0x1_0000_0000_0000 + h / 0x1_0000
  {
    var f := Fields(h);
    var c := Hex64(h);
    Channel64OfField(f.0);
    Channel64OfField(f.1);
    Channel64OfField(f.2);
    Channel64OfField(f.3);
    assert Channel64(c.a) == f.0 && Channel64(c.r) == f.3 && Channel64(c.g) == f.2 && Channel64(c.b) == f.1;
    Pack64OfFields(f.0, f.3, f.2, f.1);
    assert ToArgb64(c) == ((f.0 * 0x1_0000 + f.3) * 0x1_0000 + f.2) * 0x1_0000 + f.1;
    var rest := (f.3 * 0x1_0000 + f.2) * 0x1_0000 + f.1;
    assert h == rest * 0x1_0000 + f.0;
    DivModOf(h, 0x1_0000);
    DigitsUnique(h, h % 0x1_0000, h / 0x1_0000, f.0, rest, 0x1_0000);
    assert h % 0x1_0000 == f.0 && h / 0x1_0000 == rest;
  }

  lemma {:induction false} Abgr64OfHex64(h: u64)
    ensures var f := Fields(h);
      ToAbgr64(Hex64(h)) == ((f.0 * 0x1_0000 + f.1) * 0x1_0000 + f.2) * 0x1_0000 + f.3
  {
    var f := Fields(h);
    Channel64OfField(f.0);
    Channel64OfField(f.1);
    Channel64OfField(f.2);
    Channel64OfField(f.3);
    Pack64OfFields(f.0, f.1, f.2, f.3);
  }

  /** A channel in 0..1 rounds to a byte. */
  lemma Channel32Byte(v: real)
    requires 0.0 <= v <= 1.0
    ensures Channel32(v) == Round(v * 255.0) && Channel32(v) < 0x100
  {
    MulLeRight(0.0, v, 255.0);
    MulLeRight(v, 1.0, 255.0);
  }

  /** A byte that is the rounding of `v * 255` reads back within half a step of `v`. */
  lemma ChannelNear(v: real)
    requires 0.0 <= v <= 1.0
    ensures Utils.Abs(Channel32(v) as real / 255.0 - v) <= 0.5 / 255.0
  {
    Channel32Byte(v);
    var n := Round(v * 255.0);
    DivDistrib(n as real - v * 255.0, 0.0, 255.0);
    assert (n as real - v * 255.0) / 255.0 == n as real / 255.0 - v;
  }

  /**
   * In the other direction, `hex(to_rgba32(c))` moves each channel of a
   * colour in 0..1 by at most half a step of 1/255.
   */
  lemma {:induction false} HexOfRgba32(c: Color)
    requires InUnitRange(c)
    ensures Utils.Abs(Hex(ToRgba32(c)).r - c.r) <= 0.5 / 255.0
    ensures Utils.Abs(Hex(ToRgba32(c)).g - c.g) <= 0.5 / 255.0
    ensures Utils.Abs(Hex(ToRgba32(c)).b - c.b) <= 0.5 / 255.0
    ensures Utils.Abs(Hex(ToRgba32(c)).a - c.a) <= 0.5 / 255.0
  {
    Channel32Byte(c.r);
    Channel32Byte(c.g);
    Channel32Byte(c.b);
    Channel32Byte(c.a);
    var p := ToRgba32(c);
    Pack32OfBytes(Channel32(c.r), Channel32(c.g), Channel32(c.b), Channel32(c.a));
    BytesUnique(p, Channel32(c.a), Channel32(c.b), Channel32(c.g), Channel32(c.r));
    ChannelNear(c.r);
    ChannelNear(c.g);
    ChannelNear(c.b);
    ChannelNear(c.a);
  }

  /** The bytes of a value are unique. */
  lemma {:induction false} BytesUnique(h: u32, a: nat, b: nat, g: nat, r: nat)
    requires a < 0x100 && b < 0x100 && g < 0x100 && r < 0x100
    requires h == ((r * 0x100 + g) * 0x100 + b) * 0x100 + a
    ensures Bytes(h) == (a, b, g, r)
  {
    var f := Bytes(h);
    DigitsUnique(h, f.0, (f.3 * 0x100 + f.2) * 0x100 + f.1, a, (r * 0x100 + g) * 0x100 + b, 0x100);
    DigitsUnique((r * 0x100 + g) * 0x100 + b, f.1, f.3 * 0x100 + f.2, b, r * 0x100 + g, 0x100);
    DigitsUnique(r * 0x100 + g, f.2, f.3, g, r, 0x100);
  }

  /** Euclidean division splits `n` into quotient and remainder. */
  lemma DivModOf(n: int, base: int)
    requires base > 0
    ensures n == (n / base) * base + n % base && 0 <= n % base < base
  {
  }

  lemma DigitsUnique(n: int, d0: int, q0: int, d1: int, q1: int, base: int)
    requires base > 0 && 0 <= d0 < base && 0 <= d1 < base
    requires n == q0 * base + d0 && n == q1 * base + d1
    ensures d0 == d1 && q0 == q1
  {
    if q0 < q1 {
      MulLeInt(q0 + 1, q1, base);
    } else if q1 < q0 {
      MulLeInt(q1 + 1, q0, base);
    }
  }

  lemma MulLeInt(a: int, b: int, c: int)
    requires a <= b && c >= 0
    ensures a * c <= b * c
  {
  }

  /** The fixtures of the source's tests on cyan and on the blue `#4060ff80`. */
  lemma PackingExamples()
    ensures ToArgb32(CYAN) == 0xff00ffff && ToAbgr32(CYAN) == 0xffffff00
    ensures ToRgba32(Color(0.0, 1.0, 1.0, 1.0)) == 0x00ffffff
    ensures ToArgb64(CYAN) == 0xffff_0000_ffff_ffff && ToAbgr64(CYAN) == 0xffff_ffff_ffff_0000
    ensures ToRgba64(Color(0.0, 1.0, 1.0, 1.0)) == 0x0000_ffff_ffff_ffff
  {
    assert CYAN == Color(0.0, 1.0, 1.0, 1.0);
    Packing32Examples(CYAN);
    Packing64Examples(CYAN);
  }

  lemma Packing32Examples(c: Color)
    requires c == Color(0.0, 1.0, 1.0, 1.0)
    ensures ToArgb32(c) == 0xff00ffff && ToAbgr32(c) == 0xffffff00 && ToRgba32(c) == 0x00ffffff
  {
    Channel32OfByte(0);
    Channel32OfByte(0xff);
    assert Channel32(c.r) == 0 && Channel32(c.g) == 0xff && Channel32(c.b) == 0xff && Channel32(c.a) == 0xff;
    Pack32OfBytes(0xff, 0, 0xff, 0xff);
    Pack32OfBytes(0xff, 0xff, 0xff, 0);
    Pack32OfBytes(0, 0xff, 0xff, 0xff);
  }

  lemma Packing64Examples(c: Color)
    requires c == Color(0.0, 1.0, 1.0, 1.0)
    ensures ToArgb64(c) == 0xffff_0000_ffff_ffff && ToAbgr64(c) == 0xffff_ffff_ffff_0000
    ensures ToRgba64(c) == 0x0000_ffff_ffff_ffff
  {
    Channel64OfField(0);
    Channel64OfField(0xffff);
    assert Channel64(c.r) == 0 && Channel64(c.g) == 0xffff && Channel64(c.b) == 0xffff && Channel64(c.a) == 0xffff;
    Pack64OfFields(0xffff, 0, 0xffff, 0xffff);
    Pack64OfFields(0xffff, 0xffff, 0xffff, 0);
    Pack64OfFields(0, 0xffff, 0xffff, 0xffff);
  }

  /** `hex(0x4060ff80)` and `hex64(0x4040_6060_ffff_8080)` are the same colour. */
  lemma HexExamples()
    ensures Hex(0x4060ff80) == Color(64.0 / 255.0, 96.0 / 255.0, 1.0, 128.0 / 255.0)
    ensures Hex64(0x4040_6060_ffff_8080) == Hex(0x4060ff80)
  {
    HexExample();
    Hex64Example();
  }

  lemma HexExample()
    ensures Hex(0x4060ff80) == Color(64.0 / 255.0, 96.0 / 255.0, 1.0, 128.0 / 255.0)
  {
    BytesUnique(0x4060ff80, 0x80, 0xff, 0x60, 0x40);
  }

  /** Each 16-bit field 0xNNNN is the byte 0xNN times 257, so the colour matches the 32-bit one. */
  lemma Hex64Example()
    ensures Hex64(0x4040_6060_ffff_8080) == Color(64.0 / 255.0, 96.0 / 255.0, 1.0, 128.0 / 255.0)
  {
    assert Fields(0x4040_6060_ffff_8080) == (0x8080, 0xffff, 0x6060, 0x4040);
  }

  // ---------------------------------------------------------------------
  // HTML hex strings.
  // ---------------------------------------------------------------------

  predicate IsHexDigit(c: char) {
    '0' <= c <= '9' || 'a' <= c <= 'f' || 'A' <= c <= 'F'
  }

  function DigitValue(c: char): (n: nat)
    requires IsHexDigit(c)
    ensures n < 16
  {
    if '0' <= c <= '9' then c as int - '0' as int
    else if 'a' <= c <= 'f' then c as int - 'a' as int + 10
    else c as int - 'A' as int + 10
  }

  predicate AllHexDigits(s: string) {
    forall i :: 0 <= i < |s| ==> IsHexDigit(s[i])
  }

  /** The value of hex digits, most significant first. */
  function HexValue(s: string): (n: nat)
    requires AllHexDigits(s)
  {
    if |s| == 0 then 0 else 16 * HexValue(s[..|s| - 1]) + DigitValue(s[|s| - 1])
  }

  /**
   * `i32::from_str_radix(s, 16)`: an optional `+` or `-` followed by at
   * least one hex digit.
   */
  function FromStrRadix16(s: string): (r: Option<int>)
    ensures |s| > 0 && AllHexDigits(s) ==> r == Some(HexValue(s))
    ensures r.Some? ==> |s| > 0
    ensures |s| > 0 && !IsHexDigit(s[0]) && s[0] != '+' && s[0] != '-' ==> r == None
  {
    if |s| == 0 then None
    else
      var digits := if s[0] == '+' || s[0] == '-' then s[1..] else s;
      if |digits| == 0 || !AllHexDigits(digits) then None
      else if s[0] == '-' then Some(0 - HexValue(digits))
      else Some(HexValue(digits))
  }

  /** One leading `#` is dropped. */
  function StripHash(s: string): (t: string)
    ensures |s| > 0 && s[0] == '#' ==> s == "#" + t
    ensures |s| == 0 || s[0] != '#' ==> t == s
  {
    if |s| > 0 && s[0] == '#' then s[1..] else s
  }

  predicate ValidLength(n: nat) {
    n == 3 || n == 4 || n == 6 || n == 8
  }

  /** What `html_is_valid` accepts, stated declaratively. */
  predicate ValidHtml(s: string) {
    |s| > 0 && ValidLength(|StripHash(s)|) && AllHexDigits(StripHash(s))
  }

  /** `html_is_valid`: the source's scan, with an early `false` at the first non-hex character. */
  method HtmlIsValid(s: string) returns (valid: bool)
    ensures valid <==> |s| > 0 && ValidLength(|StripHash(s)|) && forall i :: 0 <= i < |StripHash(s)| ==> IsHexDigit(StripHash(s)[i])
  {
    if |s| == 0 {
      return false;
    }
    var color := StripHash(s);
    var len := |color|;
    if !(len == 3 || len == 4 || len == 6 || len == 8) {
      return false;
    }
    var i := 0;
    while i < len
      invariant 0 <= i <= len
      invariant forall j :: 0 <= j < i ==> IsHexDigit(color[j])
    {
      if !IsHexDigit(color[i]) {
        return false;
      }
      i := i + 1;
    }
    return true;
  }

  /**
   * `html`: one hex digit per channel over 15 for 3 or 4 digits, two per
   * channel over 255 for 6 or 8; a missing alpha is opaque.  Any other
   * length, or a field `from_str_radix` rejects, gives the default colour.
   */
  function Html(s: string): (c: Color)
    ensures !ValidLength(|StripHash(s)|) ==> c == DEFAULT
  {
    if |s| == 0 then DEFAULT
    else
      var t := StripHash(s);
      if !ValidLength(|t|) then DEFAULT
      else
        var shorthand := |t| < 5;
        var alpha := |t| == 8 || |t| == 4;
        var w := if shorthand then 1 else 2;
        var r := FromStrRadix16(t[0..w]);
        var g := FromStrRadix16(t[w..2 * w]);
        var b := FromStrRadix16(t[2 * w..3 * w]);
        var a := if alpha then FromStrRadix16(t[3 * w..4 * w]) else Some(if shorthand then 15 else 255);
        if r.Some? && g.Some? && b.Some? && a.Some? then
          var d := if shorthand then 15.0 else 255.0;
          Color(r.value as real / d, g.value as real / d, b.value as real / d, a.value as real / d)
        else
          DEFAULT
  }

  /** The value of two hex digits. */
  function Byte(c0: char, c1: char): (n: nat)
    requires IsHexDigit(c0) && IsHexDigit(c1)
    ensures n < 256
  {
    16 * DigitValue(c0) + DigitValue(c1)
  }

  /** On a valid string, `html` reads each channel from its digits as the documentation describes. */
  lemma HtmlDecodes(s: string)
    requires ValidHtml(s)
    ensures var t := StripHash(s);
      |t| == 3 ==> Html(s) == Color(DigitValue(t[0]) as real / 15.0, DigitValue(t[1]) as real / 15.0,
                                    DigitValue(t[2]) as real / 15.0, 1.0)
    ensures var t := StripHash(s);
      |t| == 4 ==> Html(s) == Color(DigitValue(t[0]) as real / 15.0, DigitValue(t[1]) as real / 15.0,
                                    DigitValue(t[2]) as real / 15.0, DigitValue(t[3]) as real / 15.0)
    ensures var t := StripHash(s);
      |t| == 6 ==> Html(s) == Color(Byte(t[0], t[1]) as real / 255.0, Byte(t[2], t[3]) as real / 255.0,
                                    Byte(t[4], t[5]) as real / 255.0, 1.0)
    ensures var t := StripHash(s);
      |t| == 8 ==> Html(s) == Color(Byte(t[0], t[1]) as real / 255.0, Byte(t[2], t[3]) as real / 255.0,
                                    Byte(t[4], t[5]) as real / 255.0, Byte(t[6], t[7]) as real / 255.0)
  {
    var t := StripHash(s);
    if |t| == 3 {
      HtmlDecodes3(s, t);
    } else if |t| == 4 {
      HtmlDecodes4(s, t);
    } else if |t| == 6 {
      HtmlDecodes6(s, t);
    } else if |t| == 8 {
      HtmlDecodes8(s, t);
    }
  }

  lemma HtmlDecodes3(s: string, t: string)
    requires ValidHtml(s) && t == StripHash(s) && |t| == 3
    ensures Html(s) == Color(DigitValue(t[0]) as real / 15.0, DigitValue(t[1]) as real / 15.0,
                             DigitValue(t[2]) as real / 15.0, 1.0)
  {
    DigitAt(t, 0);
    DigitAt(t, 1);
    DigitAt(t, 2);
  }

  lemma HtmlDecodes4(s: string, t: string)
    requires ValidHtml(s) && t == StripHash(s) && |t| == 4
    ensures Html(s) == Color(DigitValue(t[0]) as real / 15.0, DigitValue(t[1]) as real / 15.0,
                             DigitValue(t[2]) as real / 15.0, DigitValue(t[3]) as real / 15.0)
  {
    DigitAt(t, 0);
    DigitAt(t, 1);
    DigitAt(t, 2);
    DigitAt(t, 3);
  }

  lemma HtmlDecodes6(s: string, t: string)
    requires ValidHtml(s) && t == StripHash(s) && |t| == 6
    ensures Html(s) == Color(Byte(t[0], t[1]) as real / 255.0, Byte(t[2], t[3]) as real / 255.0,
                             Byte(t[4], t[5]) as real / 255.0, 1.0)
  {
    ByteAt(t, 0);
    ByteAt(t, 2);
    ByteAt(t, 4);
  }

  lemma HtmlDecodes8(s: string, t: string)
    requires ValidHtml(s) && t == StripHash(s) && |t| == 8
    ensures Html(s) == Color(Byte(t[0], t[1]) as real / 255.0, Byte(t[2], t[3]) as real / 255.0,
                             Byte(t[4], t[5]) as real / 255.0, Byte(t[6], t[7]) as real / 255.0)
  {
    ByteAt(t, 0);
    ByteAt(t, 2);
    ByteAt(t, 4);
    ByteAt(t, 6);
  }

  /** One hex digit parses to its value. */
  lemma DigitAt(t: string, i: nat)
    requires AllHexDigits(t) && i < |t|
    ensures AllHexDigits(t[i..i + 1]) && FromStrRadix16(t[i..i + 1]) == Some(DigitValue(t[i]))
  {
    var u := t[i..i + 1];
    assert u == [t[i]];
    assert AllHexDigits(u);
    assert u[..0] == [];
    assert HexValue(u) == 16 * HexValue([]) + DigitValue(t[i]);
  }

  /** Two hex digits parse to the byte they spell. */
  lemma ByteAt(t: string, i: nat)
    requires AllHexDigits(t) && i + 1 < |t|
    ensures AllHexDigits(t[i..i + 2]) && FromStrRadix16(t[i..i + 2]) == Some(Byte(t[i], t[i + 1]))
  {
    var u := t[i..i + 2];
    assert u == [t[i], t[i + 1]];
    assert AllHexDigits(u);
    assert u[..1] == [t[i]] && [t[i]][..0] == [];
    assert HexValue([t[i]]) == DigitValue(t[i]);
    assert HexValue(u) == 16 * HexValue([t[i]]) + DigitValue(t[i + 1]);
  }

  /** The fixtures of the source's tests. */
  lemma HtmlExamples()
    ensures Html("#4060ff80") == Hex(0x4060ff80)
    ensures Html("invalid") == DEFAULT && Html("") == DEFAULT
    ensures Html("#f80") == Color(1.0, 8.0 / 15.0, 0.0, 1.0)
  {
    HtmlLongExample("#4060ff80");
    HtmlInvalidExample("invalid");
    HtmlShortExample("#f80");
  }

  lemma HtmlLongExample(s: string)
    requires s == "#4060ff80"
    ensures Html(s) == Hex(0x4060ff80)
  {
    HtmlDecodes(s);
    assert StripHash(s) == "4060ff80";
  }

  lemma HtmlInvalidExample(s: string)
    requires s == "invalid"
    ensures Html(s) == DEFAULT && Html("") == DEFAULT
  {
    assert StripHash(s) == s;
  }

  lemma HtmlShortExample(s: string)
    requires s == "#f80"
    ensures Html(s) == Color(1.0, 8.0 / 15.0, 0.0, 1.0)
  {
    HtmlDecodes(s);
    assert StripHash(s) == "f80";
  }

  /** `html_is_valid` on the fixtures of the source's tests. */
  method HtmlIsValidExamples()
  {
    var a := HtmlIsValid("#4080ff");
    var b := HtmlIsValid("4080ff");
    var c := HtmlIsValid("12345");
    var d := HtmlIsValid("#fuf");
    assert StripHash("#4080ff") == "4080ff" && StripHash("#fuf") == "fuf";
    assert a && b && !c;
    assert !IsHexDigit("fuf"[1]);
    assert !d;
  }

  /** The cast `as u8` of a rounded float. */
  function SatU8(n: int): (b: nat)
    ensures b <= 255 && (0 <= n <= 255 ==> b == n)
  {
    if n < 0 then 0 else if n > 255 then 255 else n
  }

  /** The lower-case hex digit of `n`. */
  function HexChar(n: nat): (c: char)
    requires n < 16
    ensures IsHexDigit(c) && DigitValue(c) == n && !('A' <= c <= 'Z')
  {
    if n < 10 then ('0' as int + n) as char else ('a' as int + n - 10) as char
  }

  /** `{:0>2x}`: two lower-case hex digits. */
  function ByteToHex(n: nat): (s: string)
    requires n < 256
    ensures |s| == 2 && AllHexDigits(s) && Byte(s[0], s[1]) == n
  {
    [HexChar(n / 16), HexChar(n % 16)]
  }

  /** A channel scaled to 0..255, rounded and cast to `u8`. */
  function Channel8(v: real): (n: nat)
    ensures n < 256
  {
    SatU8(Round(v * 255.0))
  }

  /** `to_html`: eight lower-case hex digits, alpha last, without `#`. */
  function ToHtml(c: Color): (s: string)
    ensures |s| == 8 && ValidHtml(s)
  {
    ByteToHex(Channel8(c.r)) + ByteToHex(Channel8(c.g)) + ByteToHex(Channel8(c.b)) + ByteToHex(Channel8(c.a))
  }

  /** `html` reads back exactly the bytes `to_html` wrote. */
  lemma {:induction false} HtmlOfToHtml(c: Color)
    ensures Html(ToHtml(c)) == Color(Channel8(c.r) as real / 255.0, Channel8(c.g) as real / 255.0,
                                     Channel8(c.b) as real / 255.0, Channel8(c.a) as real / 255.0)
  {
    var s := ToHtml(c);
    assert StripHash(s) == s;
    HtmlDecodes(s);
  }

  /** Hence `html(to_html(hex(h))) == hex(h)`. */
  lemma {:induction false} HtmlOfToHtmlOfHex(h: u32)
    ensures Html(ToHtml(Hex(h))) == Hex(h)
  {
    HtmlOfToHtml(Hex(h));
    var f := Bytes(h);
    Channel8OfByte(f.0);
    Channel8OfByte(f.1);
    Channel8OfByte(f.2);
    Channel8OfByte(f.3);
  }

  lemma Channel8OfByte(n: nat)
    requires n < 0x100
    ensures Channel8(n as real / 255.0) == n
  {
    DivMulCancel(n as real, 255.0);
    RoundOfInt(n);
  }

  /** The fixtures of the source's tests. */
  lemma ToHtmlExamples()
    ensures ToHtml(Color(0.0, 1.0, 1.0, 1.0)) == "00ffffff"
    ensures ToHtml(Color(0.0, 1.0, 1.0, 0.0)) == "00ffff00"
  {
    RoundOfInt(255);
    RoundOfInt(0);
  }

  // ---------------------------------------------------------------------
  // Strings to colours.
  // ---------------------------------------------------------------------

  /** `from_string`: `html` exactly when `html_is_valid`, otherwise `named` with the given default. */
  function FromString(s: string, default: Color): (c: Color)
    ensures ValidHtml(s) ==> var t := StripHash(s);
      |t| == 3 ==> c == Color(DigitValue(t[0]) as real / 15.0, DigitValue(t[1]) as real / 15.0,
                              DigitValue(t[2]) as real / 15.0, 1.0)
    ensures ValidHtml(s) ==> var t := StripHash(s);
      |t| == 4 ==> c == Color(DigitValue(t[0]) as real / 15.0, DigitValue(t[1]) as real / 15.0,
                              DigitValue(t[2]) as real / 15.0, DigitValue(t[3]) as real / 15.0)
    ensures ValidHtml(s) ==> var t := StripHash(s);
      |t| == 6 ==> c == Color(Byte(t[0], t[1]) as real / 255.0, Byte(t[2], t[3]) as real / 255.0,
                              Byte(t[4], t[5]) as real / 255.0, 1.0)
    ensures ValidHtml(s) ==> var t := StripHash(s);
      |t| == 8 ==> c == Color(Byte(t[0], t[1]) as real / 255.0, Byte(t[2], t[3]) as real / 255.0,
                              Byte(t[4], t[5]) as real / 255.0, Byte(t[6], t[7]) as real / 255.0)
    ensures !ValidHtml(s) && HasName(NAMED_COLORS, Normalize(s)) ==> HasEntry(NAMED_COLORS, Normalize(s), c)
    ensures !ValidHtml(s) && !HasName(NAMED_COLORS, Normalize(s)) ==> c == default
  {
    if ValidHtml(s) then
      HtmlDecodes(s);
      Html(s)
    else
      Named(s, Some(default))
  }

  lemma FromStringExamples()
    ensures FromString("#f80", RED) == Color(1.0, 8.0 / 15.0, 0.0, 1.0)
    ensures FromString("Aqua", RED) == AQUA
  {
    assert FromString("#f80", RED) == Color(1.0, 8.0 / 15.0, 0.0, 1.0) by {
      HtmlExamples();
    }
    assert StripHash("Aqua") == "Aqua" && !IsHexDigit("Aqua"[1]);
    NamedThirdExample();
  }
}
