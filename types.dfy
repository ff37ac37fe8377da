/** The shapes of types.ts the modelled components share. */
module Types {
  import opened Wrappers

  /** The theme names a star system may carry (`ThemeName`). */
  datatype Theme = Pleiaden | Arcturus | Sirius | Lyra | Andromeda | Orion | ZetaReticuli | Polaris

  /** The string each theme is written as in the source. */
  function ThemeName(t: Theme): string {
    match t
    case Pleiaden => "pleiaden"
    case Arcturus => "arcturus"
    case Sirius => "sirius"
    case Lyra => "lyra"
    case Andromeda => "andromeda"
    case Orion => "orion"
    case ZetaReticuli => "zeta-reticuli"
    case Polaris => "polaris"
  }

  /** One entry of the star catalogue; `images` and `video` are the optional fields. */
  datatype StarSystem = StarSystem(
    id: string,
    displayName: string,  // `label` in the source (a reserved word in Dafny)
    theme: Theme,
    lore: string,
    details: string,
    image: string,
    images: Option<seq<string>>,
    video: Option<string>)

  /** Which modal tool is open (`ActiveChamber`). */
  datatype ActiveChamber = NoChamber | VisionWeaverChamber | CelestialForgeChamber | StellarAnimatorChamber
}
