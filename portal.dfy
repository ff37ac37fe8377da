/** The portal screen (components/Portal.tsx): the theme of each star picks a colour class and
    an animation class, and the catalogue is split into the star at the centre (`polaris`) and
    the stars that orbit it. The orbit's trigonometry and the rendering are not modelled. */
module Portal {
  import opened Wrappers
  import opened Types

  const CentreId := "polaris"

  const SpinAndPulse := "animate-spin-and-pulse"
  const Twinkle := "animate-twinkle"
  const SoftPulse := "animate-soft-pulse"

  /** Lines 20-29: the animation class of a theme. */
  function AnimationClass(theme: Theme): (c: string)
    ensures c == SpinAndPulse <==> theme == Andromeda
    ensures c == Twinkle <==> theme in {Sirius, Orion, Polaris}
    ensures c == SoftPulse <==> theme in {Pleiaden, Arcturus, Lyra, ZetaReticuli}
  {
    match theme
    case Andromeda => SpinAndPulse
    case Sirius | Orion | Polaris => Twinkle
    case _ => SoftPulse
  }

  /** One entry of the theme table: the colour class of the star's glow. */
  datatype ThemeStyle = ThemeStyle(className: string)

  /** Lines 9-18: the theme table. */
  const Themes: map<Theme, ThemeStyle> := map[
    Pleiaden := ThemeStyle("text-blue-300"),
    Arcturus := ThemeStyle("text-orange-300"),
    Sirius := ThemeStyle("text-cyan-200"),
    Lyra := ThemeStyle("text-purple-300"),
    Andromeda := ThemeStyle("text-indigo-200"),
    Orion := ThemeStyle("text-indigo-200"),
    ZetaReticuli := ThemeStyle("text-teal-200"),
    Polaris := ThemeStyle("text-yellow-100")]

  /** The table is total: every theme a star can carry has a colour class, so the lookups of
      lines 86 and 136 never meet a missing entry. */
  lemma ThemesTotal(theme: Theme)
    ensures theme in Themes && Themes[theme].className != ""
  {
    match theme
    case Pleiaden =>
    case Arcturus =>
    case Sirius =>
    case Lyra =>
    case Andromeda =>
    case Orion =>
    case ZetaReticuli =>
    case Polaris =>
  }

  /** Line 40: `portals.find(p => p.id === 'polaris')`. */
  function PolarisPortal(portals: seq<StarSystem>): (r: Option<StarSystem>)
    ensures r.Some? ==> r.value in portals && r.value.id == CentreId
  {
    if portals == [] then None
    else if portals[0].id == CentreId then Some(portals[0])
    else PolarisPortal(portals[1..])
  }

  /** Line 41: `portals.filter(p => p.id !== 'polaris')`. */
  function OrbitingPortals(portals: seq<StarSystem>): (r: seq<StarSystem>)
    ensures |r| <= |portals|
  {
    if portals == [] then []
    else if portals[0].id == CentreId then OrbitingPortals(portals[1..])
    else [portals[0]] + OrbitingPortals(portals[1..])
  }

  /** Line 42. */
  function NumSystems(portals: seq<StarSystem>): nat {
    |OrbitingPortals(portals)|
  }

  /** How many portals carry the centre's id. */
  function CentreCount(portals: seq<StarSystem>): nat {
    if portals == [] then 0
    else (if portals[0].id == CentreId then 1 else 0) + CentreCount(portals[1..])
  }

  /** The centre star is the first portal with the centre's id. */
  lemma {:induction false} PolarisPortalIsFirst(portals: seq<StarSystem>, i: nat)
    requires i < |portals| && portals[i].id == CentreId
    requires forall j | 0 <= j < i :: portals[j].id != CentreId
    ensures PolarisPortal(portals) == Some(portals[i])
  {
    if i > 0 {
      assert portals[0].id != CentreId;
      forall j | 0 <= j < i - 1 ensures portals[1..][j].id != CentreId {
        assert portals[1..][j] == portals[j + 1];
      }
      PolarisPortalIsFirst(portals[1..], i - 1);
    }
  }

  /** No centre star is drawn (line 123) exactly when no portal has the centre's id. */
  lemma {:induction false} PolarisPortalAbsent(portals: seq<StarSystem>)
    ensures PolarisPortal(portals).None? <==> forall i | 0 <= i < |portals| :: portals[i].id != CentreId
  {
    if portals != [] {
      PolarisPortalAbsent(portals[1..]);
      if portals[0].id != CentreId {
        forall i | 0 <= i < |portals[1..]| ensures portals[1..][i] == portals[i + 1] { }
        assert forall i | 1 <= i < |portals| :: portals[i] == portals[1..][i - 1];
      }
    }
  }

  /** The filter distributes over concatenation, so it keeps the order of the catalogue. */
  lemma {:induction false} OrbitingPortalsAppend(a: seq<StarSystem>, b: seq<StarSystem>)
    ensures OrbitingPortals(a + b) == OrbitingPortals(a) + OrbitingPortals(b)
  {
    if a == [] {
      assert a + b == b;
    } else {
      assert (a + b)[0] == a[0] && (a + b)[1..] == a[1..] + b;
      OrbitingPortalsAppend(a[1..], b);
    }
  }

  /** The orbiting stars are exactly the portals whose id is not the centre's. */
  lemma {:induction false} OrbitingPortalsMembers(portals: seq<StarSystem>, star: StarSystem)
    ensures star in OrbitingPortals(portals) <==> star in portals && star.id != CentreId
  {
    if portals != [] {
      OrbitingPortalsMembers(portals[1..], star);
      assert portals == [portals[0]] + portals[1..];
    }
  }

  /** The orbit holds every portal except the centre ones: `numSystems` plus the number of
      portals with the centre's id is the catalogue's size. */
  lemma {:induction false} NumSystemsCount(portals: seq<StarSystem>)
    ensures NumSystems(portals) + CentreCount(portals) == |portals|
  {
    if portals != [] {
      NumSystemsCount(portals[1..]);
    }
  }

  /** A centre star is drawn exactly when the catalogue holds a portal with the centre's id. */
  lemma {:induction false} PolarisPortalIffCounted(portals: seq<StarSystem>)
    ensures PolarisPortal(portals).Some? <==> CentreCount(portals) > 0
  {
    if portals != [] {
      PolarisPortalIffCounted(portals[1..]);
    }
  }
}
