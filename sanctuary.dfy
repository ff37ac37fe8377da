/** The signed-in view (components/Sanctuary.tsx): the fixed star catalogue, the per-user table
    of linked images kept in the browser's local storage, and the handlers that open and close
    the chambers and link a generated image to a star. Local storage is modelled as a table
    from storage key to the already-parsed image table; JSON text is not modelled. */
module Sanctuary {
  import opened Wrappers
  import opened Types
  import Text

  function Star(id: string, displayName: string, theme: Theme, lore: string, details: string,
                image: string): StarSystem
  {
    StarSystem(id, displayName, theme, lore, details, image, None, None)
  }

  /** Lines 11-68: the catalogue every user starts from. */
  const InitialPortals: seq<StarSystem> := [
    Star("polaris", "Polaris", Polaris,
      "The Still Point of the Turning Cosmos",
      "Polaris, the North Star, serves as a celestial anchor. Its frequency is one of unwavering guidance, stability, and purpose. It is the constant in a universe of flux, a beacon for lost souls and a reminder of the unshakable core of one's being. Meditating on Polaris helps to find one's true north and navigate life's complexities with clarity.",
      "https://storage.googleapis.com/generative-ai-story/space/polaris.jpeg"),
    Star("sirius", "Sirius", Sirius,
      "The Gateway of Liberation",
      "Sirius, the brightest star in the night sky, radiates a frequency of freedom, spiritual evolution, and advanced knowledge. It is associated with great teachers and civilisations who brought profound wisdom to Earth. Connecting with Sirius can accelerate personal growth, unlock latent abilities, and reveal deeper truths about the nature of reality.",
      "https://storage.googleapis.com/generative-ai-story/space/sirius.jpeg"),
    Star("pleiaden", "Pleiades", Pleiaden,
      "The Cradle of Unconditional Love",
      "The Pleiades star cluster emanates a gentle, nurturing frequency of love, compassion, and unity. It is considered a home for heart-centered beings dedicated to healing and harmony. This energy soothes the soul, fosters emotional healing, and encourages a deep sense of connection with all life, reminding us of our shared cosmic origins.",
      "https://storage.googleapis.com/generative-ai-story/space/pleiades.jpeg"),
    Star("arcturus", "Arcturus", Arcturus,
      "The Forge of Celestial Healing",
      "Arcturus is a star of immense healing power and technological advancement. Its frequency is one of integration, renewal, and spiritual technology. It offers blueprints for emotional and physical healing, using light and sound to restructure energetic fields. Connecting with Arcturus can aid in releasing old patterns and embracing a state of holistic well-being.",
      "https://storage.googleapis.com/generative-ai-story/space/arcturus.jpeg"),
    Star("lyra", "Lyra", Lyra,
      "The Echo of Cosmic Creation",
      "Lyra is believed to be the original source of humanoid consciousness in our galactic sector. Its frequency carries the codes of creation, sound, and the sacred feminine. It resonates with the primordial song of the universe, inspiring artistic expression, profound creativity, and a connection to the ancient history of the soul.",
      "https://storage.googleapis.com/generative-ai-story/space/lyra.jpeg"),
    Star("orion", "Orion", Orion,
      "The Crucible of Duality",
      "The Orion constellation holds a complex frequency of duality, struggle, and integration. It represents the cosmic dance of light and dark, teaching lessons of sovereignty, resilience, and the courage to face one's shadow. Connecting with Orion can help integrate opposing forces within oneself and find strength in overcoming challenges.",
      "https://storage.googleapis.com/generative-ai-story/space/orion.jpeg"),
    Star("andromeda", "Andromeda", Andromeda,
      "The Weaver of Galactic Consciousness",
      "The Andromeda Galaxy brings a frequency of expansion, interdimensional awareness, and unity consciousness. It challenges our limited perspectives and invites us to embrace a broader, galactic identity. Connecting with Andromeda fosters a sense of being part of a vast cosmic family and encourages collaboration on a universal scale.",
      "https://storage.googleapis.com/generative-ai-story/space/andromeda.jpeg")
  ]

  /** The table a user's local-storage entry holds: star id to image URL. */
  type SavedImages = map<string, string>

  /** The browser's local storage: storage key to the table stored under it. */
  type LocalStorage = map<string, SavedImages>

  const StoragePrefix := "cosmic-creator-images-"

  /** Line 84: the local-storage key of a user's table. */
  function StorageKey(user: string): (key: string)
    ensures Text.StartsWith(key, StoragePrefix) && key[|StoragePrefix|..] == user
  {
    StoragePrefix + user
  }

  /** Different users never share a local-storage entry. */
  lemma StorageKeysSeparateUsers(user1: string, user2: string)
    requires StorageKey(user1) == StorageKey(user2)
    ensures user1 == user2
  {
    assert user1 == StorageKey(user1)[|StoragePrefix|..];
  }

  /** `saved[id]` is truthy. */
  predicate HasSavedImage(saved: SavedImages, id: string) {
    id in saved && saved[id] != ""
  }

  /** Lines 91-93: a star takes its saved image when the table has a truthy entry for its id and
      is otherwise left as it is; nothing but `image` ever changes, and the order stays. */
  function WithSavedImages(stars: seq<StarSystem>, saved: SavedImages): (r: seq<StarSystem>)
    ensures |r| == |stars|
    ensures forall i | 0 <= i < |r| :: r[i].id == stars[i].id && r[i].(image := stars[i].image) == stars[i]
    ensures forall i | 0 <= i < |r| ::
      HasSavedImage(saved, stars[i].id) ==> r[i].image == saved[stars[i].id]
    ensures forall i | 0 <= i < |r| :: !HasSavedImage(saved, stars[i].id) ==> r[i] == stars[i]
  {
    seq(|stars|, i requires 0 <= i < |stars| =>
      if HasSavedImage(saved, stars[i].id) then stars[i].(image := saved[stars[i].id]) else stars[i])
  }

  /** The table stored under a user's key, if there is one. */
  function StoredImages(storage: LocalStorage, user: string): Option<SavedImages> {
    if StorageKey(user) in storage then Some(storage[StorageKey(user)]) else None
  }

  /** Lines 88-97: the catalogue shown after sign-in, built from the initial data. */
  function LoadCatalogue(initial: seq<StarSystem>, stored: Option<SavedImages>): (r: seq<StarSystem>)
    ensures stored.None? ==> r == initial
    ensures |r| == |initial|
  {
    match stored
    case None => initial
    case Some(saved) => WithSavedImages(initial, saved)
  }

  /** An empty table leaves the catalogue as it is. */
  lemma EmptyTableChangesNothing(stars: seq<StarSystem>)
    ensures WithSavedImages(stars, map[]) == stars
  {
  }

  /** Lines 134-136: every star with the given id gets the new image; every other star is left
      identical. */
  function WithLinkedImage(stars: seq<StarSystem>, id: string, newImage: string): (r: seq<StarSystem>)
    ensures |r| == |stars|
    ensures forall i | 0 <= i < |r| :: stars[i].id == id ==> r[i] == stars[i].(image := newImage)
    ensures forall i | 0 <= i < |r| :: stars[i].id != id ==> r[i] == stars[i]
  {
    seq(|stars|, i requires 0 <= i < |stars| =>
      if stars[i].id == id then stars[i].(image := newImage) else stars[i])
  }

  /** Linking in memory and linking in storage agree: the catalogue a fresh load would build from
      the updated table is the catalogue the link produced in memory, so no reload is needed. */
  lemma LinkAgreesWithReload(stars: seq<StarSystem>, saved: SavedImages, id: string, newImage: string)
    requires newImage != ""
    ensures WithSavedImages(stars, saved[id := newImage])
         == WithLinkedImage(WithSavedImages(stars, saved), id, newImage)
  {
    var left := WithSavedImages(stars, saved[id := newImage]);
    var right := WithLinkedImage(WithSavedImages(stars, saved), id, newImage);
    assert |left| == |right|;
    forall i | 0 <= i < |left| ensures left[i] == right[i] {
      if stars[i].id == id {
        assert HasSavedImage(saved[id := newImage], id);
      }
    }
  }

  /** Line 122: the prompt the forge chamber is opened with for a star. */
  function VisionPrompt(star: StarSystem): string {
    "A vision of a being from the star system " + star.displayName + ", a place known as \""
      + star.lore + "\". The being embodies the concepts of: " + star.details
  }

  /** The component's state (lines 77-82) together with the local storage it reads and writes. */
  class SanctuaryView {
    const user: string
    const initialData: seq<StarSystem>
    var storage: LocalStorage
    var starSystems: seq<StarSystem>
    var selectedStar: Option<StarSystem>
    var isStargazing: bool
    var activeChamber: ActiveChamber
    var contextStar: Option<StarSystem>
    var chamberInitialPrompt: string

    /** The shown catalogue is always the one a fresh load would build from storage, and the
        selected star, if any, is one of its entries. */
    ghost predicate Valid()
      reads this
    {
      && starSystems == LoadCatalogue(initialData, StoredImages(storage, user))
      && (selectedStar.Some? ==> selectedStar.value in starSystems)
    }

    /** Mounting: lines 77-82 and the effect of lines 86-98. The component always starts from
        InitialPortals; it is passed in as `initial` so that the proofs about the view never
        unfold the catalogue's long texts. */
    constructor (user: string, storage: LocalStorage, initial: seq<StarSystem>)
      ensures Valid()
      ensures this.user == user && this.storage == storage && initialData == initial
      ensures starSystems == LoadCatalogue(initialData, StoredImages(storage, user))
      ensures selectedStar == None && !isStargazing && activeChamber == NoChamber
      ensures contextStar == None && chamberInitialPrompt == ""
    {
      this.user := user;
      this.storage := storage;
      initialData := initial;
      selectedStar := None;
      isStargazing := false;
      activeChamber := NoChamber;
      contextStar := None;
      chamberInitialPrompt := "";
      starSystems := LoadCatalogue(initial, StoredImages(storage, user));
    }

    /** Lines 100-102; the portal view only offers entries of the shown catalogue. */
    method SelectStar(star: StarSystem)
      requires Valid() && star in starSystems
      modifies this`selectedStar
      ensures Valid() && selectedStar == Some(star)
    {
      selectedStar := Some(star);
    }

    /** Lines 104-106. */
    method BackToPortal()
      requires Valid()
      modifies this`selectedStar
      ensures Valid() && selectedStar == None
    {
      selectedStar := None;
    }

    /** The portal's stargazing toggle (Portal.tsx line 57). */
    method SetStargazing(on: bool)
      requires Valid()
      modifies this`isStargazing
      ensures Valid() && isStargazing == on
    {
      isStargazing := on;
    }

    /** Lines 108-112: opening a chamber clears the context star and the prompt. */
    method OpenChamber(chamber: ActiveChamber)
      requires Valid()
      modifies this`activeChamber, this`contextStar, this`chamberInitialPrompt
      ensures Valid()
      ensures activeChamber == chamber && contextStar == None && chamberInitialPrompt == ""
    {
      activeChamber := chamber;
      contextStar := None;
      chamberInitialPrompt := "";
    }

    /** Lines 114-118. */
    method CloseChamber()
      requires Valid()
      modifies this`activeChamber, this`contextStar, this`chamberInitialPrompt
      ensures Valid()
      ensures activeChamber == NoChamber && contextStar == None && chamberInitialPrompt == ""
    {
      activeChamber := NoChamber;
      contextStar := None;
      chamberInitialPrompt := "";
    }

    /** Lines 120-124: the forge opens with the star as context and its vision prompt. */
    method GenerateVision(star: StarSystem)
      requires Valid()
      modifies this`activeChamber, this`contextStar, this`chamberInitialPrompt
      ensures Valid()
      ensures contextStar == Some(star) && chamberInitialPrompt == VisionPrompt(star)
      ensures activeChamber == CelestialForgeChamber
    {
      contextStar := Some(star);
      chamberInitialPrompt := VisionPrompt(star);
      activeChamber := CelestialForgeChamber;
    }

    /** Lines 126-129: the animator opens with the star as context; the prompt is kept. */
    method AnimateVision(star: StarSystem)
      requires Valid()
      modifies this`activeChamber, this`contextStar
      ensures Valid()
      ensures contextStar == Some(star) && activeChamber == StellarAnimatorChamber
    {
      contextStar := Some(star);
      activeChamber := StellarAnimatorChamber;
    }

    /** Lines 131-150. With a context star, every star with its id gets the new image in the
        catalogue and in the stored table (other entries untouched), and the selected star is
        updated when it has that id; without one, catalogue and storage stay. Either way the
        chamber is closed. The forge only links a non-empty image (CelestialForge.tsx line 99). */
    method LinkImageToStar(newImage: string)
      requires Valid() && newImage != ""
      modifies this`starSystems, this`storage, this`selectedStar
      modifies this`activeChamber, this`contextStar, this`chamberInitialPrompt
      ensures Valid()
      ensures old(contextStar).None? ==>
        starSystems == old(starSystems) && storage == old(storage) && selectedStar == old(selectedStar)
      ensures old(contextStar).Some? ==> var id := old(contextStar).value.id;
        && starSystems == WithLinkedImage(old(starSystems), id, newImage)
        && storage == old(storage)[StorageKey(user) := old(StoredImages(storage, user)).GetOr(map[])[id := newImage]]
        && selectedStar == if old(selectedStar).Some? && old(selectedStar).value.id == id
                           then Some(old(selectedStar).value.(image := newImage))
                           else old(selectedStar)
      ensures activeChamber == NoChamber && contextStar == None && chamberInitialPrompt == ""
    {
      if contextStar.Some? {
        var id := contextStar.value.id;
        var saved := StoredImages(storage, user).GetOr(map[]);
        LinkAgreesWithReload(initialData, saved, id, newImage);
        starSystems := WithLinkedImage(starSystems, id, newImage);
        saved := saved[id := newImage];
        storage := storage[StorageKey(user) := saved];
        if selectedStar.Some? && selectedStar.value.id == id {
          selectedStar := Some(selectedStar.value.(image := newImage));
        }
      }
      CloseChamber();
    }
  }
}
