/** The two browser storage slots: the settings record under
  * 'lumina_settings' and the uploaded records under 'lumina_wallpapers',
  * and how the gallery reads them at start-up and writes them back. */
module Storage {
  import opened Types
  import opened Sequences

  /** What reading a slot yields once parsed: nothing stored, an empty string
    * (which the start-up code treats like nothing), or a stored value. */
  datatype Slot<T> = Absent | EmptyString | Holds(value: T)

  /** A record as it comes back from the wallpaper slot: records written by
    * older versions may lack their tags. */
  datatype StoredWallpaper = StoredWallpaper(
    id: string,
    url: string,
    thumbnail: string,
    title: string,
    tags: Option<seq<string>>,
    isLocal: Option<bool>)

  /** The settings at start-up: the stored record if there is one, else the
    * defaults. */
  function LoadSettings(slot: Slot<Settings>): (s: Settings)
    ensures slot.Holds? ==> s == slot.value
    ensures !slot.Holds? ==> s == DEFAULT_SETTINGS
  {
    if slot.Holds? then slot.value else DEFAULT_SETTINGS
  }

  /** `{ ...w, tags: w.tags || [] }`: a stored record with its tags filled in. */
  function Normalize(sw: StoredWallpaper): (w: Wallpaper)
    ensures w.id == sw.id && w.url == sw.url && w.thumbnail == sw.thumbnail && w.title == sw.title
    ensures w.isLocal == sw.isLocal
    ensures sw.tags.Some? ==> w.tags == sw.tags.value
    ensures sw.tags.None? ==> w.tags == []
  {
    Wallpaper(sw.id, sw.url, sw.thumbnail, sw.title, sw.tags.GetOr([]), sw.isLocal)
  }

  /** A record as it is written to the wallpaper slot. */
  function ToStored(w: Wallpaper): (sw: StoredWallpaper)
    ensures Normalize(sw) == w
  {
    StoredWallpaper(w.id, w.url, w.thumbnail, w.title, Some(w.tags), w.isLocal)
  }

  function NormalizeAll(sws: seq<StoredWallpaper>): (ws: seq<Wallpaper>)
    ensures |ws| == |sws|
    ensures forall k :: 0 <= k < |sws| ==> ws[k] == Normalize(sws[k])
  {
    seq(|sws|, k requires 0 <= k < |sws| => Normalize(sws[k]))
  }

  function ToStoredAll(ws: seq<Wallpaper>): (sws: seq<StoredWallpaper>)
    ensures |sws| == |ws|
    ensures forall k :: 0 <= k < |ws| ==> sws[k] == ToStored(ws[k])
  {
    seq(|ws|, k requires 0 <= k < |ws| => ToStored(ws[k]))
  }

  /** The stored records at start-up, tags filled in; none if nothing usable is stored. */
  function LoadLocals(slot: Slot<seq<StoredWallpaper>>): (ws: seq<Wallpaper>)
    ensures !slot.Holds? ==> ws == []
    ensures slot.Holds? ==> |ws| == |slot.value|
    ensures slot.Holds? ==> forall k :: 0 <= k < |ws| ==> ws[k] == Normalize(slot.value[k])
  {
    if slot.Holds? then NormalizeAll(slot.value) else []
  }

  /** The wallpaper list at start-up: the catalog, then the stored records. */
  function LoadWallpapers(library: seq<Wallpaper>, slot: Slot<seq<StoredWallpaper>>): (ws: seq<Wallpaper>)
    ensures |ws| == |library| + |LoadLocals(slot)|
    ensures ws[..|library|] == library
    ensures ws[|library|..] == LoadLocals(slot)
  {
    library + LoadLocals(slot)
  }

  function Local(): Wallpaper -> bool {
    (w: Wallpaper) => IsLocal(w)
  }

  /** What an upload writes to the wallpaper slot: the local records of the
    * list, in order. */
  function PersistLocals(ws: seq<Wallpaper>): (slot: Slot<seq<StoredWallpaper>>)
    ensures slot.Holds?
    ensures |slot.value| <= |ws|
    ensures forall k :: 0 <= k < |slot.value| ==> slot.value[k].isLocal == Some(true)
  {
    Holds(ToStoredAll(Keep(ws, Local())))
  }

  /** Writing records and reading them back gives the same records. */
  lemma StoredRoundTrip(ws: seq<Wallpaper>)
    ensures NormalizeAll(ToStoredAll(ws)) == ws
  {
  }

  /** Reading back what an upload wrote gives the local records of the list,
    * in order, behind the catalog. */
  lemma ReloadAfterPersist(library: seq<Wallpaper>, ws: seq<Wallpaper>)
    ensures LoadWallpapers(library, PersistLocals(ws)) == library + Keep(ws, Local())
  {
    StoredRoundTrip(Keep(ws, Local()));
  }

  /** A record is written by an upload exactly when it is in the list and its
    * `isLocal` is present and true: records without the flag stay out. */
  lemma PersistedLocalsMembership(ws: seq<Wallpaper>, w: Wallpaper)
    ensures w in NormalizeAll(PersistLocals(ws).value) <==> w in ws && w.isLocal == Some(true)
  {
    StoredRoundTrip(Keep(ws, Local()));
    KeepMembership(ws, Local(), w);
  }
}
