/** The gallery screen's state (App.tsx, the App component): the settings,
  * the wallpaper list, the search box, the selected category and the record
  * being previewed, together with the two storage slots the screen writes. */
module Session {
  import opened Types
  import opened Text
  import opened Sequences
  import opened Catalog
  import opened Filter
  import opened Storage

  /** The file picked in the upload dialog; only its name matters here. */
  datatype File = File(name: string)

  /** The id an upload receives from the clock reading `now`. */
  function UploadId(now: nat): string {
    "local-" + NatToString(now)
  }

  /** An upload id reads as the id of record number `now` of a category
    * "local". */
  lemma UploadIdParses(now: nat)
    ensures ParseGeneratedId(UploadId(now)) == Some(("local", now))
  {
    GeneratedIdRoundTrip("local", now);
    assert UploadId(now) == GeneratedId("local", now);
  }

  /** The record an upload creates. The clock reading, the object URL of the
    * file and the text of the random thumbnail seed come from outside. */
  function UploadedWallpaper(file: File, now: nat, blobUrl: string, randomText: string): (w: Wallpaper)
    ensures IsLocal(w) && w.url == blobUrl
    ensures w.id == UploadId(now)
    ensures '.' !in w.title && w.title <= file.name
    ensures |file.name| > |w.title| ==> file.name[|w.title|] == '.'
    ensures |w.tags| == 3 && w.tags[0] == "local" && w.tags[1] == "custom" && w.tags[2] == Lower(file.name)
  {
    Wallpaper(UploadId(now), blobUrl, "https://picsum.photos/seed/" + randomText + "/400/600",
      BeforeFirstDot(file.name), ["local", "custom", Lower(file.name)], Some(true))
  }

  /** An uploaded record shows up under any search for part of its file name,
    * in any case. */
  lemma UploadFoundByName(file: File, now: nat, blobUrl: string, randomText: string, query: string)
    requires Includes(Lower(file.name), NormalQuery(query))
    ensures MatchesQuery(UploadedWallpaper(file, now, blobUrl, randomText), NormalQuery(query))
  {
    var w := UploadedWallpaper(file, now, blobUrl, randomText);
    assert Includes(Lower(w.tags[2]), NormalQuery(query)) by {
      LowerIdempotent(file.name);
    }
  }

  /** An upload's id never clashes with a catalog id while "local" is not a category. */
  lemma UploadIdFresh(cats: seq<string>, pools: map<string, seq<string>>, n: nat, now: nat, w: Wallpaper)
    requires PoolsValid(pools) && "local" !in cats
    requires w in Library(cats, pools, n)
    ensures w.id != UploadId(now)
  {
    LibraryIdCategory(cats, pools, n, w);
    UploadIdParses(now);
  }

  /** The local records of a list made of uploads, remote catalog records and
    * restored records are the uploads followed by the local restored ones. */
  lemma LocalsOfSession(uploads: seq<Wallpaper>, library: seq<Wallpaper>, restored: seq<Wallpaper>)
    requires forall w :: w in uploads ==> IsLocal(w)
    requires forall w :: w in library ==> !IsLocal(w)
    ensures Keep(uploads + library + restored, Local()) == uploads + Keep(restored, Local())
  {
    var local := Local();
    KeepAll(uploads, local);
    KeepNone(library, local);
    KeepConcat(uploads, library, local);
    assert Keep(uploads + library, local) == uploads;
    KeepConcat(uploads + library, restored, local);
  }

  /** Putting a local record in front of such a list keeps its shape, and the
    * slot written afterwards reads back as the catalog followed by the uploads
    * and the local restored records. */
  lemma PrependUpload(w: Wallpaper, uploads: seq<Wallpaper>, library: seq<Wallpaper>, restored: seq<Wallpaper>)
    requires IsLocal(w)
    requires forall x :: x in uploads ==> IsLocal(x)
    requires forall x :: x in library ==> !IsLocal(x)
    ensures forall x :: x in [w] + uploads ==> IsLocal(x)
    ensures [w] + (uploads + library + restored) == ([w] + uploads) + library + restored
    ensures LoadWallpapers(library, PersistLocals([w] + (uploads + library + restored)))
      == library + ([w] + uploads) + Keep(restored, Local())
  {
    var ws := [w] + (uploads + library + restored);
    assert ws == ([w] + uploads) + library + restored;
    LocalsOfSession([w] + uploads, library, restored);
    ReloadAfterPersist(library, ws);
  }

  /** The gallery screen. The ghost fields record where each record of the
    * list came from: this session's uploads (newest first), the generated
    * catalog, and the records restored from the wallpaper slot. */
  class Gallery {
    var settings: Settings
    var wallpapers: seq<Wallpaper>
    var searchQuery: string
    var activeCategory: string
    var previewing: Option<Wallpaper>
    var settingsSlot: Slot<Settings>
    var wallpapersSlot: Slot<seq<StoredWallpaper>>
    const library: seq<Wallpaper>
    ghost var uploads: seq<Wallpaper>
    ghost var restored: seq<Wallpaper>

    /** The settings slot always holds the current settings; the list is the
      * uploads, then the catalog, then the restored records; and once
      * something was uploaded the wallpaper slot holds exactly the local
      * records of the list; a previewed record is one of the list. */
    ghost predicate Valid()
      reads this
    {
      && settingsSlot == Holds(settings)
      && |library| == 6000
      && wallpapers == uploads + library + restored
      && (forall w :: w in uploads ==> IsLocal(w))
      && (forall w :: w in library ==> !IsLocal(w))
      && (uploads == [] ==> restored == LoadLocals(wallpapersSlot))
      && (uploads != [] ==> wallpapersSlot == PersistLocals(wallpapers))
      && (previewing.Some? ==> previewing.value in wallpapers)
    }

    /** Start-up: the catalog is generated, the settings and the uploaded
      * records are read from their slots, and the settings are written back
      * once the screen is mounted. */
    constructor(storedSettings: Slot<Settings>, storedWallpapers: Slot<seq<StoredWallpaper>>)
      ensures Valid()
      ensures library == Library(RealCategories(CATEGORY_IDS), ASSET_POOLS, ITEMS_PER_CATEGORY)
      ensures settings == LoadSettings(storedSettings)
      ensures wallpapers == LoadWallpapers(library, storedWallpapers)
      ensures wallpapersSlot == storedWallpapers
      ensures searchQuery == "" && activeCategory == ALL && previewing == None
      ensures uploads == [] && restored == LoadLocals(storedWallpapers)
    {
      ShippedLibrary();
      var lib := GenerateLibrary(CATEGORY_IDS, ASSET_POOLS, ITEMS_PER_CATEGORY);
      library := lib;
      settings := LoadSettings(storedSettings);
      wallpapers := LoadWallpapers(lib, storedWallpapers);
      searchQuery := "";
      activeCategory := ALL;
      previewing := None;
      settingsSlot := Holds(LoadSettings(storedSettings));
      wallpapersSlot := storedWallpapers;
      uploads := [];
      restored := LoadLocals(storedWallpapers);
    }

    /** The records the grid shows. */
    function Filtered(): (r: seq<Wallpaper>)
      reads this
      ensures IsSubsequence(r, wallpapers)
    {
      FilteredIsSubsequence(wallpapers, activeCategory, searchQuery);
      FilteredWallpapers(wallpapers, activeCategory, searchQuery)
    }

    /** The record playing on the device, if the list is not empty. */
    function Current(): (r: Option<Wallpaper>)
      reads this
      ensures Valid() ==> r.Some? && r.value in wallpapers
    {
      CurrentWallpaper(wallpapers, settings.activeWallpaperId)
    }

    /** Writes the settings to their slot, as the effect on `settings` does
      * after every change. */
    method SaveSettings(s: Settings)
      modifies this
      ensures settings == s && settingsSlot == Holds(s)
      ensures wallpapers == old(wallpapers) && wallpapersSlot == old(wallpapersSlot)
      ensures searchQuery == old(searchQuery) && activeCategory == old(activeCategory)
      ensures previewing == old(previewing)
      ensures uploads == old(uploads) && restored == old(restored)
    {
      settings := s;
      settingsSlot := Holds(s);
    }

    /** Choosing a language changes only the language. */
    method SetLanguage(lang: Language)
      requires Valid()
      modifies this
      ensures Valid()
      ensures settings == old(settings).(language := lang)
      ensures wallpapers == old(wallpapers) && wallpapersSlot == old(wallpapersSlot)
      ensures searchQuery == old(searchQuery) && activeCategory == old(activeCategory)
      ensures previewing == old(previewing)
      ensures uploads == old(uploads) && restored == old(restored)
    {
      SaveSettings(settings.(language := lang));
    }

    /** The sound button flips `muted` and nothing else. */
    method ToggleMute()
      requires Valid()
      modifies this
      ensures Valid()
      ensures settings == old(settings).(muted := !old(settings).muted)
      ensures wallpapers == old(wallpapers) && wallpapersSlot == old(wallpapersSlot)
      ensures searchQuery == old(searchQuery) && activeCategory == old(activeCategory)
      ensures previewing == old(previewing)
      ensures uploads == old(uploads) && restored == old(restored)
    {
      SaveSettings(settings.(muted := !settings.muted));
    }

    /** A fit-mode button sets the fit mode and nothing else. */
    method SetFitMode(mode: FitMode)
      requires Valid()
      modifies this
      ensures Valid()
      ensures settings == old(settings).(fitMode := mode)
      ensures wallpapers == old(wallpapers) && wallpapersSlot == old(wallpapersSlot)
      ensures searchQuery == old(searchQuery) && activeCategory == old(activeCategory)
      ensures previewing == old(previewing)
      ensures uploads == old(uploads) && restored == old(restored)
    {
      SaveSettings(settings.(fitMode := mode));
    }

    /** Typing in the search box replaces the query. */
    method SetSearchQuery(query: string)
      requires Valid()
      modifies this
      ensures Valid()
      ensures searchQuery == query
      ensures settings == old(settings) && settingsSlot == old(settingsSlot)
      ensures wallpapers == old(wallpapers) && wallpapersSlot == old(wallpapersSlot)
      ensures activeCategory == old(activeCategory) && previewing == old(previewing)
      ensures uploads == old(uploads) && restored == old(restored)
    {
      searchQuery := query;
    }

    /** A category button selects the category and clears the search. */
    method SelectCategory(category: string)
      requires Valid()
      modifies this
      ensures Valid()
      ensures activeCategory == category && searchQuery == ""
      ensures Filtered() == CategoryStage(wallpapers, category)
      ensures settings == old(settings) && settingsSlot == old(settingsSlot)
      ensures wallpapers == old(wallpapers) && wallpapersSlot == old(wallpapersSlot)
      ensures previewing == old(previewing)
      ensures uploads == old(uploads) && restored == old(restored)
    {
      activeCategory := category;
      searchQuery := "";
    }

    /** The reset buttons clear the search and select "all": the grid shows
      * the whole list again. */
    method ResetFilters()
      requires Valid()
      modifies this
      ensures Valid()
      ensures activeCategory == ALL && searchQuery == ""
      ensures Filtered() == wallpapers
      ensures settings == old(settings) && settingsSlot == old(settingsSlot)
      ensures wallpapers == old(wallpapers) && wallpapersSlot == old(wallpapersSlot)
      ensures previewing == old(previewing)
      ensures uploads == old(uploads) && restored == old(restored)
    {
      searchQuery := "";
      activeCategory := ALL;
    }

    /** Clicking a card of the grid opens its preview. */
    method OpenPreview(w: Wallpaper)
      requires Valid() && w in Filtered()
      modifies this
      ensures Valid()
      ensures previewing == Some(w)
      ensures settings == old(settings) && settingsSlot == old(settingsSlot)
      ensures wallpapers == old(wallpapers) && wallpapersSlot == old(wallpapersSlot)
      ensures searchQuery == old(searchQuery) && activeCategory == old(activeCategory)
      ensures uploads == old(uploads) && restored == old(restored)
    {
      FilteredMembership(wallpapers, activeCategory, searchQuery, w);
      previewing := Some(w);
    }

    /** The close and back buttons of the preview close it. */
    method ClosePreview()
      requires Valid()
      modifies this
      ensures Valid()
      ensures previewing == None
      ensures settings == old(settings) && settingsSlot == old(settingsSlot)
      ensures wallpapers == old(wallpapers) && wallpapersSlot == old(wallpapersSlot)
      ensures searchQuery == old(searchQuery) && activeCategory == old(activeCategory)
      ensures uploads == old(uploads) && restored == old(restored)
    {
      previewing := None;
    }

    /** The apply button of an open preview makes the previewed record the
      * active wallpaper and closes the preview; with unique ids, that record
      * is then the one playing on the device. */
    method Apply()
      requires Valid() && previewing.Some?
      modifies this
      ensures Valid()
      ensures settings == old(settings).(activeWallpaperId := Some(old(previewing).value.id))
      ensures previewing == None
      ensures wallpapers == old(wallpapers) && wallpapersSlot == old(wallpapersSlot)
      ensures searchQuery == old(searchQuery) && activeCategory == old(activeCategory)
      ensures IdsDistinct(wallpapers) ==> Current() == old(previewing)
      ensures uploads == old(uploads) && restored == old(restored)
    {
      var chosen := previewing.value;
      SaveSettings(settings.(activeWallpaperId := Some(chosen.id)));
      previewing := None;
      if IdsDistinct(wallpapers) {
        CurrentOfDistinct(wallpapers, chosen);
      }
    }

    /** Picking a file adds a local record in front of the list, writes the
      * local records of the new list to the wallpaper slot and opens the new
      * record's preview; with no file picked nothing changes. Reading the
      * slot back at the next start-up restores this session's uploads and the
      * local records restored earlier, behind the catalog. */
    method Upload(file: Option<File>, now: nat, blobUrl: string, randomText: string)
      requires Valid()
      modifies this
      ensures Valid()
      ensures file.None? ==> (wallpapers == old(wallpapers) && wallpapersSlot == old(wallpapersSlot)
        && previewing == old(previewing))
      ensures file.Some? ==> var w := UploadedWallpaper(file.value, now, blobUrl, randomText);
        && wallpapers == [w] + old(wallpapers)
        && wallpapersSlot == PersistLocals(wallpapers)
        && previewing == Some(w)
        && LoadWallpapers(library, wallpapersSlot) == library + uploads + Keep(restored, Local())
      ensures file.None? ==> uploads == old(uploads)
      ensures file.Some? ==> uploads == [UploadedWallpaper(file.value, now, blobUrl, randomText)] + old(uploads)
      ensures restored == old(restored)
      ensures settings == old(settings) && settingsSlot == old(settingsSlot)
      ensures searchQuery == old(searchQuery) && activeCategory == old(activeCategory)
    {
      if file.Some? {
        var w := UploadedWallpaper(file.value, now, blobUrl, randomText);
        PrependUpload(w, uploads, library, restored);
        var updated := [w] + wallpapers;
        wallpapers := updated;
        wallpapersSlot := PersistLocals(updated);
        previewing := Some(w);
        uploads := [w] + uploads;
      }
    }
  }
}
