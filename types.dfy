/** The data model of the gallery: languages, fit modes, wallpapers and settings. */
module Types {

  /** A value that may be missing (an optional property, or `null`). */
  datatype Option<+T> = None | Some(value: T) {
    function GetOr(default: T): T {
      match this
      case Some(v) => v
      case None => default
    }
  }

  /** The three interface languages, each stored and selected by its code. */
  datatype Language = EN | PT | ES

  /** The code a language is stored under and offered as in the selector. */
  function Code(l: Language): string {
    match l
    case EN => "en"
    case PT => "pt"
    case ES => "es"
  }

  /** The language a code names, if any: the inverse of `Code`. */
  function LanguageFromCode(s: string): (r: Option<Language>)
    ensures r.Some? ==> Code(r.value) == s
    ensures forall l: Language :: Code(l) == s ==> r == Some(l)
  {
    if s == "en" then Some(EN)
    else if s == "pt" then Some(PT)
    else if s == "es" then Some(ES)
    else None
  }

  /** How the preview scales a video into the device frame. */
  datatype FitMode = Cover | Contain | Fill

  /** The literal a fit mode is written as. */
  function FitModeName(m: FitMode): string {
    match m
    case Cover => "cover"
    case Contain => "contain"
    case Fill => "fill"
  }

  /** The fit mode a literal names, if any: the inverse of `FitModeName`. */
  function FitModeFromName(s: string): (r: Option<FitMode>)
    ensures r.Some? ==> FitModeName(r.value) == s
    ensures forall m: FitMode :: FitModeName(m) == s ==> r == Some(m)
  {
    if s == "cover" then Some(Cover)
    else if s == "contain" then Some(Contain)
    else if s == "fill" then Some(Fill)
    else None
  }

  /** A catalog entry. `isLocal` is an optional property: `None` means absent. */
  datatype Wallpaper = Wallpaper(
    id: string,
    url: string,
    thumbnail: string,
    title: string,
    tags: seq<string>,
    isLocal: Option<bool>)

  /** An entry counts as local only when `isLocal` is present and true. */
  predicate IsLocal(w: Wallpaper) {
    w.isLocal == Some(true)
  }

  /** The one settings record; `activeWallpaperId` may be null (`None`). */
  datatype Settings = Settings(
    language: Language,
    muted: bool,
    fitMode: FitMode,
    activeWallpaperId: Option<string>)

  /** The settings used when nothing usable is stored. */
  const DEFAULT_SETTINGS: Settings := Settings(EN, true, Cover, Some("nature-1"))
}
