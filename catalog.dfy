/** The synthetic catalog: for every real category and every index from 1 to
  * the per-category count, one remote wallpaper record (App.tsx, generateLibrary). */
module Catalog {
  import opened Types
  import opened Text
  import opened Sequences

  /** The category bar, in display order; the first entry is the pseudo-category "all". */
  const CATEGORY_IDS: seq<string> := ["all", "cars", "nature", "sea", "cities", "cute", "animals"]

  /** How many records each real category receives. */
  const ITEMS_PER_CATEGORY: nat := 1000

  /** The pool used for a category that has none of its own. */
  const FALLBACK_POOL: string := "nature"

  /** Two video URLs per category. */
  const ASSET_POOLS: map<string, seq<string>> := map[
    "cars" := [
      "https://assets.mixkit.co/videos/preview/mixkit-tunnel-of-purple-neon-lights-4240-large.mp4",
      "https://assets.mixkit.co/videos/preview/mixkit-set-of-different-colored-neon-lights-4242-large.mp4"],
    "nature" := [
      "https://assets.mixkit.co/videos/preview/mixkit-forest-stream-in-the-sunlight-525-large.mp4",
      "https://assets.mixkit.co/videos/preview/mixkit-stars-in-the-night-sky-4001-large.mp4"],
    "sea" := [
      "https://assets.mixkit.co/videos/preview/mixkit-waves-of-a-blue-ocean-in-the-sunlight-4247-large.mp4",
      "https://assets.mixkit.co/videos/preview/mixkit-slow-motion-of-a-pink-and-purple-liquid-4340-large.mp4"],
    "cities" := [
      "https://assets.mixkit.co/videos/preview/mixkit-tunnel-of-purple-neon-lights-4240-large.mp4",
      "https://assets.mixkit.co/videos/preview/mixkit-set-of-different-colored-neon-lights-4242-large.mp4"],
    "cute" := [
      "https://assets.mixkit.co/videos/preview/mixkit-abstract-waves-of-colored-ink-in-water-4334-large.mp4",
      "https://assets.mixkit.co/videos/preview/mixkit-slow-motion-of-a-pink-and-purple-liquid-4340-large.mp4"],
    "animals" := [
      "https://assets.mixkit.co/videos/preview/mixkit-forest-stream-in-the-sunlight-525-large.mp4",
      "https://assets.mixkit.co/videos/preview/mixkit-stars-in-the-night-sky-4001-large.mp4"]
  ]

  /** Every pool is non-empty and the fallback pool exists. */
  predicate PoolsValid(pools: map<string, seq<string>>) {
    FALLBACK_POOL in pools && forall c :: c in pools ==> |pools[c]| > 0
  }

  /** The pool a category draws from: its own, else the fallback. */
  function PoolFor(pools: map<string, seq<string>>, c: string): (pool: seq<string>)
    requires PoolsValid(pools)
    ensures |pool| > 0
    ensures c in pools ==> pool == pools[c]
    ensures c !in pools ==> pool == pools[FALLBACK_POOL]
  {
    if c in pools then pools[c] else pools[FALLBACK_POOL]
  }

  /** The categories that are generated: every entry of the bar but the first. */
  function RealCategories(ids: seq<string>): (cats: seq<string>)
    ensures ids != [] ==> cats == ids[1..]
    ensures ids == [] ==> cats == []
  {
    if ids == [] then [] else ids[1..]
  }

  /** Tags every generated record carries besides its category and its rank tag. */
  const FIXED_TAGS: seq<string> := ["premium", "4k", "ultra-hd"]

  function RankTag(i: nat): string {
    if i % 10 == 0 then "exclusive" else "popular"
  }

  function GeneratedId(c: string, i: nat): string {
    c + "-" + NatToString(i)
  }

  function Thumbnail(id: string): string {
    "https://picsum.photos/seed/" + id + "/400/600"
  }

  function Title(c: string, i: nat): string {
    Capitalize(c) + " #" + NatToString(i)
  }

  /** The record generated for category `c` at index `i`. */
  function Entry(c: string, pool: seq<string>, i: nat): Wallpaper
    requires |pool| > 0
  {
    var id := GeneratedId(c, i);
    Wallpaper(id, pool[i % |pool|], Thumbnail(id), Title(c, i), [c] + FIXED_TAGS + [RankTag(i)], Some(false))
  }

  /** The position of the last occurrence of `c` in `s`, if any. */
  function LastIndexOf(s: string, c: char): (r: Option<nat>)
    ensures r.Some? ==> r.value < |s| && s[r.value] == c && forall j :: r.value < j < |s| ==> s[j] != c
    ensures r.None? ==> c !in s
  {
    if s == [] then None
    else if s[|s| - 1] == c then Some(|s| - 1)
    else
      var r := LastIndexOf(s[..|s| - 1], c);
      assert s == s[..|s| - 1] + [s[|s| - 1]];
      r
  }

  /** The last occurrence is the one after which `c` no longer occurs. */
  lemma LastIndexAt(s: string, c: char, k: nat)
    requires k < |s| && s[k] == c
    requires forall j :: k < j < |s| ==> s[j] != c
    ensures LastIndexOf(s, c) == Some(k)
  {
  }

  /** Splits a generated id at its last dash into category and index. */
  function ParseGeneratedId(id: string): Option<(string, nat)> {
    match LastIndexOf(id, '-')
    case None => None
    case Some(k) =>
      var digits := id[k + 1..];
      if digits != [] && forall j :: 0 <= j < |digits| ==> IsDigit(digits[j])
      then Some((id[..k], DigitsValue(digits)))
      else None
  }

  /** A generated id names its category and index: the id can be split back
    * into both, whatever characters the category contains. */
  lemma GeneratedIdRoundTrip(c: string, i: nat)
    ensures ParseGeneratedId(GeneratedId(c, i)) == Some((c, i))
  {
    var id, d := GeneratedId(c, i), NatToString(i);
    assert id[|c|] == '-';
    assert forall j :: |c| < j < |id| ==> id[j] == d[j - |c| - 1];
    assert forall j :: |c| < j < |id| ==> id[j] != '-';
    LastIndexAt(id, '-', |c|);
    assert id[|c| + 1..] == d;
    assert id[..|c|] == c;
  }

  /** Two generated ids coincide only for the same category and index. */
  lemma GeneratedIdInjective(c1: string, i1: nat, c2: string, i2: nat)
    ensures GeneratedId(c1, i1) == GeneratedId(c2, i2) ==> c1 == c2 && i1 == i2
  {
    GeneratedIdRoundTrip(c1, i1);
    GeneratedIdRoundTrip(c2, i2);
  }

  /** A generated record is remote and plays a video of its category's pool. */
  lemma EntryIsRemote(c: string, pool: seq<string>, i: nat)
    requires |pool| > 0
    ensures !IsLocal(Entry(c, pool, i)) && Entry(c, pool, i).isLocal == Some(false)
    ensures Entry(c, pool, i).url == pool[i % |pool|] && Entry(c, pool, i).url in pool
    ensures Entry(c, pool, i).thumbnail == Thumbnail(Entry(c, pool, i).id)
  {
  }

  /** A generated record's id splits back into its category and index. */
  lemma EntryId(c: string, pool: seq<string>, i: nat)
    requires |pool| > 0
    ensures ParseGeneratedId(Entry(c, pool, i).id) == Some((c, i))
  {
    GeneratedIdRoundTrip(c, i);
  }

  /** A generated record's tags: its category, the three fixed tags, and
    * "exclusive" exactly on every tenth index, "popular" otherwise. */
  lemma EntryTags(c: string, pool: seq<string>, i: nat)
    requires |pool| > 0
    ensures Entry(c, pool, i).tags == [c, "premium", "4k", "ultra-hd", RankTag(i)]
    ensures Entry(c, pool, i).tags[4] == "exclusive" <==> i % 10 == 0
    ensures Entry(c, pool, i).tags[4] == "popular" <==> i % 10 != 0
  {
  }

  /** A generated title, lower-cased, is the lower-cased category, " #" and the index. */
  lemma EntryTitle(c: string, pool: seq<string>, i: nat)
    requires |pool| > 0
    ensures Lower(Entry(c, pool, i).title) == Lower(c) + " #" + NatToString(i)
    ensures |c| > 0 && IsLowerLetter(c[0]) ==> IsUpper(Entry(c, pool, i).title[0])
    ensures |c| > 0 ==> Entry(c, pool, i).title[1..|c|] == c[1..]
  {
    var d := NatToString(i);
    LowerConcat(Capitalize(c), " #" + d);
    LowerConcat(" #", d);
    LowerNoUpper(d);
  }

  /** The records of one category, indices 1 to `n` in order. */
  function Block(c: string, pool: seq<string>, n: nat): (b: seq<Wallpaper>)
    requires |pool| > 0
    ensures |b| == n
    ensures forall j :: 0 <= j < n ==> b[j] == Entry(c, pool, j + 1)
  {
    seq(n, j requires 0 <= j < n => Entry(c, pool, j + 1))
  }

  /** One block per category, in the order of the categories. */
  function Blocks(cats: seq<string>, pools: map<string, seq<string>>, n: nat): (bs: seq<seq<Wallpaper>>)
    requires PoolsValid(pools)
    ensures |bs| == |cats| && Uniform(bs, n)
    ensures forall k :: 0 <= k < |cats| ==> bs[k] == Block(cats[k], PoolFor(pools, cats[k]), n)
  {
    seq(|cats|, k requires 0 <= k < |cats| => Block(cats[k], PoolFor(pools, cats[k]), n))
  }

  /** The whole library: the blocks of the categories, category after category. */
  function Library(cats: seq<string>, pools: map<string, seq<string>>, n: nat): seq<Wallpaper>
    requires PoolsValid(pools)
  {
    Flatten(Blocks(cats, pools, n))
  }

  lemma BlockSnoc(c: string, pool: seq<string>, i: nat)
    requires |pool| > 0 && i > 0
    ensures Block(c, pool, i) == Block(c, pool, i - 1) + [Entry(c, pool, i)]
  {
  }

  lemma LibrarySnoc(cats: seq<string>, pools: map<string, seq<string>>, n: nat, ci: nat)
    requires PoolsValid(pools) && ci < |cats|
    ensures Library(cats[..ci + 1], pools, n) == Library(cats[..ci], pools, n) + Block(cats[ci], PoolFor(pools, cats[ci]), n)
  {
    var c := cats[ci];
    assert Blocks(cats[..ci + 1], pools, n) == Blocks(cats[..ci], pools, n) + [Block(c, PoolFor(pools, c), n)];
    FlattenSnoc(Blocks(cats[..ci], pools, n), Block(c, PoolFor(pools, c), n));
  }

  /** The body of generateLibrary's per-category callback: appends the
    * records of category `cat` with indices 1 to `n`, one at a time. */
  method AppendCategory(items: seq<Wallpaper>, cat: string, pool: seq<string>, n: nat)
    returns (out: seq<Wallpaper>)
    requires |pool| > 0
    ensures out == items + Block(cat, pool, n)
  {
    out := items;
    var i := 1;
    while i <= n
      invariant 1 <= i <= n + 1
      invariant out == items + Block(cat, pool, i - 1)
    {
      var videoUrl := pool[i % |pool|];
      var id := cat + "-" + NatToString(i);
      var tags := [cat, "premium", "4k", "ultra-hd", if i % 10 == 0 then "exclusive" else "popular"];
      var title := Capitalize(cat) + " #" + NatToString(i);
      var w := Wallpaper(id, videoUrl, "https://picsum.photos/seed/" + id + "/400/600", title, tags, Some(false));
      assert w == Entry(cat, pool, i);
      BlockSnoc(cat, pool, i);
      out := out + [w];
      i := i + 1;
    }
  }

  /** generateLibrary, with the category bar, the pools and the count as
    * parameters: every category but the first, in order, appends its records. */
  method GenerateLibrary(categoryIds: seq<string>, pools: map<string, seq<string>>, itemsPerCategory: nat)
    returns (items: seq<Wallpaper>)
    requires PoolsValid(pools)
    ensures items == Library(RealCategories(categoryIds), pools, itemsPerCategory)
  {
    items := [];
    var cats := RealCategories(categoryIds);
    var ci := 0;
    while ci < |cats|
      invariant 0 <= ci <= |cats|
      invariant items == Library(cats[..ci], pools, itemsPerCategory)
    {
      var cat := cats[ci];
      var pool := PoolFor(pools, cat);
      items := AppendCategory(items, cat, pool, itemsPerCategory);
      LibrarySnoc(cats, pools, itemsPerCategory, ci);
      ci := ci + 1;
    }
    assert cats[..|cats|] == cats;
  }

  /** Every record of the library carries an id that names one of its categories. */
  lemma LibraryIdCategory(cats: seq<string>, pools: map<string, seq<string>>, n: nat, w: Wallpaper)
    requires PoolsValid(pools)
    requires w in Library(cats, pools, n)
    ensures ParseGeneratedId(w.id).Some? && ParseGeneratedId(w.id).value.0 in cats
  {
    LibraryMember(cats, pools, n, w);
  }

  /** The library holds exactly `n` records per category. */
  lemma LibraryLength(cats: seq<string>, pools: map<string, seq<string>>, n: nat)
    requires PoolsValid(pools)
    ensures |Library(cats, pools, n)| == |cats| * n
  {
    FlattenLength(Blocks(cats, pools, n), n);
  }

  /** The record of category number `ci` and index `j + 1` sits at `ci * n + j`:
    * the order is category-major, then index-ascending. */
  lemma LibraryAt(cats: seq<string>, pools: map<string, seq<string>>, n: nat, ci: nat, j: nat)
    requires PoolsValid(pools)
    requires ci < |cats| && j < n
    ensures ci * n + j < |Library(cats, pools, n)|
    ensures Library(cats, pools, n)[ci * n + j] == Entry(cats[ci], PoolFor(pools, cats[ci]), j + 1)
  {
    FlattenAt(Blocks(cats, pools, n), n, ci, j);
  }

  /** Every position holds the record of some category and index in range,
    * at the place `LibraryAt` gives it. */
  lemma LibraryLocate(cats: seq<string>, pools: map<string, seq<string>>, n: nat, k: nat) returns (ci: nat, j: nat)
    requires PoolsValid(pools)
    requires k < |Library(cats, pools, n)|
    ensures ci < |cats| && j < n && k == ci * n + j
    ensures Library(cats, pools, n)[k] == Entry(cats[ci], PoolFor(pools, cats[ci]), j + 1)
  {
    ci, j := FlattenLocate(Blocks(cats, pools, n), n, k);
  }

  /** Every record of the library is the record its id names: the id splits
    * into a generated category and an index in range, and the record is
    * that category's record at that index. */
  lemma LibraryMember(cats: seq<string>, pools: map<string, seq<string>>, n: nat, w: Wallpaper)
    requires PoolsValid(pools)
    requires w in Library(cats, pools, n)
    ensures ParseGeneratedId(w.id).Some?
    ensures var (c, i) := ParseGeneratedId(w.id).value;
      c in cats && 1 <= i <= n && w == Entry(c, PoolFor(pools, c), i)
  {
    var bs := Blocks(cats, pools, n);
    var k := FlattenMember(bs, w);
    var j :| 0 <= j < n && bs[k][j] == w;
    EntryId(cats[k], PoolFor(pools, cats[k]), j + 1);
  }

  /** No two records of a sequence share an id. */
  ghost predicate IdsDistinct(ws: seq<Wallpaper>) {
    forall a, b :: 0 <= a < b < |ws| ==> ws[a].id != ws[b].id
  }

  /** The id of the record at position `ci * n + j` names category `ci` and index `j + 1`. */
  lemma LibraryIdAt(cats: seq<string>, pools: map<string, seq<string>>, n: nat, k: nat) returns (ci: nat, j: nat)
    requires PoolsValid(pools)
    requires k < |Library(cats, pools, n)|
    ensures ci < |cats| && j < n && k == ci * n + j
    ensures ParseGeneratedId(Library(cats, pools, n)[k].id) == Some((cats[ci], j + 1))
  {
    ci, j := LibraryLocate(cats, pools, n, k);
    EntryId(cats[ci], PoolFor(pools, cats[ci]), j + 1);
  }

  /** With distinct categories, ids are unique across the library. */
  lemma LibraryIdsDistinct(cats: seq<string>, pools: map<string, seq<string>>, n: nat)
    requires PoolsValid(pools)
    requires forall a, b :: 0 <= a < b < |cats| ==> cats[a] != cats[b]
    ensures IdsDistinct(Library(cats, pools, n))
  {
    var lib := Library(cats, pools, n);
    forall a, b | 0 <= a < b < |lib| ensures lib[a].id != lib[b].id {
      var ca, ja := LibraryIdAt(cats, pools, n, a);
      var cb, jb := LibraryIdAt(cats, pools, n, b);
      assert ca != cb || ja != jb;
    }
  }

  /** No generated record is local. */
  lemma LibraryNotLocal(cats: seq<string>, pools: map<string, seq<string>>, n: nat, w: Wallpaper)
    requires PoolsValid(pools)
    requires w in Library(cats, pools, n)
    ensures !IsLocal(w) && w.isLocal == Some(false)
  {
    LibraryMember(cats, pools, n, w);
  }

  /** The shipped constants: six categories of a thousand records, 6000 in
    * all, with unique ids and none of them local. */
  lemma ShippedLibrary()
    ensures PoolsValid(ASSET_POOLS)
    ensures RealCategories(CATEGORY_IDS) == ["cars", "nature", "sea", "cities", "cute", "animals"]
    ensures |Library(RealCategories(CATEGORY_IDS), ASSET_POOLS, ITEMS_PER_CATEGORY)| == 6000
    ensures IdsDistinct(Library(RealCategories(CATEGORY_IDS), ASSET_POOLS, ITEMS_PER_CATEGORY))
    ensures forall w :: w in Library(RealCategories(CATEGORY_IDS), ASSET_POOLS, ITEMS_PER_CATEGORY) ==> !IsLocal(w)
  {
    var cats := RealCategories(CATEGORY_IDS);
    LibraryLength(cats, ASSET_POOLS, ITEMS_PER_CATEGORY);
    LibraryIdsDistinct(cats, ASSET_POOLS, ITEMS_PER_CATEGORY);
    forall w | w in Library(cats, ASSET_POOLS, ITEMS_PER_CATEGORY) ensures !IsLocal(w) {
      LibraryNotLocal(cats, ASSET_POOLS, ITEMS_PER_CATEGORY, w);
    }
  }
}
