/** The gallery grid's two filter stages (App.tsx, filteredWallpapers) and the
  * choice of the wallpaper shown on the device (currentWallpaper). */
module Filter {
  import opened Types
  import opened Text
  import opened Sequences
  import opened Catalog

  /** The pseudo-category that switches the category stage off. */
  const ALL: string := "all"

  /** `wp.tags.includes(category)`: exact, case-sensitive tag membership. */
  function InCategory(category: string): Wallpaper -> bool {
    (w: Wallpaper) => category in w.tags
  }

  /** The category stage: everything for "all", else the records tagged with
    * the category, in their order. */
  function CategoryStage(ws: seq<Wallpaper>, category: string): (r: seq<Wallpaper>)
    ensures |r| <= |ws|
    ensures forall k :: 0 <= k < |r| ==> category == ALL || category in r[k].tags
  {
    if category == ALL then ws else Keep(ws, InCategory(category))
  }

  /** `tags.some(tag => tag.toLowerCase().includes(q))`. */
  function AnyTagIncludes(tags: seq<string>, q: string): (r: bool)
    ensures r <==> exists k :: 0 <= k < |tags| && Includes(Lower(tags[k]), q)
  {
    if tags == [] then false
    else if Includes(Lower(tags[0]), q) then true
    else
      assert forall k :: 1 <= k < |tags| ==> tags[k] == tags[1..][k - 1];
      AnyTagIncludes(tags[1..], q)
  }

  /** A record matches a (normalised) query when its lower-cased title or one
    * of its lower-cased tags contains it. */
  predicate MatchesQuery(w: Wallpaper, q: string) {
    Includes(Lower(w.title), q) || AnyTagIncludes(w.tags, q)
  }

  function Matching(q: string): Wallpaper -> bool {
    (w: Wallpaper) => MatchesQuery(w, q)
  }

  /** `searchQuery.trim()` is empty: the search stage is off. */
  predicate Blank(query: string) {
    Trim(query) == []
  }

  /** `searchQuery.toLowerCase().trim()`. */
  function NormalQuery(query: string): string {
    Trim(Lower(query))
  }

  /** The search stage: everything for a blank query, else the records that
    * match the normalised query, in their order. */
  function SearchStage(ws: seq<Wallpaper>, query: string): (r: seq<Wallpaper>)
    ensures |r| <= |ws|
    ensures forall k :: 0 <= k < |r| ==> Blank(query) || MatchesQuery(r[k], NormalQuery(query))
  {
    if Blank(query) then ws else Keep(ws, Matching(NormalQuery(query)))
  }

  /** filteredWallpapers: the category stage, then the search stage. */
  function FilteredWallpapers(ws: seq<Wallpaper>, category: string, query: string): seq<Wallpaper> {
    SearchStage(CategoryStage(ws, category), query)
  }

  /** What a record must satisfy to be shown: both stages' tests. */
  predicate Selected(w: Wallpaper, category: string, query: string) {
    && (category == ALL || category in w.tags)
    && (Blank(query) || MatchesQuery(w, NormalQuery(query)))
  }

  function Selection(category: string, query: string): Wallpaper -> bool {
    (w: Wallpaper) => Selected(w, category, query)
  }

  /** The two stages compose to a single filter by the conjunction of their
    * tests. */
  lemma FilteredIsKeep(ws: seq<Wallpaper>, category: string, query: string)
    ensures FilteredWallpapers(ws, category, query) == Keep(ws, Selection(category, query))
  {
    var sel := Selection(category, query);
    if category == ALL {
      if Blank(query) {
        KeepAll(ws, sel);
      } else {
        KeepCongruent(ws, Matching(NormalQuery(query)), sel);
      }
    } else {
      var cs := Keep(ws, InCategory(category));
      if Blank(query) {
        KeepCongruent(ws, InCategory(category), sel);
      } else {
        KeepKeep(ws, InCategory(category), Matching(NormalQuery(query)), sel);
      }
    }
  }

  /** The grid shows records of the list, in the list's order. */
  lemma FilteredIsSubsequence(ws: seq<Wallpaper>, category: string, query: string)
    ensures IsSubsequence(FilteredWallpapers(ws, category, query), ws)
  {
    FilteredIsKeep(ws, category, query);
    KeepIsSubsequence(ws, Selection(category, query));
  }

  /** A record is shown exactly when it is in the list, carries the category
    * tag (unless the category is "all") and matches the query (unless the
    * query is blank). */
  lemma FilteredMembership(ws: seq<Wallpaper>, category: string, query: string, w: Wallpaper)
    ensures w in FilteredWallpapers(ws, category, query) <==> w in ws && Selected(w, category, query)
  {
    FilteredIsKeep(ws, category, query);
    KeepMembership(ws, Selection(category, query), w);
  }

  /** With category "all" and a blank query the grid is the whole list. */
  lemma FilteredIdentity(ws: seq<Wallpaper>, query: string)
    requires Blank(query)
    ensures FilteredWallpapers(ws, ALL, query) == ws
  {
  }

  /** A query is blank exactly when its lower-cased form is. */
  lemma BlankLower(query: string)
    ensures Blank(Lower(query)) <==> Blank(query)
  {
    TrimLowerCommute(query);
  }

  /** The search ignores case: queries that lower-case alike show the same
    * records. */
  lemma SearchIgnoresCase(ws: seq<Wallpaper>, category: string, q1: string, q2: string)
    requires Lower(q1) == Lower(q2)
    ensures FilteredWallpapers(ws, category, q1) == FilteredWallpapers(ws, category, q2)
  {
    BlankLower(q1);
    BlankLower(q2);
  }

  /** The search ignores white space around the query. */
  lemma SearchIgnoresSurroundingSpace(ws: seq<Wallpaper>, category: string, query: string)
    ensures FilteredWallpapers(ws, category, Trim(query)) == FilteredWallpapers(ws, category, query)
  {
    TrimIdempotent(query);
    TrimLowerCommute(query);
    TrimLowerCommute(Trim(query));
  }

  /** `wallpapers.find(w => w.id === id)`, as a position: the first record
    * whose id is `id`, or nothing (always nothing for a null id). */
  function FindById(ws: seq<Wallpaper>, id: Option<string>): (r: Option<nat>)
    ensures r.Some? ==> id.Some? && r.value < |ws| && ws[r.value].id == id.value
    ensures r.Some? ==> forall j :: 0 <= j < r.value ==> ws[j].id != id.value
    ensures r.None? ==> id.None? || forall j :: 0 <= j < |ws| ==> ws[j].id != id.value
  {
    if ws == [] || id.None? then None
    else if ws[0].id == id.value then Some(0)
    else
      match FindById(ws[1..], id)
      case None => None
      case Some(k) => Some(k + 1)
  }

  /** currentWallpaper: the first record with the active id, else the first
    * record; there is none only when the list is empty. */
  function CurrentWallpaper(ws: seq<Wallpaper>, activeId: Option<string>): (r: Option<Wallpaper>)
    ensures r.None? <==> ws == []
    ensures r.Some? ==> r.value in ws
    ensures r.Some? && activeId.Some? && (exists k :: 0 <= k < |ws| && ws[k].id == activeId.value)
      ==> r.value.id == activeId.value
    ensures r.Some? && activeId.Some? && (exists k :: 0 <= k < |ws| && ws[k].id == activeId.value)
      ==> (exists k :: 0 <= k < |ws| && r.value == ws[k] && ws[k].id == activeId.value &&
             (forall j :: 0 <= j < k ==> ws[j].id != activeId.value))
    ensures ws != [] && (activeId.None? || forall k :: 0 <= k < |ws| ==> ws[k].id != activeId.value)
      ==> r == Some(ws[0])
  {
    match FindById(ws, activeId)
    case Some(k) => Some(ws[k])
    case None => if ws == [] then None else Some(ws[0])
  }

  /** When ids are unique, selecting a record of the list by its id makes it
    * the current wallpaper. */
  lemma CurrentOfDistinct(ws: seq<Wallpaper>, w: Wallpaper)
    requires w in ws && IdsDistinct(ws)
    ensures CurrentWallpaper(ws, Some(w.id)) == Some(w)
  {
    var k :| 0 <= k < |ws| && ws[k] == w;
    var r := CurrentWallpaper(ws, Some(w.id));
    var m :| 0 <= m < |ws| && ws[m] == r.value;
    assert !(m < k) && !(k < m);
  }

  /** Filtering the catalog by one of its categories gives exactly that
    * category's records, in index order, as long as the category's name is
    * not also one of the tags every record carries. */
  lemma LibraryCategory(cats: seq<string>, pools: map<string, seq<string>>, n: nat, ci: nat)
    requires PoolsValid(pools) && ci < |cats|
    requires forall a, b :: 0 <= a < b < |cats| ==> cats[a] != cats[b]
    requires cats[ci] != ALL && cats[ci] !in FIXED_TAGS && cats[ci] != "exclusive" && cats[ci] != "popular"
    ensures CategoryStage(Library(cats, pools, n), cats[ci]) == Block(cats[ci], PoolFor(pools, cats[ci]), n)
    ensures |CategoryStage(Library(cats, pools, n), cats[ci])| == n
  {
    var c := cats[ci];
    var bs := Blocks(cats, pools, n);
    forall k, x | 0 <= k < |bs| && x in bs[k] ensures InCategory(c)(x) <==> k == ci {
      var j :| 0 <= j < n && bs[k][j] == x;
      EntryTags(cats[k], PoolFor(pools, cats[k]), j + 1);
      assert k != ci ==> cats[k] != c;
    }
    KeepOneBlock(bs, InCategory(c), ci);
  }

  /** A single record is exclusive exactly when its index is a multiple of ten. */
  lemma ExclusiveEntry(c: string, pool: seq<string>, i: nat)
    requires |pool| > 0 && c != "exclusive"
    ensures InCategory("exclusive")(Entry(c, pool, i)) <==> i % 10 == 0
  {
    EntryTags(c, pool, i);
  }

  /** One more index adds one to the count of multiples of ten exactly when it is one. */
  lemma TenthStep(n: nat, before: nat, after: nat, hit: bool)
    requires n > 0 && before == (n - 1) / 10 && (hit <==> n % 10 == 0)
    requires after == before + if hit then 1 else 0
    ensures after == n / 10
  {
  }

  /** Every tenth record of a category is exclusive: `n / 10` of its first `n`. */
  lemma {:induction false} ExclusiveCount(c: string, pool: seq<string>, n: nat)
    requires |pool| > 0 && c != "exclusive"
    ensures |Keep(Block(c, pool, n), InCategory("exclusive"))| == n / 10
  {
    if n > 0 {
      var ex := InCategory("exclusive");
      var front, last := Block(c, pool, n - 1), Entry(c, pool, n);
      ExclusiveCount(c, pool, n - 1);
      BlockSnoc(c, pool, n);
      KeepSnocLength(front, last, ex);
      ExclusiveEntry(c, pool, n);
      TenthStep(n, |Keep(front, ex)|, |Keep(front + [last], ex)|, ex(last));
    }
  }

  /** When a category's stage is its block of records, it shows `n` records,
    * `n / 10` of them exclusive. */
  lemma CategoryExclusive(ws: seq<Wallpaper>, c: string, pool: seq<string>, n: nat)
    requires |pool| > 0 && c != "exclusive"
    requires CategoryStage(ws, c) == Block(c, pool, n)
    ensures |CategoryStage(ws, c)| == n
    ensures |Keep(CategoryStage(ws, c), InCategory("exclusive"))| == n / 10
  {
    ExclusiveCount(c, pool, n);
  }

  /** With the shipped constants, the category stage for one of the six
    * real categories is that category's block of the catalog. */
  lemma ShippedCategory(ci: nat) returns (c: string)
    requires ci < 6
    ensures c == RealCategories(CATEGORY_IDS)[ci]
    ensures c in ["cars", "nature", "sea", "cities", "cute", "animals"]
    ensures CategoryStage(Library(RealCategories(CATEGORY_IDS), ASSET_POOLS, ITEMS_PER_CATEGORY), c)
      == Block(c, PoolFor(ASSET_POOLS, c), ITEMS_PER_CATEGORY)
  {
    ShippedLibrary();
    var cats := RealCategories(CATEGORY_IDS);
    c := cats[ci];
    LibraryCategory(cats, ASSET_POOLS, ITEMS_PER_CATEGORY, ci);
  }

  /** With the shipped constants, each category button shows a thousand
    * records, a hundred of them exclusive. */
  lemma ShippedCategoryCounts(ci: nat)
    requires ci < 6
    ensures var cats := RealCategories(CATEGORY_IDS);
      var shown := CategoryStage(Library(cats, ASSET_POOLS, ITEMS_PER_CATEGORY), cats[ci]);
      |shown| == 1000 && |Keep(shown, InCategory("exclusive"))| == 100
  {
    var c := ShippedCategory(ci);
    CategoryExclusive(Library(RealCategories(CATEGORY_IDS), ASSET_POOLS, ITEMS_PER_CATEGORY),
      c, PoolFor(ASSET_POOLS, c), ITEMS_PER_CATEGORY);
  }

  /** A non-empty query of lower-case letters that the name does not contain
    * occurs nowhere in a title "name #digits": every window of its length
    * lies inside the name, or covers the space, or starts on '#' or a digit. */
  lemma TitleMisses(name: string, digits: string, q: string)
    requires |q| > 0 && !Includes(name, q)
    requires forall x :: x in q ==> IsLowerLetter(x)
    requires forall x :: x in digits ==> IsDigit(x)
    ensures !Includes(name + " #" + digits, q)
  {
    var hay := name + " #" + digits;
    assert hay[|name|] == ' ' && hay[|name| + 1] == '#';
    forall p: nat ensures !OccursAt(hay, q, p) {
      if p + |q| <= |hay| {
        if p + |q| <= |name| {
          assert hay[p..p + |q|] == name[p..p + |q|];
          assert !OccursAt(name, q, p);
        } else if p <= |name| + 1 {
          NonLetterBlocks(hay, q, p, |name| - p + if p == |name| + 1 then 1 else 0);
        } else {
          assert hay[p] == digits[p - |name| - 2];
          assert hay[p] in digits;
          NonLetterBlocks(hay, q, p, 0);
        }
      }
    }
  }

  /** A needle of lower-case letters does not occur where its window holds
    * some other character. */
  lemma NonLetterBlocks(hay: string, q: string, p: nat, j: nat)
    requires forall x :: x in q ==> IsLowerLetter(x)
    requires p + |q| <= |hay| && j < |q| && !IsLowerLetter(hay[p + j])
    ensures !OccursAt(hay, q, p)
  {
    assert hay[p..p + |q|][j] == hay[p + j];
    assert q[j] in q;
  }

  /** Of a record's tags, a search for "popular" finds the rank tag
    * "popular" and nothing else, when the category tag does not contain it. */
  lemma PopularInTags(c: string, i: nat)
    requires !Includes(Lower(c), "popular")
    ensures AnyTagIncludes([c] + FIXED_TAGS + [RankTag(i)], "popular") <==> i % 10 != 0
  {
    var q := "popular";
    var tags := [c] + FIXED_TAGS + [RankTag(i)];
    assert tags == [c, "premium", "4k", "ultra-hd", RankTag(i)];
    if i % 10 != 0 {
      LowerNoUpper(q);
      assert OccursAt(Lower(tags[4]), q, 0);
    } else {
      forall k | 0 <= k < |tags| ensures !Includes(Lower(tags[k]), q) {
        if k == 1 {
          forall p: nat ensures !OccursAt(Lower("premium"), q, p) {
            if p == 0 {
              assert Lower("premium")[..7][1] == 'r';
            }
          }
        } else if k == 3 {
          FirstCharMisses("ultra-hd", q);
        } else if k == 4 {
          FirstCharMisses("exclusive", q);
        }
      }
    }
  }

  /** A search for "popular" finds a generated record exactly when its index
    * is not a multiple of ten, for a category that does not contain the
    * word. */
  lemma PopularEntry(c: string, pool: seq<string>, i: nat)
    requires |pool| > 0 && !Includes(Lower(c), "popular")
    ensures MatchesQuery(Entry(c, pool, i), "popular") <==> i % 10 != 0
  {
    EntryTitle(c, pool, i);
    EntryTags(c, pool, i);
    TitleMisses(Lower(c), NatToString(i), "popular");
    PopularInTags(c, i);
  }

  /** A search for "popular" within one category finds its records that are
    * not exclusive: `n - n / 10` of its first `n`. */
  lemma PopularCount(c: string, pool: seq<string>, n: nat)
    requires |pool| > 0 && c != "exclusive" && !Includes(Lower(c), "popular")
    ensures |Keep(Block(c, pool, n), Matching("popular"))| == n - n / 10
  {
    var block := Block(c, pool, n);
    var ex := InCategory("exclusive");
    var notEx := (w: Wallpaper) => !ex(w);
    forall x | x in block ensures Matching("popular")(x) == notEx(x) {
      var j :| 0 <= j < n && block[j] == x;
      PopularEntry(c, pool, j + 1);
      ExclusiveEntry(c, pool, j + 1);
    }
    KeepCongruent(block, Matching("popular"), notEx);
    KeepComplement(block, ex, notEx);
    ExclusiveCount(c, pool, n);
  }

  /** "popular" is not blank and is its own normalised form. */
  lemma PopularQuery()
    ensures !Blank("popular") && NormalQuery("popular") == "popular"
  {
    LowerNoUpper("popular");
    TrimNoSpace("popular");
  }

  /** When a category's stage is its block of records, searching it for
    * "popular" leaves the records that are not exclusive. */
  lemma CategoryThenPopular(ws: seq<Wallpaper>, c: string, pool: seq<string>, n: nat)
    requires |pool| > 0 && c != "exclusive" && !Includes(Lower(c), "popular")
    requires CategoryStage(ws, c) == Block(c, pool, n)
    ensures |FilteredWallpapers(ws, c, "popular")| == n - n / 10
  {
    PopularQuery();
    PopularCount(c, pool, n);
  }

  /** No shipped category name contains "popular". */
  lemma ShippedNamesMissPopular(c: string)
    requires c in ["cars", "nature", "sea", "cities", "cute", "animals"]
    ensures !Includes(Lower(c), "popular")
  {
    FirstCharMisses(c, "popular");
  }

  /** With the shipped constants, a category button followed by the search
    * "popular" shows 900 records: the category's records that are not
    * exclusive. */
  lemma ShippedPopularCounts(ci: nat)
    requires ci < 6
    ensures var cats := RealCategories(CATEGORY_IDS);
      |FilteredWallpapers(Library(cats, ASSET_POOLS, ITEMS_PER_CATEGORY), cats[ci], "popular")| == 900
  {
    var c := ShippedCategory(ci);
    ShippedNamesMissPopular(c);
    CategoryThenPopular(Library(RealCategories(CATEGORY_IDS), ASSET_POOLS, ITEMS_PER_CATEGORY),
      c, PoolFor(ASSET_POOLS, c), ITEMS_PER_CATEGORY);
  }
}
