/** The category queries of lutris/database/categories.py that do more than
    pass SQL through: grouping the games_categories rows by game, merging the
    smart categories into the selected game ids, removing unused categories,
    and listing the smart categories with their ids.

    The database is a value: the games table's ids, the categories table,
    and the games_categories rows in the order the database returns them.
    Each SQL query is stated as the set of rows it selects. */
module Categories {
  import opened PyValues
  import opened Collections

  /** A row of games_categories. */
  datatype GameCategory = GameCategory(gameId: int, categoryId: int)

  /** The tables the queries read: game ids, category id to name, and the
      game/category links. */
  datatype Db = Db(games: set<int>, categories: map<int, string>, gamesCategories: seq<GameCategory>)

  // ---------------------------------------------------------------------
  // get_all_games_categories
  // ---------------------------------------------------------------------

  /** Some row links the game to a category. */
  predicate HasRow(rows: seq<GameCategory>, gameId: int) {
    exists j | 0 <= j < |rows| :: rows[j].gameId == gameId
  }

  /** The category ids of the game's rows, in row order. */
  function Bucket(rows: seq<GameCategory>, gameId: int): seq<int> {
    if rows == [] then []
    else
      var last := rows[|rows| - 1];
      Bucket(rows[..|rows| - 1], gameId) + if last.gameId == gameId then [last.categoryId] else []
  }

  /** A game's bucket holds its rows' category ids and nothing else, and is
      empty exactly when the game has no row. */
  lemma {:induction false} BucketContents(rows: seq<GameCategory>, gameId: int)
    ensures forall c :: c in Bucket(rows, gameId) <==> GameCategory(gameId, c) in rows
    ensures Bucket(rows, gameId) != [] <==> HasRow(rows, gameId)
  {
    if rows != [] {
      var n := |rows| - 1;
      BucketContents(rows[..n], gameId);
      assert rows == rows[..n] + [rows[n]];
      if HasRow(rows, gameId) && rows[n].gameId != gameId {
        var j :| 0 <= j < |rows| && rows[j].gameId == gameId;
        assert rows[..n][j].gameId == gameId;
      }
    }
  }

  /** Grouping rows that come one after another appends the second batch's
      category ids after the first's. */
  lemma {:induction false} BucketAppend(r1: seq<GameCategory>, r2: seq<GameCategory>, gameId: int)
    ensures Bucket(r1 + r2, gameId) == Bucket(r1, gameId) + Bucket(r2, gameId)
    decreases |r2|
  {
    if r2 == [] {
      assert r1 + r2 == r1;
    } else {
      var n := |r2| - 1;
      assert (r1 + r2)[..|r1 + r2| - 1] == r1 + r2[..n];
      assert (r1 + r2)[|r1 + r2| - 1] == r2[n];
      BucketAppend(r1, r2[..n], gameId);
    }
  }

  /** One row adds its category id to its own game's bucket and to no other. */
  lemma BucketOneRow(row: GameCategory, gameId: int)
    ensures Bucket([row], gameId) == if row.gameId == gameId then [row.categoryId] else []
  {
    assert [row][..0] == [];
  }

  /** The rows of the game with their indices. */
  function RowsOf(rows: seq<GameCategory>, gameId: int): set<int> {
    set j | 0 <= j < |rows| && rows[j].gameId == gameId
  }

  /** A game's bucket has one entry per row of the game. */
  lemma {:induction false} BucketLength(rows: seq<GameCategory>, gameId: int)
    ensures |Bucket(rows, gameId)| == |RowsOf(rows, gameId)|
  {
    if rows == [] {
      assert RowsOf(rows, gameId) == {};
    } else {
      var n := |rows| - 1;
      BucketLength(rows[..n], gameId);
      if rows[n].gameId == gameId {
        assert RowsOf(rows, gameId) == RowsOf(rows[..n], gameId) + {n};
      } else {
        assert RowsOf(rows, gameId) == RowsOf(rows[..n], gameId);
      }
    }
  }

  /** get_all_games_categories: the rows grouped by game, each game mapped
      to its category ids in row order. Only games with a row are keys. */
  method GetAllGamesCategories(rows: seq<GameCategory>) returns (groups: map<int, seq<int>>)
    ensures forall g :: g in groups <==> HasRow(rows, g)
    ensures forall g | g in groups :: groups[g] == Bucket(rows, g)
  {
    groups := map[];
    for i := 0 to |rows|
      invariant forall g :: g in groups <==> HasRow(rows[..i], g)
      invariant forall g | g in groups :: groups[g] == Bucket(rows[..i], g)
    {
      var row := rows[i];
      var bucket := if row.gameId in groups then groups[row.gameId] else [];
      if row.gameId !in groups {
        BucketContents(rows[..i], row.gameId);
      }
      assert bucket == Bucket(rows[..i], row.gameId);
      groups := groups[row.gameId := bucket + [row.categoryId]];
      PrefixStep(rows, i);
    }
    assert rows[..|rows|] == rows;
  }

  /** Extending the prefix by one row adds that row's game, and that row's
      category to its game's bucket. */
  lemma PrefixStep(rows: seq<GameCategory>, i: int)
    requires 0 <= i < |rows|
    ensures forall g :: HasRow(rows[..i + 1], g) <==> HasRow(rows[..i], g) || g == rows[i].gameId
    ensures forall g :: Bucket(rows[..i + 1], g) ==
                        Bucket(rows[..i], g) + if g == rows[i].gameId then [rows[i].categoryId] else []
  {
    var p := rows[..i + 1];
    assert p[..i] == rows[..i] && p[i] == rows[i];
    forall g | HasRow(p, g) && g != rows[i].gameId ensures HasRow(rows[..i], g) {
      var j :| 0 <= j < i + 1 && p[j].gameId == g;
      assert rows[..i][j].gameId == g;
    }
    forall g | HasRow(rows[..i], g) ensures HasRow(p, g) {
      var j :| 0 <= j < i && rows[..i][j].gameId == g;
      assert p[j].gameId == g;
    }
  }

  // ---------------------------------------------------------------------
  // get_game_ids_for_categories
  // ---------------------------------------------------------------------

  /** Some row links the game to a category whose name is one of `names`
      (the join of games_categories with categories, filtered by name). */
  predicate InCategoryNamed(db: Db, gameId: int, names: seq<string>) {
    exists j | 0 <= j < |db.gamesCategories| ::
      var row := db.gamesCategories[j];
      row.gameId == gameId && row.categoryId in db.categories && db.categories[row.categoryId] in names
  }

  /** The SQL part: games in one of the included categories (every game
      when `included` is None or empty), less the games in an excluded
      category. */
  function QueryIds(db: Db, included: Option<seq<string>>, excluded: Option<seq<string>>): (r: set<int>)
    ensures r <= db.games
  {
    var base := if included.Some? && included.value != [] then
                  set g | g in db.games && InCategoryNamed(db, g, included.value)
                else db.games;
    if excluded.Some? && excluded.value != [] then
      set g | g in base && !InCategoryNamed(db, g, excluded.value)
    else base
  }

  /** A game is selected by the query exactly when it is in an included
      category (or nothing is included) and in no excluded category. */
  lemma QueryIdsMembers(db: Db, included: Option<seq<string>>, excluded: Option<seq<string>>)
    ensures forall g :: g in QueryIds(db, included, excluded) <==>
              g in db.games &&
              (included.Some? && included.value != [] ==> InCategoryNamed(db, g, included.value)) &&
              (excluded.Some? && excluded.value != [] ==> !InCategoryNamed(db, g, excluded.value))
  {
  }

  /** The smart categories, computed from a rule rather than stored. */
  datatype SmartCategory = SmartUncategorized

  const SmartCategories: seq<SmartCategory> := [SmartUncategorized]

  function SmartName(category: SmartCategory): string {
    match category
    case SmartUncategorized => "UNCATEGORIZED"
  }

  /** The games the smart category resolves to: for Uncategorized, the games
      without any games_categories row. */
  function SmartGames(category: SmartCategory, db: Db): (r: set<int>)
    ensures r <= db.games
  {
    match category
    case SmartUncategorized => set g | g in db.games && !HasRow(db.gamesCategories, g)
  }

  /** A smart category is merged unless it is excluded, or `included` is
      given and does not name it. */
  predicate SmartSelected(category: SmartCategory, included: Option<seq<string>>,
                          excluded: Option<seq<string>>) {
    !(excluded.Some? && SmartName(category) in excluded.value) &&
    !(included.Some? && SmartName(category) !in included.value)
  }

  /** The union of the selected smart categories' games among `categories`. */
  function SmartIds(categories: seq<SmartCategory>, db: Db, included: Option<seq<string>>,
                    excluded: Option<seq<string>>): set<int>
  {
    if categories == [] then {}
    else
      var n := |categories| - 1;
      SmartIds(categories[..n], db, included, excluded) +
      if SmartSelected(categories[n], included, excluded) then SmartGames(categories[n], db) else {}
  }

  /** The merged smart games are those of the selected smart categories. */
  lemma {:induction false} SmartIdsMembers(categories: seq<SmartCategory>, db: Db,
                                          included: Option<seq<string>>, excluded: Option<seq<string>>)
    ensures forall g :: g in SmartIds(categories, db, included, excluded) <==>
              exists i | 0 <= i < |categories| ::
                SmartSelected(categories[i], included, excluded) && g in SmartGames(categories[i], db)
  {
    if categories != [] {
      var n := |categories| - 1;
      SmartIdsMembers(categories[..n], db, included, excluded);
      assert forall i | 0 <= i < n :: categories[..n][i] == categories[i];
    }
  }

  /** What get_game_ids_for_categories selects: the query's games and the
      games of every selected smart category. */
  function SelectedIds(db: Db, included: Option<seq<string>>, excluded: Option<seq<string>>): set<int> {
    QueryIds(db, included, excluded) + SmartIds(SmartCategories, db, included, excluded)
  }

  /** get_game_ids_for_categories: the selected game ids, sorted, each once. */
  method GetGameIdsForCategories(db: Db, included: Option<seq<string>>, excluded: Option<seq<string>>)
    returns (ids: seq<int>)
    ensures StrictlyIncreasing(ids)
    ensures forall g :: g in ids <==> g in SelectedIds(db, included, excluded)
  {
    var result := MergeSmartCategories(db, included, excluded);
    ids := SortedList(result);
  }

  /** The loop of get_game_ids_for_categories that adds the games of each
      smart category that is neither excluded nor left out of `included`. */
  method MergeSmartCategories(db: Db, included: Option<seq<string>>, excluded: Option<seq<string>>)
    returns (result: set<int>)
    ensures result == SelectedIds(db, included, excluded)
  {
    result := QueryIds(db, included, excluded);
    for i := 0 to |SmartCategories|
      invariant result == QueryIds(db, included, excluded) + SmartIds(SmartCategories[..i], db, included, excluded)
    {
      assert SmartCategories[..i + 1][..i] == SmartCategories[..i];
      var category := SmartCategories[i];
      assert SmartIds(SmartCategories[..i + 1], db, included, excluded) ==
             SmartIds(SmartCategories[..i], db, included, excluded) +
             (if SmartSelected(category, included, excluded) then SmartGames(category, db) else {});
      if excluded.Some? && SmartName(category) in excluded.value {
        continue;
      }
      if included.Some? && SmartName(category) !in included.value {
        continue;
      }
      result := result + SmartGames(category, db);
    }
    assert SmartCategories[..|SmartCategories|] == SmartCategories;
  }

  /** Only games of the games table are ever selected. */
  lemma SelectedIdsAreGames(db: Db, included: Option<seq<string>>, excluded: Option<seq<string>>)
    ensures SelectedIds(db, included, excluded) <= db.games
  {
    SmartIdsMembers(SmartCategories, db, included, excluded);
    var smart := SmartIds(SmartCategories, db, included, excluded);
    forall g | g in smart ensures g in db.games {
      var i :| 0 <= i < |SmartCategories| && SmartSelected(SmartCategories[i], included, excluded) &&
               g in SmartGames(SmartCategories[i], db);
    }
  }

  /** An empty `included` list falls back to every game in the query but
      drops the smart categories, whereas None keeps them: with nothing
      excluded, None selects every game, and the empty list also selects
      every game because Uncategorized games are games. */
  lemma EmptyIncludedDropsSmartCategories(db: Db, excluded: Option<seq<string>>)
    ensures SelectedIds(db, Some([]), excluded) == QueryIds(db, None, excluded)
    ensures SelectedIds(db, None, excluded) ==
            QueryIds(db, None, excluded) +
            (if SmartSelected(SmartUncategorized, None, excluded) then SmartGames(SmartUncategorized, db) else {})
    ensures SelectedIds(db, None, None) == db.games
  {
    assert SmartCategories[..0] == [];
    assert SmartIds(SmartCategories, db, Some([]), excluded) == {};
    assert QueryIds(db, Some([]), excluded) == QueryIds(db, None, excluded);
    assert SmartIds(SmartCategories, db, None, excluded) ==
           {} + (if SmartSelected(SmartUncategorized, None, excluded) then SmartGames(SmartUncategorized, db) else {});
    assert QueryIds(db, None, None) == db.games;
    assert SmartIds(SmartCategories, db, None, None) == {} + SmartGames(SmartUncategorized, db);
    assert SmartGames(SmartUncategorized, db) <= db.games;
  }

  /** Excluding "UNCATEGORIZED" removes exactly the smart category's
      contribution: only games the SQL query selects remain. */
  lemma ExcludedSmartCategoryIsDropped(db: Db, included: Option<seq<string>>, excluded: seq<string>)
    requires "UNCATEGORIZED" in excluded
    ensures SelectedIds(db, included, Some(excluded)) == QueryIds(db, included, Some(excluded))
  {
    assert SmartCategories[..0] == [];
    assert SmartIds(SmartCategories, db, included, Some(excluded)) == {};
  }

  // ---------------------------------------------------------------------
  // remove_unused_categories
  // ---------------------------------------------------------------------

  /** No games_categories row refers to the category. */
  predicate Unused(db: Db, categoryId: int) {
    forall j | 0 <= j < |db.gamesCategories| :: db.gamesCategories[j].categoryId != categoryId
  }

  /** The categories table after removing the unused categories other than
      "favorite". */
  function KeptCategories(db: Db): map<int, string> {
    map c | c in db.categories && (!Unused(db, c) || db.categories[c] == "favorite") :: db.categories[c]
  }

  /** remove_unused_categories: the query lists the unused categories (in
      an order the database chooses), and each is deleted unless it is named
      "favorite". */
  method RemoveUnusedCategories(db: Db) returns (categories: map<int, string>)
    ensures categories == KeptCategories(db)
    ensures forall c | c in db.categories && db.categories[c] == "favorite" :: c in categories
    ensures forall c | c in db.categories && !Unused(db, c) :: c in categories
    ensures forall c | c in db.categories && c !in categories :: Unused(db, c)
    ensures forall c | c in categories :: c in db.categories && categories[c] == db.categories[c]
  {
    var emptyCategories := ListOf(set c | c in db.categories && Unused(db, c));
    categories := db.categories;
    for i := 0 to |emptyCategories|
      invariant forall c :: c in categories <==>
                  c in db.categories && !(c in emptyCategories[..i] && db.categories[c] != "favorite")
      invariant forall c | c in categories :: categories[c] == db.categories[c]
    {
      assert emptyCategories[..i + 1] == emptyCategories[..i] + [emptyCategories[i]];
      var categoryId := emptyCategories[i];
      assert categoryId in emptyCategories;
      if db.categories[categoryId] == "favorite" {
        continue;
      }
      categories := categories - {categoryId};
    }
    assert emptyCategories[..|emptyCategories|] == emptyCategories;
    forall c ensures c in categories <==> c in KeptCategories(db) {
      assert c in emptyCategories <==> c in db.categories && Unused(db, c);
    }
  }

  // ---------------------------------------------------------------------
  // Smart category ids and get_categories
  // ---------------------------------------------------------------------

  function DigitChar(d: nat): char
    requires d < 10
  {
    "0123456789"[d]
  }

  predicate IsDigit(c: char) {
    '0' <= c <= '9'
  }

  function DigitValue(c: char): nat
    requires IsDigit(c)
  {
    (c as int) - ('0' as int)
  }

  /** str(n) for a natural number. */
  function NatToString(n: nat): (r: string)
    ensures r != "" && forall i | 0 <= i < |r| :: IsDigit(r[i])
  {
    if n < 10 then [DigitChar(n)] else NatToString(n / 10) + [DigitChar(n % 10)]
  }

  /** int(s) for a string of decimal digits. */
  function ParseNat(s: string): nat
    requires forall i | 0 <= i < |s| :: IsDigit(s[i])
  {
    if s == "" then 0
    else ParseNat(s[..|s| - 1]) * 10 + DigitValue(s[|s| - 1])
  }

  /** Reading back the decimal form of n gives n. */
  lemma {:induction false} ParseNatToString(n: nat)
    ensures ParseNat(NatToString(n)) == n
  {
    var s := NatToString(n);
    if n >= 10 {
      ParseNatToString(n / 10);
      assert s[..|s| - 1] == NatToString(n / 10);
    }
  }

  const SmartIdPrefix := "smart-category-"

  /** The id of the smart category at position i: "smart-category-<i>". */
  function SmartCategoryId(i: nat): string {
    SmartIdPrefix + NatToString(i)
  }

  /** Smart category ids are distinct and are never the decimal form of a
      number, so they cannot clash with the ids of stored categories. */
  lemma SmartCategoryIdsDistinct(i: nat, j: nat)
    ensures SmartCategoryId(i) == SmartCategoryId(j) <==> i == j
    ensures !IsDigit(SmartCategoryId(i)[0])
  {
    if SmartCategoryId(i) == SmartCategoryId(j) {
      var n := |SmartIdPrefix|;
      assert NatToString(i) == SmartCategoryId(i)[n..];
      assert NatToString(j) == SmartCategoryId(j)[n..];
      ParseNatToString(i);
      ParseNatToString(j);
    }
  }

  /** A category as get_categories lists it: stored ones by their integer
      id, smart ones by their string id. */
  datatype CategoryId = StoredId(id: int) | SmartId(name: string)
  datatype CategoryEntry = CategoryEntry(id: CategoryId, name: string)

  /** `stored` is the categories table as db_select returns it: every
      category of the database exactly once, with its name. */
  predicate IsCategoriesTable(db: Db, stored: seq<(int, string)>) {
    && (forall i | 0 <= i < |stored| :: stored[i].0 in db.categories && db.categories[stored[i].0] == stored[i].1)
    && (forall id | id in db.categories :: exists i | 0 <= i < |stored| :: stored[i].0 == id)
    && (forall i, j | 0 <= i < j < |stored| :: stored[i].0 != stored[j].0)
  }

  /** get_categories: the stored categories, in the order the database
      returns them, followed by the smart categories with their ids; then
      (the loop's `else` clause) the unused categories are removed. The
      list returned is the one read before the removal. */
  method GetCategories(db: Db, stored: seq<(int, string)>)
    returns (categories: seq<CategoryEntry>, remaining: map<int, string>)
    requires IsCategoriesTable(db, stored)
    ensures |categories| == |stored| + |SmartCategories|
    ensures forall i | 0 <= i < |stored| :: categories[i] == CategoryEntry(StoredId(stored[i].0), stored[i].1)
    ensures forall i | 0 <= i < |SmartCategories| ::
              categories[|stored| + i] == CategoryEntry(SmartId(SmartCategoryId(i)), SmartName(SmartCategories[i]))
    ensures remaining == KeptCategories(db)
  {
    categories := seq(|stored|, i requires 0 <= i < |stored| => CategoryEntry(StoredId(stored[i].0), stored[i].1));
    for i := 0 to |SmartCategories|
      invariant |categories| == |stored| + i
      invariant forall k | 0 <= k < |stored| :: categories[k] == CategoryEntry(StoredId(stored[k].0), stored[k].1)
      invariant forall k | 0 <= k < i ::
                  categories[|stored| + k] == CategoryEntry(SmartId(SmartCategoryId(k)), SmartName(SmartCategories[k]))
    {
      categories := categories + [CategoryEntry(SmartId(SmartCategoryId(i)), SmartName(SmartCategories[i]))];
    }
    remaining := RemoveUnusedCategories(db);
  }
}
