/**
 * The catalog store of lib/library.go. The key/value buckets become maps:
 * `components` (catalog id -> part), `categories` (category -> ids),
 * the three value indexes (bucket name -> value -> ids), the
 * component associations (board key -> catalog id) and the package
 * associations (board package -> catalog package).
 *
 * Each lookup is specified by a function over the bucket maps; the
 * `Library` methods are proved against those functions.
 */
module Catalog {
  import opened Wrappers
  import opened Text
  import opened Numbers
  import opened Parts

  type Components = map<string, LibraryComponent>
  type IdLists = map<string, seq<int>>
  type Indexes = map<string, IdLists>
  type Row = seq<string>

  // ---------------------------------------------------------------- buckets

  /** The `iprefixes` table: the value-index bucket of each indexed designator class. */
  function IndexBucket(prefix: string): (r: Option<string>)
    ensures r.Some? <==> prefix in {"R", "C", "L"}
    ensures r.Some? ==> r.value in IndexBucketNames
  {
    if prefix == "R" then Some("index-resistors")
    else if prefix == "C" then Some("index-capacitors")
    else if prefix == "L" then Some("index-inductors")
    else None
  }

  const IndexBucketNames: set<string> := {"index-resistors", "index-capacitors", "index-inductors"}

  /** The three index buckets, freshly created. */
  const EmptyIndexes: Indexes := map["index-resistors" := map[], "index-capacitors" := map[], "index-inductors" := map[]]

  /**
   * The store invariant: every part sits under its own catalog id, the
   * three index buckets exist, and every id in a category list or an
   * index list names a stored part.
   */
  predicate StoreValid(components: Components, categories: IdLists, indexes: Indexes) {
    && (forall k | k in components :: components[k].CID() == k)
    && (forall c, i | c in categories && 0 <= i < |categories[c]| :: CidOf(categories[c][i]) in components)
    && indexes.Keys == IndexBucketNames
    && (forall b, v, i | b in indexes && v in indexes[b] && 0 <= i < |indexes[b][v]| :: CidOf(indexes[b][v][i]) in components)
  }

  /** Under the store invariant, every listed id resolves to a part carrying that id. */
  lemma ListedIdsResolve(components: Components, categories: IdLists, indexes: Indexes)
    requires StoreValid(components, categories, indexes)
    ensures forall c, i | c in categories && 0 <= i < |categories[c]| ::
      components[CidOf(categories[c][i])].id == categories[c][i]
    ensures forall b, v, i | b in indexes && v in indexes[b] && 0 <= i < |indexes[b][v]| ::
      components[CidOf(indexes[b][v][i])].id == indexes[b][v][i]
  {
    forall c, i | c in categories && 0 <= i < |categories[c]|
      ensures components[CidOf(categories[c][i])].id == categories[c][i]
    {
      CidInjective(components[CidOf(categories[c][i])].id, categories[c][i]);
    }
    forall b, v, i | b in indexes && v in indexes[b] && 0 <= i < |indexes[b][v]|
      ensures components[CidOf(indexes[b][v][i])].id == indexes[b][v][i]
    {
      CidInjective(components[CidOf(indexes[b][v][i])].id, indexes[b][v][i]);
    }
  }

  // ---------------------------------------------------------------- import

  /** `fromID`: one leading "C" dropped, the rest read by `Atoi`; 0 when that fails. */
  function FromId(id: string): (r: int)
    ensures IsInt64(r)
    ensures Atoi(TrimPrefix(id, "C")).None? ==> r == 0
    ensures Atoi(TrimPrefix(id, "C")).Some? ==> r == Atoi(TrimPrefix(id, "C")).value
  {
    match Atoi(TrimPrefix(id, "C"))
    case Some(n) => n
    case None => 0
  }

  /** One "C" is dropped, not two; an empty or non-numeric id reads as 0. */
  lemma FromIdExamples()
    ensures FromId("C12") == 12 && FromId("12") == 12
    ensures FromId("") == 0 && FromId("C") == 0 && FromId("CC5") == 0 && FromId("C-") == 0
  {
    assert TrimPrefix("C12", "C") == "12";
    assert TrimPrefix("CC5", "C") == "C5";
    assert TrimPrefix("C", "C") == "";
    assert TrimPrefix("C-", "C") == "-";
    assert DigitsValue("12") == DigitsValue("1") * 10 + 2;
  }

  /** `fromID` reads back every 64-bit id that `CID` wrote. */
  lemma FromIdOfCid(n: int)
    requires IsInt64(n)
    ensures FromId(CidOf(n)) == n
  {
    assert TrimPrefix(CidOf(n), "C") == FormatInt(n);
    FormatIntRoundTrip(n);
  }

  /** A file name `Import` accepts: ends in .csv, .xls or .xlsx, ignoring case. */
  predicate KnownFileType(src: string) {
    var lower := ToLowerAscii(src);
    HasSuffix(lower, ".csv") || HasSuffix(lower, ".xls") || HasSuffix(lower, ".xlsx")
  }

  /** A catalog row with the nine columns `Import` reads. */
  predicate Accepted(row: Row) {
    |row| >= 9
  }

  /** The part a catalog row describes: columns id, categories, part, package, joints, maker, type, description. */
  function ComponentOfRow(row: Row): (c: LibraryComponent)
    requires Accepted(row)
    ensures c.id == FromId(row[0]) && c.firstCategory == row[1] && c.secondCategory == row[2]
    ensures c.part == row[3] && c.package == row[4] && c.solderJoint == row[5] && c.manufacturer == row[6]
    ensures c.libraryType == row[7] && c.description == row[8] && c.rotation == 0.0
  {
    LibraryComponent(FromId(row[0]), row[1], row[2], row[3], row[4], row[5], row[6], row[7], row[8], 0.0)
  }

  /** A part that goes into a value index: a Basic part of class C, R or L with a value. */
  predicate IsIndexed(c: LibraryComponent) {
    c.libraryType == "Basic" && c.Prefix() != "" && c.Value() != ""
  }

  /** `m[key] = append(m[key], id)`, creating the list when the key is new. */
  function Appended(m: IdLists, key: string, id: int): (r: IdLists)
    ensures r.Keys == m.Keys + {key}
    ensures r[key] == (if key in m then m[key] else []) + [id]
    ensures forall k | k in m && k != key :: r[k] == m[k]
  {
    m[key := (if key in m then m[key] else []) + [id]]
  }

  /** The components bucket after storing the accepted rows in order. */
  function ImportedCatalog(rows: seq<Row>): Components {
    if rows == [] then map[]
    else
      var before := ImportedCatalog(rows[..|rows| - 1]);
      var row := rows[|rows| - 1];
      if !Accepted(row) then before
      else
        var c := ComponentOfRow(row);
        before[c.CID() := c]
  }

  /** The category lists built from the accepted rows: each id is appended under its first, then its second category. */
  function ImportedCategories(rows: seq<Row>): IdLists {
    if rows == [] then map[]
    else
      var before := ImportedCategories(rows[..|rows| - 1]);
      var row := rows[|rows| - 1];
      if !Accepted(row) then before
      else
        var c := ComponentOfRow(row);
        Appended(Appended(before, c.firstCategory, c.id), c.secondCategory, c.id)
  }

  /** The three in-memory value indexes of an import, one per designator class, before the final transaction. */
  const NoIndexes: Indexes := map["R" := map[], "C" := map[], "L" := map[]]

  /** One row's contribution to the in-memory indexes: a Basic part of class C, R or L is appended under its value. */
  function IndexRow(byClass: Indexes, row: Row): (r: Indexes)
    requires byClass.Keys == NoIndexes.Keys
    ensures r.Keys == NoIndexes.Keys
  {
    if Accepted(row) && IsIndexed(ComponentOfRow(row)) then
      var c := ComponentOfRow(row);
      byClass[c.Prefix() := Appended(byClass[c.Prefix()], c.Value(), c.id)]
    else byClass
  }

  /** The in-memory indexes after the accepted rows, in order. */
  function ByClass(rows: seq<Row>): (r: Indexes)
    ensures r.Keys == NoIndexes.Keys
  {
    if rows == [] then NoIndexes else IndexRow(ByClass(rows[..|rows| - 1]), rows[|rows| - 1])
  }

  /** The value index of one designator class built from the accepted rows. */
  function ImportedIndex(rows: seq<Row>, prefix: string): IdLists {
    if prefix in ByClass(rows) then ByClass(rows)[prefix] else map[]
  }

  /** One more row changes one class's index at most, by appending the row's id under its value. */
  lemma ImportedIndexStep(rows: seq<Row>, prefix: string)
    requires rows != []
    ensures var row := rows[|rows| - 1];
      ImportedIndex(rows, prefix) ==
        if Accepted(row) && IsIndexed(ComponentOfRow(row)) && ComponentOfRow(row).Prefix() == prefix then
          Appended(ImportedIndex(rows[..|rows| - 1], prefix), ComponentOfRow(row).Value(), ComponentOfRow(row).id)
        else ImportedIndex(rows[..|rows| - 1], prefix)
  {
  }

  /** The three index buckets after the final transaction of an import. */
  function ImportedIndexes(rows: seq<Row>): Indexes {
    map["index-resistors" := ImportedIndex(rows, "R"),
        "index-capacitors" := ImportedIndex(rows, "C"),
        "index-inductors" := ImportedIndex(rows, "L")]
  }

  /** The row is accepted and describes the part stored under `key`. */
  predicate RowFor(row: Row, key: string) {
    Accepted(row) && ComponentOfRow(row).CID() == key
  }

  /** The index of the last accepted row describing the part stored under `key`, or -1 when there is none. */
  function LastRowFor(rows: seq<Row>, key: string): (r: int)
    ensures -1 <= r < |rows|
    ensures r >= 0 ==> RowFor(rows[r], key)
    ensures forall j | r < j < |rows| :: !RowFor(rows[j], key)
  {
    if rows == [] then -1
    else if RowFor(rows[|rows| - 1], key) then |rows| - 1
    else
      var r := LastRowFor(rows[..|rows| - 1], key);
      NoneAfterSnoc(rows, rows[..|rows| - 1], row => RowFor(row, key), r);
      r
  }

  /** No element after index r satisfies p when that holds of all but the last element, and not of the last. */
  lemma NoneAfterSnoc<T>(xs: seq<T>, front: seq<T>, p: T -> bool, r: int)
    requires xs != [] && front == xs[..|xs| - 1] && -1 <= r && !p(xs[|xs| - 1])
    requires forall j | r < j < |front| :: !p(front[j])
    ensures forall j | r < j < |xs| :: !p(xs[j])
  {
    forall j | r < j < |front| ensures !p(xs[j]) {
      assert front[j] == xs[j];
    }
  }

  /**
   * A catalog id is stored exactly when some accepted row carries it, and
   * the stored part is the one described by the last such row.
   */
  lemma {:induction false} ImportedCatalogRows(rows: seq<Row>, key: string)
    ensures key in ImportedCatalog(rows) <==> LastRowFor(rows, key) >= 0
    ensures key in ImportedCatalog(rows) ==> ImportedCatalog(rows)[key] == ComponentOfRow(rows[LastRowFor(rows, key)])
  {
    if rows != [] {
      ImportedCatalogRows(rows[..|rows| - 1], key);
    }
  }

  /** Every accepted row's part is stored under its catalog id. */
  lemma RowStored(rows: seq<Row>, j: nat)
    requires j < |rows| && Accepted(rows[j])
    ensures ComponentOfRow(rows[j]).CID() in ImportedCatalog(rows)
  {
    ImportedCatalogRows(rows, ComponentOfRow(rows[j]).CID());
  }

  /** Every imported part sits under its own catalog id. */
  lemma ImportedUnderOwnCid(rows: seq<Row>)
    ensures forall k | k in ImportedCatalog(rows) :: ImportedCatalog(rows)[k].CID() == k
  {
    forall k | k in ImportedCatalog(rows) ensures ImportedCatalog(rows)[k].CID() == k {
      ImportedCatalogRows(rows, k);
    }
  }

  /** The ids one row contributes to a category list. */
  function RowCategoryIds(row: Row, category: string): seq<int> {
    if !Accepted(row) then []
    else
      var c := ComponentOfRow(row);
      (if c.firstCategory == category then [c.id] else []) + (if c.secondCategory == category then [c.id] else [])
  }

  /** Reference definition of one category's list: the ids of the rows in that category, in row order. */
  function CategoryIds(rows: seq<Row>, category: string): seq<int> {
    if rows == [] then [] else CategoryIds(rows[..|rows| - 1], category) + RowCategoryIds(rows[|rows| - 1], category)
  }

  /** The imported category lists are exactly the per-category row lists, and only non-empty ones exist. */
  lemma {:induction false} ImportedCategoriesLists(rows: seq<Row>, category: string)
    ensures category in ImportedCategories(rows) <==> CategoryIds(rows, category) != []
    ensures category in ImportedCategories(rows) ==> ImportedCategories(rows)[category] == CategoryIds(rows, category)
  {
    if rows != [] {
      var front := rows[..|rows| - 1];
      var row := rows[|rows| - 1];
      ImportedCategoriesLists(front, category);
      if Accepted(row) {
        var c := ComponentOfRow(row);
        AppendedTwice(ImportedCategories(front), c.firstCategory, c.secondCategory, c.id, category, CategoryIds(front, category));
      }
    }
  }

  /** Appending an id under two categories extends one category's list by the id once per match. */
  lemma AppendedTwice(m: IdLists, first: string, second: string, id: int, category: string, ids: seq<int>)
    requires category in m <==> ids != []
    requires category in m ==> m[category] == ids
    ensures var r := Appended(Appended(m, first, id), second, id);
      var added := ids + (if first == category then [id] else []) + (if second == category then [id] else []);
      (category in r <==> added != []) && (category in r ==> r[category] == added)
  {
    if first == category && second != category {
      assert ids + [id] + [] == ids + [id];
    } else if first != category && second == category {
      assert ids + [] + [id] == ids + [id];
    } else if first != category {
      assert ids + [] + [] == ids;
    }
  }

  /** An accepted row naming the category as its first or second category. */
  predicate NamesCategory(row: Row, category: string) {
    Accepted(row) && (row[1] == category || row[2] == category)
  }

  /** A category's reference list is non-empty exactly when some accepted row names it. */
  lemma {:induction false} CategoryIdsNonEmpty(rows: seq<Row>, category: string)
    ensures CategoryIds(rows, category) != [] <==> exists j | 0 <= j < |rows| :: NamesCategory(rows[j], category)
  {
    if rows != [] {
      var n := |rows| - 1;
      CategoryIdsNonEmpty(rows[..n], category);
      ExistsSnoc(rows, row => NamesCategory(row, category));
      assert RowCategoryIds(rows[n], category) != [] <==> NamesCategory(rows[n], category);
    }
  }

  /**
   * The category lists hold the empty name, which the store refuses as a
   * key, exactly when an accepted row has an empty first or second category.
   */
  lemma EmptyCategoryName(rows: seq<Row>)
    ensures "" in ImportedCategories(rows) <==> exists j | 0 <= j < |rows| :: NamesCategory(rows[j], "")
  {
    ImportedCategoriesLists(rows, "");
    CategoryIdsNonEmpty(rows, "");
  }

  /** Some element satisfies p exactly when some element before the last does, or the last one does. */
  lemma ExistsSnoc<T>(xs: seq<T>, p: T -> bool)
    requires xs != []
    ensures var n := |xs| - 1;
      (exists j | 0 <= j < |xs| :: p(xs[j])) <==> (exists j | 0 <= j < n :: p(xs[..n][j])) || p(xs[n])
  {
    var n := |xs| - 1;
    if exists j | 0 <= j < |xs| :: p(xs[j]) {
      var j :| 0 <= j < |xs| && p(xs[j]);
      if j < n {
        assert xs[..n][j] == xs[j];
      }
    }
    if exists j | 0 <= j < n :: p(xs[..n][j]) {
      var j :| 0 <= j < n && p(xs[..n][j]);
      assert xs[..n][j] == xs[j];
    }
  }

  /** No index holds a list under the empty value: an indexed part has a value. */
  lemma {:induction false} ByClassNoEmptyValue(rows: seq<Row>)
    ensures forall p | p in ByClass(rows) :: "" !in ByClass(rows)[p]
  {
    if rows != [] {
      ByClassNoEmptyValue(rows[..|rows| - 1]);
    }
  }

  /** The ids one row contributes to the list of a value in the index of a class. */
  function RowIndexIds(row: Row, prefix: string, value: string): seq<int> {
    if !Accepted(row) then []
    else
      var c := ComponentOfRow(row);
      if IsIndexed(c) && c.Prefix() == prefix && c.Value() == value then [c.id] else []
  }

  /** Reference definition of one index list: the ids of the Basic rows of that class and value, in row order. */
  function IndexIds(rows: seq<Row>, prefix: string, value: string): seq<int> {
    if rows == [] then [] else IndexIds(rows[..|rows| - 1], prefix, value) + RowIndexIds(rows[|rows| - 1], prefix, value)
  }

  /** The imported index of a class holds exactly the non-empty per-value row lists. */
  lemma {:induction false} ImportedIndexLists(rows: seq<Row>, prefix: string, value: string)
    ensures value in ImportedIndex(rows, prefix) <==> IndexIds(rows, prefix, value) != []
    ensures value in ImportedIndex(rows, prefix) ==> ImportedIndex(rows, prefix)[value] == IndexIds(rows, prefix, value)
  {
    if rows != [] {
      ImportedIndexStep(rows, prefix);
      ImportedIndexLists(rows[..|rows| - 1], prefix, value);
    }
  }

  /** An index list only holds ids of Basic rows of that class and value. */
  lemma {:induction false} IndexRowOf(rows: seq<Row>, prefix: string, value: string, x: int) returns (j: nat)
    requires x in IndexIds(rows, prefix, value)
    ensures j < |rows| && RowIndexIds(rows[j], prefix, value) == [x]
  {
    var n := |rows| - 1;
    if x in IndexIds(rows[..n], prefix, value) {
      j := IndexRowOf(rows[..n], prefix, value, x);
      assert rows[..n][j] == rows[j];
    } else {
      j := n;
    }
  }

  /** A category list only holds ids of accepted rows naming that category. */
  lemma {:induction false} CategoryRowOf(rows: seq<Row>, category: string, x: int) returns (j: nat)
    requires x in CategoryIds(rows, category)
    ensures j < |rows| && Accepted(rows[j]) && ComponentOfRow(rows[j]).id == x
    ensures ComponentOfRow(rows[j]).firstCategory == category || ComponentOfRow(rows[j]).secondCategory == category
  {
    var n := |rows| - 1;
    if x in CategoryIds(rows[..n], category) {
      j := CategoryRowOf(rows[..n], category, x);
      assert rows[..n][j] == rows[j];
    } else {
      j := n;
    }
  }

  /** An import leaves the store invariant holding. */
  lemma ImportedStoreValid(rows: seq<Row>)
    ensures StoreValid(ImportedCatalog(rows), ImportedCategories(rows), ImportedIndexes(rows))
  {
    var comps := ImportedCatalog(rows);
    var cats := ImportedCategories(rows);
    var idx := ImportedIndexes(rows);
    ImportedUnderOwnCid(rows);
    forall c, i | c in cats && 0 <= i < |cats[c]| ensures CidOf(cats[c][i]) in comps {
      ImportedCategoriesLists(rows, c);
      var j := CategoryRowOf(rows, c, cats[c][i]);
      RowStored(rows, j);
    }
    forall b, v, i | b in idx && v in idx[b] && 0 <= i < |idx[b][v]| ensures CidOf(idx[b][v][i]) in comps {
      var p := if b == "index-resistors" then "R" else if b == "index-capacitors" then "C" else "L";
      assert idx[b] == ImportedIndex(rows, p);
      ImportedIndexLists(rows, p, v);
      var j := IndexRowOf(rows, p, v, idx[b][v][i]);
      RowStored(rows, j);
    }
  }

  /** One more row: an accepted row's part is put under its catalog id. */
  lemma CatalogStep(rows: seq<Row>, i: nat)
    requires i < |rows|
    ensures ImportedCatalog(rows[..i + 1]) ==
      if Accepted(rows[i]) then ImportedCatalog(rows[..i])[ComponentOfRow(rows[i]).CID() := ComponentOfRow(rows[i])]
      else ImportedCatalog(rows[..i])
  {
    assert rows[..i + 1][..i] == rows[..i];
  }

  /** One more row: an accepted row's id is appended to both of its category lists. */
  lemma CategoriesStep(rows: seq<Row>, i: nat)
    requires i < |rows|
    ensures ImportedCategories(rows[..i + 1]) ==
      if Accepted(rows[i]) then
        var c := ComponentOfRow(rows[i]);
        Appended(Appended(ImportedCategories(rows[..i]), c.firstCategory, c.id), c.secondCategory, c.id)
      else ImportedCategories(rows[..i])
  {
    assert rows[..i + 1][..i] == rows[..i];
  }

  /** One more row: an accepted, indexed row's id is appended under its value in its class's lists. */
  lemma ByClassStep(rows: seq<Row>, i: nat)
    requires i < |rows|
    ensures ByClass(rows[..i + 1]) == IndexRow(ByClass(rows[..i]), rows[i])
  {
    assert rows[..i + 1][..i] == rows[..i];
  }

  // ---------------------------------------------------------------- lookups

  /** The stored part under a catalog id, or the zero part when there is none. */
  function StoredOrZero(components: Components, cid: string): (r: LibraryComponent)
    ensures cid in components ==> r == components[cid]
    ensures cid !in components ==> r == ZeroComponent
  {
    if cid in components then components[cid] else ZeroComponent
  }

  /** `Exact`: the zero part for "C0" and for an absent id, the stored part otherwise. */
  function ExactIn(components: Components, id: string): (r: LibraryComponent)
    ensures id == "C0" || id !in components ==> r == ZeroComponent
    ensures id != "C0" && id in components ==> r == components[id]
  {
    if id == "C0" then ZeroComponent else StoredOrZero(components, id)
  }

  /**
   * Under the store invariant a non-zero `Exact` result is the part stored
   * under the given id and carries that id; and every stored part with a
   * non-zero id is found again by its catalog id.
   */
  lemma ExactRoundTrip(components: Components, categories: IdLists, indexes: Indexes, id: string, p: LibraryComponent)
    requires StoreValid(components, categories, indexes)
    ensures ExactIn(components, id).id != 0 ==> id in components && ExactIn(components, id).CID() == id
    ensures p.id != 0 && p.CID() in components && components[p.CID()] == p ==> ExactIn(components, p.CID()) == p
  {
    CidZero(p.id);
  }

  /** The part slot a listed id resolves to: the stored part, or none for a dangling id. */
  function Slot(components: Components, id: int): Option<LibraryComponent> {
    if CidOf(id) in components then Some(components[CidOf(id)]) else None
  }

  /** One slot per id, in list order. */
  function Slots(components: Components, ids: seq<int>): (r: seq<Option<LibraryComponent>>)
    ensures |r| == |ids|
    ensures forall i | 0 <= i < |ids| :: r[i] == Slot(components, ids[i])
  {
    if ids == [] then [] else [Slot(components, ids[0])] + Slots(components, ids[1..])
  }

  /** One part per id, in list order, the zero part for a dangling id. */
  function PartsOf(components: Components, ids: seq<int>): (r: seq<LibraryComponent>)
    ensures |r| == |ids|
    ensures forall i | 0 <= i < |ids| :: r[i] == StoredOrZero(components, CidOf(ids[i]))
  {
    if ids == [] then []
    else
      var rest := PartsOf(components, ids[1..]);
      ImageCons(ids, id => StoredOrZero(components, CidOf(id)), rest);
      [StoredOrZero(components, CidOf(ids[0]))] + rest
  }

  /** Putting the image of the head before the images of the tail gives the images of the whole sequence. */
  lemma ImageCons<T, U>(xs: seq<T>, f: T -> U, rest: seq<U>)
    requires xs != [] && |rest| == |xs| - 1
    requires forall i | 0 <= i < |rest| :: rest[i] == f(xs[1..][i])
    ensures var r := [f(xs[0])] + rest;
      forall i | 0 <= i < |xs| :: r[i] == f(xs[i])
  {
    forall i | 1 <= i < |xs| ensures ([f(xs[0])] + rest)[i] == f(xs[i]) {
      assert xs[1..][i - 1] == xs[i];
    }
  }

  /** The ids the value index holds for a board component: its class bucket, keyed by its normalised comment. */
  function MatchingIds(indexes: Indexes, b: BoardComponent): seq<int> {
    match IndexBucket(b.Prefix())
    case None => []
    case Some(bucket) =>
      if bucket in indexes && b.Value() in indexes[bucket] then indexes[bucket][b.Value()] else []
  }
  /**
   * After an import, a board component of class R, C or L is matched
   * against the ids of the Basic rows of its own class and value, in row
   * order; any other class has no candidates.
   */
  lemma MatchAfterImport(rows: seq<Row>, b: BoardComponent)
    ensures b.Prefix() in {"R", "C", "L"} ==> MatchingIds(ImportedIndexes(rows), b) == IndexIds(rows, b.Prefix(), b.Value())
    ensures b.Prefix() !in {"R", "C", "L"} ==> MatchingIds(ImportedIndexes(rows), b) == []
  {
    if b.Prefix() in {"R", "C", "L"} {
      ImportedLookup(rows, b.Prefix(), b.Value());
    }
  }

  /** The imported index list of a class and value, read through the class's bucket name. */
  lemma ImportedLookup(rows: seq<Row>, prefix: string, value: string)
    requires prefix in {"R", "C", "L"}
    ensures var index := ImportedIndexes(rows)[IndexBucket(prefix).value];
      (if value in index then index[value] else []) == IndexIds(rows, prefix, value)
  {
    assert ImportedIndexes(rows)[IndexBucket(prefix).value] == ImportedIndex(rows, prefix);
    ImportedIndexLists(rows, prefix, value);
  }



  /** `FindMatching`: nothing for a class without an index, else one slot per indexed id; the package plays no part. */
  function CandidatesIn(components: Components, indexes: Indexes, b: BoardComponent): (r: seq<Option<LibraryComponent>>)
    ensures IndexBucket(b.Prefix()).None? ==> r == []
    ensures |r| == |MatchingIds(indexes, b)|
    ensures forall i | 0 <= i < |r| :: r[i] == Slot(components, MatchingIds(indexes, b)[i])
  {
    Slots(components, MatchingIds(indexes, b))
  }

  /** Under the store invariant every candidate slot holds the stored part with the listed id. */
  lemma CandidatesResolve(components: Components, categories: IdLists, indexes: Indexes, b: BoardComponent)
    requires StoreValid(components, categories, indexes)
    ensures forall i | 0 <= i < |CandidatesIn(components, indexes, b)| ::
      CandidatesIn(components, indexes, b)[i].Some? && CandidatesIn(components, indexes, b)[i].value.id == MatchingIds(indexes, b)[i]
  {
    ListedIdsResolve(components, categories, indexes);
  }

  /** Candidates depend on the comment only through its value: "10kOhms" and "10k" on R1 get the same list. */
  lemma CandidatesByValue(components: Components, indexes: Indexes, a: BoardComponent, b: BoardComponent)
    requires a.Prefix() == b.Prefix() && a.Value() == b.Value()
    ensures CandidatesIn(components, indexes, a) == CandidatesIn(components, indexes, b)
  {
  }

  /** `FindInCategory`: one part per listed id, in list order. */
  function CategoryPartsIn(components: Components, categories: IdLists, category: string): (r: seq<LibraryComponent>)
    ensures category !in categories ==> r == []
    ensures category in categories ==> |r| == |categories[category]|
    ensures category in categories ==>
      forall i | 0 <= i < |r| :: r[i] == StoredOrZero(components, CidOf(categories[category][i]))
  {
    PartsOf(components, if category in categories then categories[category] else [])
  }

  /** Under the store invariant every part of a category listing carries the listed id. */
  lemma CategoryPartsResolve(components: Components, categories: IdLists, indexes: Indexes, category: string)
    requires StoreValid(components, categories, indexes)
    requires category in categories
    ensures forall i | 0 <= i < |CategoryPartsIn(components, categories, category)| ::
      CategoryPartsIn(components, categories, category)[i].id == categories[category][i]
  {
    ListedIdsResolve(components, categories, indexes);
  }

  /** Designator classes that are not placed by the assembly process. */
  const NonAssemblable: set<string> := {"J", "H", "G", "JP", "DRA", "DS", "SW"}

  /** `CanAssemble`: decided by the letters of the designator alone. */
  function CanAssemble(b: BoardComponent): (r: bool)
    ensures !r <==> b.Prefix() in NonAssemblable
  {
    var letters := b.Prefix();
    !(letters == "J" || letters == "H" || letters == "G" || letters == "JP"
      || letters == "DRA" || letters == "DS" || letters == "SW")
  }

  /** Digits and punctuation in a designator do not matter; "JP" is excluded but "JPX" is not. */
  lemma CanAssembleExamples()
    ensures !CanAssemble(BoardComponent("J1", "", "", 0.0, 0.0, 0.0, ""))
    ensures !CanAssemble(BoardComponent("SW12", "", "", 0.0, 0.0, 0.0, ""))
    ensures CanAssemble(BoardComponent("U3", "", "", 0.0, 0.0, 0.0, ""))
    ensures CanAssemble(BoardComponent("JPX1", "", "", 0.0, 0.0, 0.0, ""))
  {
    assert LettersOnly("J1") == "J" by {
      assert LettersOnly("1") == [];
    }
    assert LettersOnly("SW12") == "SW" by {
      assert LettersOnly("12") == [] by {
        assert LettersOnly("2") == [];
      }
    }
    assert LettersOnly("U3") == "U" by {
      assert LettersOnly("3") == [];
    }
    assert LettersOnly("JPX1") == "JPX" by {
      assert LettersOnly("1") == [];
    }
  }

  /** Components sharing an association key are either all assemblable or all not. */
  lemma SameKeySameAssembly(a: BoardComponent, b: BoardComponent)
    requires a.Key() == b.Key()
    ensures CanAssemble(a) == CanAssemble(b)
  {
    SameKeySamePrefix(a, b);
  }

  /**
   * `FindAssociated` over the buckets: the zero part for a component that
   * cannot be assembled; otherwise the part stored under the associated
   * id (the empty id when there is no association), except that a zero
   * result counts as "no association" unless the id is the sentinel "C0".
   */
  function AssociatedIn(components: Components, associations: map<string, string>, b: BoardComponent): (r: Option<LibraryComponent>)
    ensures !CanAssemble(b) ==> r == Some(ZeroComponent)
    ensures CanAssemble(b) && b.Key() !in associations && "" !in components ==> r.None?
    ensures CanAssemble(b) && b.Key() in associations && associations[b.Key()] == "C0" ==> r.Some?
    ensures CanAssemble(b) && r.Some? && r.value.id == 0 ==> b.Key() in associations && associations[b.Key()] == "C0"
  {
    if !CanAssemble(b) then Some(ZeroComponent)
    else
      var id := if b.Key() in associations then associations[b.Key()] else "";
      var c := StoredOrZero(components, id);
      if c.id == 0 && id != "C0" then None else Some(c)
  }

  /**
   * The three outcomes of an association lookup under the store invariant,
   * for an assemblable component: none when there is no association or it
   * names a missing part; a zero part (skip) exactly when the association
   * is "C0"; otherwise the stored part, whose catalog id is the association.
   */
  lemma AssociatedTriState(components: Components, categories: IdLists, indexes: Indexes, associations: map<string, string>, b: BoardComponent)
    requires StoreValid(components, categories, indexes)
    requires CanAssemble(b)
    ensures b.Key() !in associations ==> AssociatedIn(components, associations, b).None?
    ensures b.Key() in associations && associations[b.Key()] == "C0" ==>
      AssociatedIn(components, associations, b) == Some(StoredOrZero(components, "C0"))
      && AssociatedIn(components, associations, b).value.id == 0
    ensures b.Key() in associations && associations[b.Key()] != "C0" ==>
      (AssociatedIn(components, associations, b).Some? <==> associations[b.Key()] in components)
    ensures b.Key() in associations && associations[b.Key()] != "C0" && associations[b.Key()] in components ==>
      var r := AssociatedIn(components, associations, b);
      r == Some(components[associations[b.Key()]]) && r.value.id != 0 && r.value.CID() == associations[b.Key()]
  {
    if b.Key() in associations {
      var id := associations[b.Key()];
      if id in components {
        CidZero(components[id].id);
      }
    } else {
      assert forall k | k in components :: |k| > 0;
    }
  }

  /** Under the store invariant a found association always names the catalog id of the part found. */
  lemma AssociatedNamesPart(components: Components, categories: IdLists, indexes: Indexes, associations: map<string, string>, b: BoardComponent)
    requires StoreValid(components, categories, indexes)
    requires CanAssemble(b)
    requires AssociatedIn(components, associations, b).Some?
    ensures b.Key() in associations && associations[b.Key()] == AssociatedIn(components, associations, b).value.CID()
  {
    AssociatedTriState(components, categories, indexes, associations, b);
    if associations[b.Key()] == "C0" && "C0" in components {
      assert components["C0"].CID() == "C0";
      CidZero(components["C0"].id);
    }
  }

  /** After associating a part, the lookup finds that part's catalog id again: the skip part for id 0, the stored part otherwise. */
  lemma AssociateThenFind(components: Components, categories: IdLists, indexes: Indexes, associations: map<string, string>, b: BoardComponent, p: LibraryComponent)
    requires StoreValid(components, categories, indexes)
    requires CanAssemble(b)
    ensures var r := AssociatedIn(components, associations[b.Key() := p.CID()], b);
      && (r.Some? <==> p.id == 0 || p.CID() in components)
      && (r.Some? ==> r.value.id == p.id)
      && (r.Some? && p.id != 0 ==> r.value == components[p.CID()])
  {
    var assoc := associations[b.Key() := p.CID()];
    CidZero(p.id);
    AssociatedTriState(components, categories, indexes, assoc, b);
    if p.id == 0 && "C0" in components {
      assert components["C0"].CID() == "C0";
      CidZero(components["C0"].id);
    }
    if p.id != 0 && p.CID() in components {
      CidInjective(components[p.CID()].id, p.id);
    }
  }

  /** After the association is deleted, an assemblable component is unresolved. */
  lemma DissociateThenFind(components: Components, categories: IdLists, indexes: Indexes, associations: map<string, string>, b: BoardComponent)
    requires StoreValid(components, categories, indexes)
    requires CanAssemble(b)
    ensures AssociatedIn(components, associations - {b.Key()}, b).None?
  {
    AssociatedTriState(components, categories, indexes, associations - {b.Key()}, b);
  }

  /** Changing a part's rotation keeps the store invariant. */
  lemma RotationKeepsStoreValid(components: Components, categories: IdLists, indexes: Indexes, c: LibraryComponent, rotation: real)
    requires StoreValid(components, categories, indexes)
    ensures StoreValid(components[c.CID() := c.(rotation := rotation)], categories, indexes)
  {
  }

  // ---------------------------------------------------------------- the store

  class Library {
    var components: Components
    var categories: IdLists
    var indexes: Indexes
    var associations: map<string, string>
    var packageAssociations: map<string, string>

    predicate Valid()
      reads this`components, this`categories, this`indexes
    {
      StoreValid(components, categories, indexes)
    }

    /**
     * A store on a fresh database file: every bucket exists and is empty.
     * Reopening an existing file, which keeps its buckets, is not modelled.
     */
    constructor()
      ensures components == map[] && categories == map[] && indexes == EmptyIndexes
      ensures associations == map[] && packageAssociations == map[]
      ensures Valid()
    {
      components := map[];
      categories := map[];
      indexes := EmptyIndexes;
      associations := map[];
      packageAssociations := map[];
    }

    /**
     * The final transaction's loop: every entry is put into the bucket.
     * The store refuses an empty key, which fails the loop (None).
     */
    static method PutAll(bucket: IdLists, entries: IdLists) returns (r: Option<IdLists>)
      ensures r.None? <==> "" in entries
      ensures r.Some? ==> r.value == bucket + entries
    {
      var written := bucket;
      var rest := entries.Keys;
      while rest != {}
        invariant rest <= entries.Keys
        invariant "" in entries ==> "" in rest
        invariant written.Keys == bucket.Keys + (entries.Keys - rest)
        invariant forall k | k in entries && k !in rest :: written[k] == entries[k]
        invariant forall k | k in bucket && k !in entries :: written[k] == bucket[k]
        decreases rest
      {
        var k :| k in rest;
        if k == "" {
          return None;
        }
        written := written[k := entries[k]];
        rest := rest - {k};
      }
      assert written == bucket + entries;
      r := Some(written);
    }

    static lemma EmptyUnion(m: IdLists)
      ensures map[] + m == m
    {
      assert (map[] + m).Keys == m.Keys;
    }

    /**
     * The final transaction of `Import`: the collected lists are put into
     * the freshly emptied category bucket and index buckets. A list under
     * the empty key fails its put, and the whole transaction is rolled
     * back: the buckets stay empty and the error is returned.
     */
    static method Commit(lists: IdLists, byClass: Indexes) returns (err: Option<string>, cats: IdLists, idx: Indexes)
      requires byClass.Keys == NoIndexes.Keys
      ensures err.Some? <==> "" in lists || "" in byClass["R"] || "" in byClass["C"] || "" in byClass["L"]
      ensures err.Some? ==> err.value == "key required" && cats == map[] && idx == EmptyIndexes
      ensures err.None? ==> cats == lists
      ensures err.None? ==>
        idx == map["index-resistors" := byClass["R"], "index-capacitors" := byClass["C"], "index-inductors" := byClass["L"]]
    {
      err, cats, idx := Some("key required"), map[], EmptyIndexes;
      var written := PutAll(map[], lists);
      if written.None? {
        return;
      }
      var resistors := PutAll(map[], byClass["R"]);
      if resistors.None? {
        return;
      }
      var capacitors := PutAll(map[], byClass["C"]);
      if capacitors.None? {
        return;
      }
      var inductors := PutAll(map[], byClass["L"]);
      if inductors.None? {
        return;
      }
      EmptyUnion(lists);
      EmptyUnion(byClass["R"]);
      EmptyUnion(byClass["C"]);
      EmptyUnion(byClass["L"]);
      err, cats := None, written.value;
      idx := map["index-resistors" := resistors.value, "index-capacitors" := capacitors.value, "index-inductors" := inductors.value];
    }

    /**
     * The batched transactions of `Import`: each accepted row's part is put
     * under its catalog id as it arrives, while the category and index
     * lists are collected in memory.
     */
    static method ReadRows(rows: seq<Row>) returns (catalog: Components, lists: IdLists, byClass: Indexes)
      ensures catalog == ImportedCatalog(rows) && lists == ImportedCategories(rows) && byClass == ByClass(rows)
    {
      catalog := map[];
      lists := map[];
      byClass := NoIndexes;
      var i := 0;
      while i < |rows|
        invariant 0 <= i <= |rows|
        invariant catalog == ImportedCatalog(rows[..i])
        invariant lists == ImportedCategories(rows[..i])
        invariant byClass == ByClass(rows[..i])
      {
        var row := rows[i];
        CatalogStep(rows, i);
        CategoriesStep(rows, i);
        ByClassStep(rows, i);
        if Accepted(row) {
          var c := ComponentOfRow(row);
          lists := Appended(lists, c.firstCategory, c.id);
          lists := Appended(lists, c.secondCategory, c.id);
          if IsIndexed(c) {
            byClass := byClass[c.Prefix() := Appended(byClass[c.Prefix()], c.Value(), c.id)];
          }
          catalog := catalog[c.CID() := c];
        }
        i := i + 1;
      }
      assert rows[..|rows|] == rows;
    }

    /**
     * `Import`: the components, categories and index buckets are emptied
     * first, whatever the file; an unknown file type is then an error.
     * Otherwise every accepted row is stored under its catalog id and
     * listed under its categories and, when indexed, its class and value;
     * the lists are written at the end. Associations are kept.
     */
    method Import(src: string, rows: seq<Row>) returns (err: Option<string>)
      modifies this`components, this`categories, this`indexes
      ensures !KnownFileType(src) ==>
        err == Some("unknown file type") && components == map[] && categories == map[] && indexes == EmptyIndexes
      ensures KnownFileType(src) && "" in ImportedCategories(rows) ==>
        err == Some("key required") && components == ImportedCatalog(rows) && categories == map[] && indexes == EmptyIndexes
      ensures KnownFileType(src) && "" !in ImportedCategories(rows) ==>
        err.None? && components == ImportedCatalog(rows) && categories == ImportedCategories(rows) && indexes == ImportedIndexes(rows)
      ensures Valid()
    {
      components := map[];
      categories := map[];
      indexes := EmptyIndexes;
      if !KnownFileType(src) {
        return Some("unknown file type");
      }
      var catalog, lists, byClass := ReadRows(rows);
      components := catalog;
      ImportedUnderOwnCid(rows);
      ByClassNoEmptyValue(rows);
      var cats, idx;
      err, cats, idx := Commit(lists, byClass);
      if err.Some? {
        return;
      }
      categories, indexes := cats, idx;
      ImportedStoreValid(rows);
    }

    /** `SetRotation`: the part, with its rotation replaced, is stored under its catalog id. */
    method SetRotation(component: LibraryComponent, rotation: real) returns (updated: LibraryComponent)
      modifies this`components
      ensures updated == component.(rotation := rotation)
      ensures components == old(components)[component.CID() := updated]
      ensures old(Valid()) ==> Valid()
    {
      updated := component.(rotation := rotation);
      components := components[component.CID() := updated];
      if old(Valid()) {
        RotationKeepsStoreValid(old(components), categories, indexes, component, rotation);
      }
    }

    /** `FindMatching` over this store. */
    method FindMatching(b: BoardComponent) returns (r: seq<Option<LibraryComponent>>)
      ensures r == CandidatesIn(components, indexes, b)
    {
      var bucket := IndexBucket(b.Prefix());
      if bucket.None? {
        return [];
      }
      var ids: seq<int> := [];
      var value := b.Value();
      if bucket.value in indexes && value in indexes[bucket.value] {
        ids := indexes[bucket.value][value];
      }
      assert ids == MatchingIds(indexes, b);
      r := SlotsOf(components, ids);
    }

    /** The loop of `FindMatching`: each id is looked up, a missing record giving an empty slot. */
    static method SlotsOf(components: Components, ids: seq<int>) returns (r: seq<Option<LibraryComponent>>)
      ensures r == Slots(components, ids)
    {
      r := [];
      for i := 0 to |ids|
        invariant |r| == i
        invariant forall j | 0 <= j < i :: r[j] == Slot(components, ids[j])
      {
        var slot: Option<LibraryComponent> := None;
        var cid := CidOf(ids[i]);
        if cid in components {
          slot := Some(components[cid]);
        }
        r := r + [slot];
      }
    }

    /** `Exact` over this store. */
    function Exact(id: string): (r: LibraryComponent)
      reads this`components
      ensures r.id != 0 ==> id != "C0" && id in components && r == components[id]
    {
      ExactIn(components, id)
    }

    /** `FindAssociated` over this store. */
    function FindAssociated(b: BoardComponent): (r: Option<LibraryComponent>)
      reads this`components, this`associations
      ensures r.None? ==> CanAssemble(b)
      ensures r.Some? && r.value.id != 0 ==> CanAssemble(b) && r.value in components.Values
      ensures r.Some? && r.value.id == 0 && CanAssemble(b) ==> b.Key() in associations && associations[b.Key()] == "C0"
    {
      AssociatedIn(components, associations, b)
    }

    /** `FindInCategory` over this store. */
    method FindInCategory(category: string) returns (r: seq<LibraryComponent>)
      ensures r == CategoryPartsIn(components, categories, category)
    {
      var ids: seq<int> := [];
      if category in categories {
        ids := categories[category];
      }
      r := [];
      for i := 0 to |ids|
        invariant |r| == i
        invariant forall j | 0 <= j < i :: r[j] == StoredOrZero(components, CidOf(ids[j]))
      {
        var part := ZeroComponent;
        var cid := CidOf(ids[i]);
        if cid in components {
          part := components[cid];
        }
        r := r + [part];
      }
    }

    /**
     * `Associate`: with no part the component's association is deleted;
     * with a part, the component's key is associated with the part's
     * catalog id and the component's package with the part's package.
     */
    method Associate(b: BoardComponent, p: Option<LibraryComponent>)
      modifies this`associations, this`packageAssociations
      ensures p.None? ==> associations == old(associations) - {b.Key()} && packageAssociations == old(packageAssociations)
      ensures p.Some? ==>
        associations == old(associations)[b.Key() := p.value.CID()] && packageAssociations == old(packageAssociations)[b.package := p.value.package]
    {
      if p.None? {
        associations := associations - {b.Key()};
        return;
      }
      associations := associations[b.Key() := p.value.CID()];
      packageAssociations := packageAssociations[b.package := p.value.package];
    }
  }
}
