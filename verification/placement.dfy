/**
 * The placement side of lib/cpl.go: normalising a component's rotation,
 * the per-run association cache layered over the store, the bill of
 * materials that groups designators by part, and the row shapes of the
 * position file read and the BOM and CPL files written.
 */
module Placement {
  import opened Wrappers
  import opened Text
  import opened Numbers
  import opened Util
  import opened Parts
  import opened Catalog

  // ---------------------------------------------------------------- rotation

  /**
   * The angle `Rotate` ends with for a raw angle x: x itself when it lies
   * in [0, 360]; otherwise x moved by whole turns into [0, 360), except
   * that an angle above 360 that is a whole number of turns stops at 360.
   */
  function NormalizeAngle(x: real): (r: real)
    ensures 0.0 <= r <= 360.0
  {
    if 0.0 <= x <= 360.0 then x
    else
      var m := x - 360.0 * ((x / 360.0).Floor as real);
      if x > 360.0 && m == 0.0 then 360.0 else m
  }

  /** y lies where the two loops of `Rotate` can stop when started from x. */
  predicate LoopExit(x: real, y: real) {
    && 0.0 <= y <= 360.0
    && (0.0 <= x <= 360.0 ==> y == x)
    && (x < 0.0 ==> y < 360.0)
    && (x > 360.0 ==> y > 0.0)
  }

  /** `NormalizeAngle(x)` is x plus a whole number of turns, and an exit of the loops. */
  lemma NormalizeAngleTurns(x: real) returns (turns: int)
    ensures NormalizeAngle(x) == x + 360.0 * turns as real
    ensures LoopExit(x, NormalizeAngle(x))
  {
    if 0.0 <= x <= 360.0 {
      turns := 0;
    } else {
      var f := (x / 360.0).Floor;
      var m := x - 360.0 * f as real;
      if x > 360.0 && m == 0.0 {
        turns := 1 - f;
      } else {
        turns := -f;
        if x > 360.0 {
          assert m >= 0.0;
        }
      }
    }
  }

  /**
   * Only one angle is both an exit of the loops and a whole number of
   * turns away from x: the exit is `NormalizeAngle(x)`.
   */
  lemma {:induction false} LoopExitUnique(x: real, y: real, turns: int)
    requires LoopExit(x, y) && y == x + 360.0 * turns as real
    ensures y == NormalizeAngle(x)
  {
    var t := NormalizeAngleTurns(x);
    var z := NormalizeAngle(x);
    assert y - z == 360.0 * (turns - t) as real;
  }

  /**
   * `Rotate`: the angle is added, then whole turns are added while it is
   * negative and taken away while it exceeds 360.
   */
  method Rotate(c: BoardComponent, delta: real) returns (rotated: BoardComponent)
    ensures rotated == c.(rotation := NormalizeAngle(c.rotation + delta))
  {
    var x := c.rotation + delta;
    var r := x;
    ghost var turns: int := 0;
    while r < 0.0
      invariant r == x + 360.0 * turns as real
      invariant x >= 0.0 ==> r == x
      invariant x < 0.0 ==> r < 360.0
      decreases (-r).Floor
    {
      r := r + 360.0;
      turns := turns + 1;
    }
    while r > 360.0
      invariant r == x + 360.0 * turns as real && r >= 0.0
      invariant 0.0 <= x <= 360.0 ==> r == x
      invariant x < 0.0 ==> r < 360.0
      invariant x > 360.0 ==> r > 0.0
      decreases r.Floor
    {
      r := r - 360.0;
      turns := turns - 1;
    }
    LoopExitUnique(x, r, turns);
    rotated := c.(rotation := r);
  }

  /** 360 itself is kept, a whole number of turns above it stops at 360, and -360 becomes 0. */
  lemma RotateBoundaries()
    ensures NormalizeAngle(360.0) == 360.0
    ensures NormalizeAngle(720.0) == 360.0
    ensures NormalizeAngle(-360.0) == 0.0
    ensures NormalizeAngle(-30.0) == 330.0
    ensures NormalizeAngle(450.0) == 90.0
  {
    LoopExitUnique(720.0, 360.0, -1);
    LoopExitUnique(-360.0, 0.0, 1);
    LoopExitUnique(-30.0, 330.0, 1);
    LoopExitUnique(450.0, 90.0, -1);
  }

  /** Rotating by 400 degrees and back returns an angle strictly inside (0, 360) unchanged. */
  lemma RotateThereAndBack(x: real)
    requires 0.0 < x < 360.0
    ensures NormalizeAngle(NormalizeAngle(x + 400.0) - 400.0) == x
  {
    LoopExitUnique(x + 400.0, x + 40.0 - (if x + 40.0 > 360.0 then 360.0 else 0.0), if x + 40.0 > 360.0 then -2 else -1);
    var y := NormalizeAngle(x + 400.0);
    LoopExitUnique(y - 400.0, x, if x + 40.0 > 360.0 then 2 else 1);
  }

  /** Rotating 0 by -30 and then by 30 gives 360, not 0: the two loops are not inverse at the boundary. */
  lemma RotateZeroComesBackAs360()
    ensures NormalizeAngle(NormalizeAngle(0.0 - 30.0) + 30.0) == 360.0
  {
    LoopExitUnique(-30.0, 330.0, 1);
  }

  // ---------------------------------------------------------------- association cache

  /**
   * `AssocationMap`: the associations found or made in this run, by
   * association key, over the durable store. A cached `None` is a lookup
   * that found nothing; it stays cached until the key is associated.
   */
  class AssociationMap {
    const library: Library
    var cache: map<string, Option<LibraryComponent>>

    constructor(library: Library)
      ensures this.library == library && cache == map[]
    {
      this.library := library;
      cache := map[];
    }

    /** The cached answer for the component's key, or else the store's answer, which is then cached. */
    method FindAssociated(b: BoardComponent) returns (r: Option<LibraryComponent>)
      modifies this`cache
      ensures b.Key() in old(cache) ==> r == old(cache)[b.Key()] && cache == old(cache)
      ensures b.Key() !in old(cache) ==>
        r == AssociatedIn(library.components, library.associations, b) && cache == old(cache)[b.Key() := r]
    {
      var key := b.Key();
      if key in cache {
        return cache[key];
      }
      r := library.FindAssociated(b);
      cache := cache[key := r];
    }

    /** Records an association both in the cache and in the store; with no part, forgets it in both. */
    method Associate(b: BoardComponent, p: Option<LibraryComponent>)
      modifies this`cache, library`associations, library`packageAssociations
      ensures p.None? ==> cache == old(cache) - {b.Key()}
      ensures p.Some? ==> cache == old(cache)[b.Key() := p]
      ensures p.None? ==>
        library.associations == old(library.associations) - {b.Key()} && library.packageAssociations == old(library.packageAssociations)
      ensures p.Some? ==>
        && library.associations == old(library.associations)[b.Key() := p.value.CID()]
        && library.packageAssociations == old(library.packageAssociations)[b.package := p.value.package]
    {
      var key := b.Key();
      if p.None? {
        cache := cache - {key};
      }
      library.Associate(b, p);
      if p.Some? {
        cache := cache[key := p];
      }
    }
  }

  // ---------------------------------------------------------------- bill of materials

  /** One BOM line: the first component's comment and package, every designator placed with the part, and the part. */
  datatype BomEntry = BomEntry(comment: string, package: string, designators: seq<string>, component: LibraryComponent)

  /** The BOM after `AddComponent(c, lc)`. */
  function AddEntry(entries: map<int, BomEntry>, c: BoardComponent, lc: LibraryComponent): (r: map<int, BomEntry>)
    ensures r.Keys == entries.Keys + {lc.id}
    ensures lc.id !in entries ==> r[lc.id] == BomEntry(c.comment, c.package, [c.designator], lc)
    ensures lc.id in entries ==> r[lc.id] == entries[lc.id].(designators := entries[lc.id].designators + [c.designator])
    ensures forall id | id in entries && id != lc.id :: r[id] == entries[id]
  {
    var entry := if lc.id in entries then entries[lc.id] else BomEntry(c.comment, c.package, [], lc);
    entries[lc.id := entry.(designators := entry.designators + [c.designator])]
  }

  /** `BOM`: entries by part id. */
  class Bom {
    var entries: map<int, BomEntry>

    constructor()
      ensures entries == map[]
    {
      entries := map[];
    }

    /** The first component for a part opens its entry; every component appends its designator. */
    method AddComponent(c: BoardComponent, lc: LibraryComponent)
      modifies this
      ensures entries == AddEntry(old(entries), c, lc)
    {
      if lc.id !in entries {
        entries := entries[lc.id := BomEntry(c.comment, c.package, [], lc)];
      }
      entries := entries[lc.id := entries[lc.id].(designators := entries[lc.id].designators + [c.designator])];
    }
  }

  /** The BOM built by adding each placed component with its part, in order. */
  function BomOf(placed: seq<(BoardComponent, LibraryComponent)>): map<int, BomEntry> {
    if placed == [] then map[]
    else AddEntry(BomOf(placed[..|placed| - 1]), placed[|placed| - 1].0, placed[|placed| - 1].1)
  }

  /** Reference definition: the designators placed with part `id`, in order. */
  function DesignatorsOf(placed: seq<(BoardComponent, LibraryComponent)>, id: int): seq<string> {
    if placed == [] then []
    else
      var last := placed[|placed| - 1];
      DesignatorsOf(placed[..|placed| - 1], id) + (if last.1.id == id then [last.0.designator] else [])
  }

  /** The first index placed with part `id`. */
  predicate FirstWith(placed: seq<(BoardComponent, LibraryComponent)>, id: int, j: nat) {
    j < |placed| && placed[j].1.id == id && forall k | 0 <= k < j :: placed[k].1.id != id
  }

  /** The BOM has an entry exactly for each part id placed. */
  lemma {:induction false} BomOfKeys(placed: seq<(BoardComponent, LibraryComponent)>, id: int)
    ensures id in BomOf(placed) <==> exists j | 0 <= j < |placed| :: placed[j].1.id == id
    ensures id !in BomOf(placed) ==> DesignatorsOf(placed, id) == []
  {
    if placed != [] {
      var n := |placed| - 1;
      var front := placed[..n];
      BomOfKeys(front, id);
      if id in BomOf(front) {
        var j :| 0 <= j < n && front[j].1.id == id;
        assert placed[j].1.id == id;
      }
      if exists j | 0 <= j < |placed| :: placed[j].1.id == id {
        var j :| 0 <= j < |placed| && placed[j].1.id == id;
        if j < n {
          assert front[j].1.id == id;
        }
      }
    }
  }

  /** An entry lists the designators placed with its part, in placement order. */
  lemma {:induction false} BomOfDesignators(placed: seq<(BoardComponent, LibraryComponent)>, id: int)
    requires id in BomOf(placed)
    ensures BomOf(placed)[id].designators == DesignatorsOf(placed, id)
  {
    var n := |placed| - 1;
    var front := placed[..n];
    if id in BomOf(front) {
      BomOfDesignators(front, id);
    } else {
      BomOfKeys(front, id);
    }
  }

  /** An entry carries the comment, package and part of the first component placed with its part. */
  lemma {:induction false} BomOfFirst(placed: seq<(BoardComponent, LibraryComponent)>, id: int, j: nat)
    requires FirstWith(placed, id, j)
    ensures id in BomOf(placed)
    ensures BomOf(placed)[id].comment == placed[j].0.comment && BomOf(placed)[id].package == placed[j].0.package
    ensures BomOf(placed)[id].component == placed[j].1
  {
    var n := |placed| - 1;
    var front := placed[..n];
    if j < n {
      assert FirstWith(front, id, j);
      BomOfFirst(front, id, j);
    } else {
      assert forall k | 0 <= k < n :: front[k].1.id != id;
      BomOfKeys(front, id);
    }
  }

  /** Every designator placed lands in exactly one entry: the entries' designator lists add up to the components placed. */
  lemma {:induction false} BomDesignatorCount(placed: seq<(BoardComponent, LibraryComponent)>, id: int)
    ensures |DesignatorsOf(placed, id)| == |set j | 0 <= j < |placed| && placed[j].1.id == id|
  {
    if placed != [] {
      var n := |placed| - 1;
      var front := placed[..n];
      BomDesignatorCount(front, id);
      var before := set j | 0 <= j < n && front[j].1.id == id;
      var after := set j | 0 <= j < |placed| && placed[j].1.id == id;
      if placed[n].1.id == id {
        assert after == before + {n};
      } else {
        assert after == before;
      }
    }
  }

  /** Two resistors with the same part share one line: "R1" and "R2" under one id, with R1's comment. */
  lemma BomGroupsByPart()
    ensures var r1 := BoardComponent("R1", "10k", "R_0603", 0.0, 0.0, 0.0, "top");
      var r2 := BoardComponent("R2", "10k ", "R_0603", 0.0, 0.0, 0.0, "top");
      var part := ZeroComponent.(id := 25804);
      BomOf([(r1, part), (r2, part)]) == map[25804 := BomEntry("10k", "R_0603", ["R1", "R2"], part)]
  {
    var r1 := BoardComponent("R1", "10k", "R_0603", 0.0, 0.0, 0.0, "top");
    var r2 := BoardComponent("R2", "10k ", "R_0603", 0.0, 0.0, 0.0, "top");
    var part := ZeroComponent.(id := 25804);
    var placed := [(r1, part), (r2, part)];
    assert placed[..1] == [(r1, part)];
    assert placed[..1][..0] == [];
    assert BomOf(placed[..1]) == map[25804 := BomEntry("10k", "R_0603", ["R1"], part)];
    assert ["R1"] + ["R2"] == ["R1", "R2"];
  }

  // ---------------------------------------------------------------- position file

  /** `strconv.ParseFloat(s, bitSize)`: the value it returns, and whether it returned no error. */
  datatype ParsedFloat = ParsedFloat(value: real, ok: bool)

  /** A position-file row whose trimmed first field is "Ref" is the header and is skipped. */
  predicate IsHeaderRow(row: Row) {
    |row| >= 1 && TrimSpace(row[0]) == "Ref"
  }

  /**
   * The component one data row describes. The columns are designator,
   * comment, package, x, y, rotation, layer. A failed parse of the
   * rotation, of x or of y sets the rotation to 0; x and y keep the
   * value the parser returned.
   */
  function PosRow(row: Row, parseFloat: (string, int) -> ParsedFloat): (c: BoardComponent)
    requires |row| >= 7
    ensures c.designator == TrimSpace(row[0]) && c.comment == TrimSpace(row[1]) && c.package == TrimSpace(row[2])
    ensures c.x == parseFloat(row[3], 32).value && c.y == parseFloat(row[4], 32).value && c.layer == TrimSpace(row[6])
    ensures c.rotation == if parseFloat(row[5], 32).ok && parseFloat(row[3], 32).ok && parseFloat(row[4], 32).ok
                          then parseFloat(row[5], 32).value else 0.0
  {
    var rotation := parseFloat(row[5], 32);
    var x := parseFloat(row[3], 32);
    var y := parseFloat(row[4], 32);
    var angle := if rotation.ok then rotation.value else 0.0;
    var angle := if x.ok then angle else 0.0;
    var angle := if y.ok then angle else 0.0;
    BoardComponent(TrimSpace(row[0]), TrimSpace(row[1]), TrimSpace(row[2]), x.value, y.value, angle, TrimSpace(row[6]))
  }

  /** The rows that are not the header. */
  function DataRows(rows: seq<Row>): (r: seq<Row>)
    ensures |r| <= |rows|
    ensures forall i | 0 <= i < |r| :: !IsHeaderRow(r[i])
    ensures forall i | 0 <= i < |rows| && !IsHeaderRow(rows[i]) :: rows[i] in r
  {
    if rows == [] then []
    else
      var front := rows[..|rows| - 1];
      assert forall i | 0 <= i < |front| :: front[i] == rows[i];
      DataRows(front) + (if IsHeaderRow(rows[|rows| - 1]) then [] else [rows[|rows| - 1]])
  }

  /** Dropping the header rows of two files read one after the other drops them from each: every other row is kept, in order. */
  lemma {:induction false} DataRowsAppend(a: seq<Row>, b: seq<Row>)
    ensures DataRows(a + b) == DataRows(a) + DataRows(b)
  {
    if b == [] {
      assert a + b == a;
    } else {
      var n := |b| - 1;
      assert (a + b)[..|a + b| - 1] == a + b[..n];
      DataRowsAppend(a, b[..n]);
    }
  }

  /** A single row is kept exactly when it is not the header. */
  lemma DataRowsSingle(row: Row)
    ensures DataRows([row]) == if IsHeaderRow(row) then [] else [row]
  {
    assert [row][..0] == [];
  }

  /** The components of the position file, or None when a data row has fewer than seven fields (an index panic). */
  function PosComponents(rows: seq<Row>, parseFloat: (string, int) -> ParsedFloat): Option<seq<BoardComponent>> {
    if rows == [] then Some([])
    else
      match PosComponents(rows[..|rows| - 1], parseFloat)
      case None => None
      case Some(cs) =>
        var row := rows[|rows| - 1];
        if IsHeaderRow(row) then Some(cs)
        else if |row| < 7 then None
        else Some(cs + [PosRow(row, parseFloat)])
  }

  /** A row other than the header with too few fields for `ReadPOS` to index. */
  predicate ShortDataRow(row: Row) {
    !IsHeaderRow(row) && |row| < 7
  }

  /** Reading one more row fails exactly when reading the rows before it failed or the row is short. */
  lemma PosComponentsStep(rows: seq<Row>, parseFloat: (string, int) -> ParsedFloat)
    requires rows != []
    ensures PosComponents(rows, parseFloat).None? <==>
      PosComponents(rows[..|rows| - 1], parseFloat).None? || ShortDataRow(rows[|rows| - 1])
  {
  }

  /** Reading a position file fails exactly when some row other than the header has fewer than seven fields. */
  lemma {:induction false} PosComponentsFails(rows: seq<Row>, parseFloat: (string, int) -> ParsedFloat)
    ensures PosComponents(rows, parseFloat).None? <==> exists j | 0 <= j < |rows| :: ShortDataRow(rows[j])
  {
    if rows != [] {
      var n := |rows| - 1;
      var front := rows[..n];
      PosComponentsFails(front, parseFloat);
      PosComponentsStep(rows, parseFloat);
      ExistsSnoc(rows, ShortDataRow);
    }
  }

  /** A successful read yields one component per data row, in file order, each described by its row. */
  lemma {:induction false} PosComponentsFields(rows: seq<Row>, parseFloat: (string, int) -> ParsedFloat)
    requires PosComponents(rows, parseFloat).Some?
    ensures var cs := PosComponents(rows, parseFloat).value;
      && |cs| == |DataRows(rows)|
      && forall k | 0 <= k < |cs| :: |DataRows(rows)[k]| >= 7 && cs[k] == PosRow(DataRows(rows)[k], parseFloat)
  {
    if rows != [] {
      PosComponentsFields(rows[..|rows| - 1], parseFloat);
    }
  }

  /** A successful read describes every row other than the header by a component. */
  lemma PosComponentsKeepsDataRows(rows: seq<Row>, parseFloat: (string, int) -> ParsedFloat, i: nat)
    requires PosComponents(rows, parseFloat).Some?
    requires i < |rows| && !IsHeaderRow(rows[i])
    ensures |rows[i]| >= 7 && PosRow(rows[i], parseFloat) in PosComponents(rows, parseFloat).value
  {
    PosComponentsFields(rows, parseFloat);
    var k :| 0 <= k < |DataRows(rows)| && DataRows(rows)[k] == rows[i];
    assert PosComponents(rows, parseFloat).value[k] == PosRow(rows[i], parseFloat);
  }

  /** No component read from a position file is named "Ref", and every designator is already trimmed. */
  lemma PosDesignatorsTrimmed(rows: seq<Row>, parseFloat: (string, int) -> ParsedFloat)
    requires PosComponents(rows, parseFloat).Some?
    ensures forall c | c in PosComponents(rows, parseFloat).value :: c.designator != "Ref" && TrimSpace(c.designator) == c.designator
  {
    PosComponentsFields(rows, parseFloat);
    var cs := PosComponents(rows, parseFloat).value;
    forall c | c in cs ensures c.designator != "Ref" && TrimSpace(c.designator) == c.designator {
      var k :| 0 <= k < |cs| && cs[k] == c;
      TrimSpaceIdempotent(DataRows(rows)[k][0]);
    }
  }

  /** `ReadPOS` over the rows of an opened position file. */
  method ReadPOS(rows: seq<Row>, parseFloat: (string, int) -> ParsedFloat) returns (r: Option<seq<BoardComponent>>)
    ensures r == PosComponents(rows, parseFloat)
  {
    var components: seq<BoardComponent> := [];
    for i := 0 to |rows|
      invariant PosComponents(rows[..i], parseFloat) == Some(components)
    {
      assert rows[..i + 1][..i] == rows[..i];
      var line := rows[i];
      if |line| >= 1 && TrimSpace(line[0]) == "Ref" {
        continue;
      }
      if |line| < 7 {
        PosStopsAtShortRow(rows, i + 1, parseFloat);
        return None;
      }
      components := components + [PosRow(line, parseFloat)];
    }
    assert rows[..|rows|] == rows;
    r := Some(components);
  }

  /** Once a prefix of the rows fails, the whole file fails. */
  lemma {:induction false} PosStopsAtShortRow(rows: seq<Row>, i: nat, parseFloat: (string, int) -> ParsedFloat)
    requires i <= |rows| && PosComponents(rows[..i], parseFloat).None?
    ensures PosComponents(rows, parseFloat).None?
    decreases |rows| - i
  {
    if i < |rows| {
      assert rows[..i + 1][..i] == rows[..i];
      PosStopsAtShortRow(rows, i + 1, parseFloat);
    } else {
      assert rows[..i] == rows;
    }
  }

  // ---------------------------------------------------------------- output files

  const CplHeader: seq<string> := ["Designator", "Mid X", "Mid Y", "Layer", "Rotation"]
  const BomHeader: seq<string> := ["Comment", "Designator", "Footprint", "LCSC Part #"]

  /**
   * `WriteCPL`: the header, then one row per component in order. The
   * number formatter stands for `fmt.Sprintf("%1.<precision>f", v)`.
   */
  method WriteCPL(components: seq<BoardComponent>, formatFloat: (real, nat) -> string) returns (rows: seq<Row>)
    ensures |rows| == |components| + 1 && rows[0] == CplHeader
    ensures forall i | 0 <= i < |components| ::
      rows[i + 1] == [components[i].designator, formatFloat(components[i].x, 4), formatFloat(components[i].y, 4),
                      components[i].layer, formatFloat(components[i].rotation, 0)]
  {
    rows := [CplHeader];
    for i := 0 to |components|
      invariant |rows| == i + 1 && rows[0] == CplHeader
      invariant forall j | 0 <= j < i ::
        rows[j + 1] == [components[j].designator, formatFloat(components[j].x, 4), formatFloat(components[j].y, 4),
                        components[j].layer, formatFloat(components[j].rotation, 0)]
    {
      var c := components[i];
      rows := rows + [[c.designator, formatFloat(c.x, 4), formatFloat(c.y, 4), c.layer, formatFloat(c.rotation, 0)]];
    }
  }

  /** The BOM line of one entry. */
  function BomRow(id: int, entry: BomEntry): (row: Row)
    ensures |row| == 4
  {
    [entry.comment, Join(entry.designators, ','), entry.package, CidOf(id)]
  }

  /** `order` lists every part id of the BOM exactly once: the order Go's map iteration happened to take. */
  predicate Enumerates(order: seq<int>, entries: map<int, BomEntry>) {
    && (forall i, j | 0 <= i < j < |order| :: order[i] != order[j])
    && entries.Keys == set i | 0 <= i < |order| :: order[i]
  }

  /** Every id an enumeration lists has an entry. */
  lemma EnumeratedIn(order: seq<int>, entries: map<int, BomEntry>)
    requires Enumerates(order, entries)
    ensures forall j | 0 <= j < |order| :: order[j] in entries
  {
    forall j | 0 <= j < |order| ensures order[j] in entries {
      assert order[j] in entries.Keys;
    }
  }

  /** `WriteBOM`: the header, then one line per entry, in map iteration order. */
  method WriteBOM(entries: map<int, BomEntry>, order: seq<int>) returns (rows: seq<Row>)
    requires Enumerates(order, entries)
    ensures |rows| == |order| + 1 && rows[0] == BomHeader
    ensures forall i | 0 <= i < |order| :: order[i] in entries && rows[i + 1] == BomRow(order[i], entries[order[i]])
  {
    EnumeratedIn(order, entries);
    rows := [BomHeader];
    for i := 0 to |order|
      invariant |rows| == i + 1 && rows[0] == BomHeader
      invariant forall j | 0 <= j < i :: rows[j + 1] == BomRow(order[j], entries[order[j]])
    {
      var id := order[i];
      rows := rows + [BomRow(id, entries[id])];
    }
  }

  /**
   * A BOM line names its part by a catalog id that reads back to the
   * entry's id, and its designator column splits back into the entry's
   * designators when none of them contains a comma.
   */
  lemma BomRowReadsBack(id: int, entry: BomEntry)
    requires IsInt64(id)
    ensures FromCID(BomRow(id, entry)[3]) == id
    ensures |entry.designators| >= 1 && (forall k | 0 <= k < |entry.designators| :: ',' !in entry.designators[k]) ==>
      Split(BomRow(id, entry)[1], ',') == entry.designators
  {
    FromCidOfCid(id);
    if |entry.designators| >= 1 && (forall k | 0 <= k < |entry.designators| :: ',' !in entry.designators[k]) {
      SplitJoin(entry.designators, ',');
    }
  }

  /** Different entries get different part-number columns, so each part id is named by exactly one line. */
  lemma BomRowsDistinct(entries: map<int, BomEntry>, order: seq<int>, i: nat, j: nat)
    requires Enumerates(order, entries) && i < |order| && j < |order| && i != j
    requires order[i] in entries && order[j] in entries
    ensures BomRow(order[i], entries[order[i]])[3] != BomRow(order[j], entries[order[j]])[3]
  {
    CidInjective(order[i], order[j]);
  }
}
