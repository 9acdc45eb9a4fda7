/**
 * The reconciliation at the heart of the generate command
 * (cmd/generate.go): the --redesignate and --rotate overrides are parsed,
 * the position file is read, the overrides are applied to the store, every
 * component is resolved to a part (asking the user for the unknown ones),
 * and the surviving components go to the BOM and, rotated by their part's
 * correction, to the CPL.
 *
 * The interactive prompt is the `resolver` parameter: given the component
 * and the candidate slots `FindMatching` offers as suggestions, it returns
 * the text the user typed. A function of these two suffices: the user is
 * asked at most once per association key (`ResolveAllAsksOnce`), and
 * components with different keys are different components.
 */
module Generate {
  import opened Wrappers
  import opened Text
  import opened Numbers
  import opened Parts
  import opened Catalog
  import opened Placement

  /** The ways the command stops with a run-time panic. */
  datatype Panic =
    | OddRotateList              // the --rotate list has a designator without an angle
    | ShortPosRow                // a position-file row has fewer than seven fields
    | NilAssociation(designator: string)  // a rotated component has no association to rotate

  /** What the command hands to the file writers, or the panic that stopped it. */
  datatype Outcome =
    | Generated(bom: map<int, BomEntry>, cpl: seq<BoardComponent>)
    | Panicked(panic: Panic)

  // ---------------------------------------------------------------- overrides

  /** The designators named by --redesignate: its comma-separated pieces, none for an empty flag. */
  method ParseRedesignations(flag: string) returns (r: set<string>)
    ensures flag == "" ==> r == {}
    ensures flag != "" ==> r == set k | 0 <= k < |Split(flag, ',')| :: Split(flag, ',')[k]
  {
    r := {};
    if flag != "" {
      var pieces := Split(flag, ',');
      for i := 0 to |pieces|
        invariant r == set k | 0 <= k < i :: pieces[k]
      {
        r := r + {pieces[i]};
      }
    }
  }

  /** Pair number j of the --rotate list names designator d with an angle that parses. */
  predicate PairFor(pieces: seq<string>, parseFloat: (string, int) -> ParsedFloat, j: nat, d: string) {
    2 * j + 1 < |pieces| && pieces[2 * j] == d && parseFloat(pieces[2 * j + 1], 64).ok
  }

  /** The rotation overrides of an even-length --rotate list: unparsable angles are skipped, a later pair wins. */
  function Overrides(pieces: seq<string>, parseFloat: (string, int) -> ParsedFloat): map<string, real>
    requires |pieces| % 2 == 0
  {
    if pieces == [] then map[]
    else
      var before := Overrides(pieces[..|pieces| - 2], parseFloat);
      var angle := parseFloat(pieces[|pieces| - 1], 64);
      if angle.ok then before[pieces[|pieces| - 2] := angle.value] else before
  }

  /**
   * A designator is overridden exactly when some pair names it with an
   * angle that parses, and its angle is that of the last such pair.
   */
  lemma {:induction false} OverridesLastPair(pieces: seq<string>, parseFloat: (string, int) -> ParsedFloat, d: string)
    requires |pieces| % 2 == 0
    ensures d in Overrides(pieces, parseFloat) <==> exists j: nat :: PairFor(pieces, parseFloat, j, d)
    ensures d in Overrides(pieces, parseFloat) ==>
      exists j: nat :: PairFor(pieces, parseFloat, j, d) && Overrides(pieces, parseFloat)[d] == parseFloat(pieces[2 * j + 1], 64).value
        && forall j': nat | j < j' :: !PairFor(pieces, parseFloat, j', d)
  {
    if pieces != [] {
      var n := |pieces| - 2;
      var front := pieces[..n];
      var last := n / 2;
      OverridesLastPair(front, parseFloat, d);
      PairsOfFront(pieces, parseFloat, d);
      if PairFor(pieces, parseFloat, last, d) {
        assert Overrides(pieces, parseFloat)[d] == parseFloat(pieces[2 * last + 1], 64).value;
      } else if d in Overrides(pieces, parseFloat) {
        var j: nat :| PairFor(front, parseFloat, j, d) && Overrides(front, parseFloat)[d] == parseFloat(front[2 * j + 1], 64).value
          && forall j': nat | j < j' :: !PairFor(front, parseFloat, j', d);
        assert PairFor(pieces, parseFloat, j, d);
      }
    }
  }

  /** The pairs of a --rotate list without its last pair are its own pairs before the last. */
  lemma PairsOfFront(pieces: seq<string>, parseFloat: (string, int) -> ParsedFloat, d: string)
    requires |pieces| % 2 == 0 && pieces != []
    ensures var n := |pieces| - 2;
      && 2 * (n / 2) == n
      && (forall j: nat | j < n / 2 :: PairFor(pieces[..n], parseFloat, j, d) == PairFor(pieces, parseFloat, j, d))
      && (forall j: nat | j > n / 2 :: !PairFor(pieces, parseFloat, j, d))
      && (forall j: nat | j >= n / 2 :: !PairFor(pieces[..n], parseFloat, j, d))
  {
    var n := |pieces| - 2;
    forall j: nat | j < n / 2 ensures PairFor(pieces[..n], parseFloat, j, d) == PairFor(pieces, parseFloat, j, d) {
      assert pieces[..n][2 * j] == pieces[2 * j] && pieces[..n][2 * j + 1] == pieces[2 * j + 1];
    }
  }

  /** The overrides of the first i + 2 pieces are those of the first i, updated by pair i / 2 when its angle parses. */
  lemma OverridesStep(pieces: seq<string>, i: nat, parseFloat: (string, int) -> ParsedFloat)
    requires i % 2 == 0 && i + 2 <= |pieces|
    ensures var before := Overrides(pieces[..i], parseFloat);
      var angle := parseFloat(pieces[i + 1], 64);
      Overrides(pieces[..i + 2], parseFloat) == if angle.ok then before[pieces[i] := angle.value] else before
  {
    assert pieces[..i + 2][..i] == pieces[..i];
  }

  /**
   * The rotation overrides named by --rotate, or None when the list has
   * odd length: reading the angle of its last designator is then out of
   * range.
   */
  method ParseRotations(flag: string, parseFloat: (string, int) -> ParsedFloat) returns (r: Option<map<string, real>>)
    ensures flag == "" ==> r == Some(map[])
    ensures flag != "" && |Split(flag, ',')| % 2 == 1 ==> r.None?
    ensures flag != "" && |Split(flag, ',')| % 2 == 0 ==> r == Some(Overrides(Split(flag, ','), parseFloat))
  {
    var rotations: map<string, real> := map[];
    if flag != "" {
      var pieces := Split(flag, ',');
      var i := 0;
      while i < |pieces|
        invariant 0 <= i <= |pieces| && i % 2 == 0
        invariant rotations == Overrides(pieces[..i], parseFloat)
        decreases |pieces| - i
      {
        if i + 1 >= |pieces| {
          return None;
        }
        OverridesStep(pieces, i, parseFloat);
        var angle := parseFloat(pieces[i + 1], 64);
        if !angle.ok {
          i := i + 2;
          continue;
        }
        rotations := rotations[pieces[i] := angle.value];
        i := i + 2;
      }
      assert pieces[..|pieces|] == pieces;
    }
    r := Some(rotations);
  }

  // ---------------------------------------------------------------- the session

  /**
   * What the two passes work on: the association map's cache and the
   * store's parts and association buckets. The category and index buckets
   * are not changed by the command.
   */
  datatype Session = Session(
    cache: map<string, Option<LibraryComponent>>,
    components: Components,
    associations: map<string, string>,
    packageAssociations: map<string, string>)

  /** `AssocationMap.FindAssociated`'s answer: the cached one, or else the store's. */
  function Lookup(s: Session, b: BoardComponent): Option<LibraryComponent> {
    if b.Key() in s.cache then s.cache[b.Key()] else AssociatedIn(s.components, s.associations, b)
  }

  /** The designator class a key starts with is one the assembler places. */
  predicate KeyAssemblable(key: string) {
    Split(key, ':')[0] !in NonAssemblable
  }

  /** A component's key tells whether it can be assembled. */
  lemma KeyTellsAssembly(b: BoardComponent)
    ensures KeyAssemblable(b.Key()) == CanAssemble(b)
  {
    KeyFields(b);
  }

  /**
   * A cached answer agrees with the store: the key of an assemblable
   * component is associated with the part's catalog id; any other
   * component's part is the skip part.
   */
  predicate Agrees(v: Option<LibraryComponent>, key: string, associations: map<string, string>) {
    && v.Some?
    && (KeyAssemblable(key) ==> key in associations && associations[key] == v.value.CID())
    && (!KeyAssemblable(key) ==> v.value.id == 0)
  }

  /** A part with a non-zero id is the stored part of its catalog id, up to its rotation. */
  predicate Backed(p: LibraryComponent, components: Components) {
    p.id != 0 ==> p.CID() in components && p == components[p.CID()].(rotation := p.rotation)
  }

  /**
   * What both passes keep: the store invariant; every cached answer is a
   * part that agrees with the associations and is backed by the stored
   * parts; and every stored part other than the skip record "C0" is one of
   * the `original` parts with at most its rotation changed.
   */
  predicate Sound(s: Session, original: Components, categories: IdLists, indexes: Indexes) {
    && StoreValid(s.components, categories, indexes)
    && (forall k | k in s.cache :: Agrees(s.cache[k], k, s.associations) && Backed(s.cache[k].value, s.components))
    && (forall k | k in s.components && k != "C0" :: k in original && s.components[k] == original[k].(rotation := s.components[k].rotation))
  }

  /** A fresh association map over a valid store is sound. */
  lemma StartSound(components: Components, associations: map<string, string>, packageAssociations: map<string, string>,
                   categories: IdLists, indexes: Indexes)
    requires StoreValid(components, categories, indexes)
    ensures Sound(Session(map[], components, associations, packageAssociations), components, categories, indexes)
  {
  }

  /** Under `Sound`, a lookup that finds a part finds one that agrees with the store and is backed by it. */
  lemma LookupSound(s: Session, original: Components, categories: IdLists, indexes: Indexes, c: BoardComponent)
    requires Sound(s, original, categories, indexes)
    requires Lookup(s, c).Some?
    ensures Agrees(Lookup(s, c), c.Key(), s.associations)
    ensures Backed(Lookup(s, c).value, s.components)
  {
    KeyTellsAssembly(c);
    if c.Key() !in s.cache && CanAssemble(c) {
      AssociatedNamesPart(s.components, categories, indexes, s.associations, c);
      AssociatedTriState(s.components, categories, indexes, s.associations, c);
    }
  }

  /** Under `Sound`, only an assemblable component can be without a part. */
  lemma LookupMissesAssemblable(s: Session, original: Components, categories: IdLists, indexes: Indexes, c: BoardComponent)
    requires Sound(s, original, categories, indexes)
    requires Lookup(s, c).None?
    ensures CanAssemble(c)
  {
  }

  // ---------------------------------------------------------------- first pass

  /** One component of the first pass, or the designator whose missing association it tried to rotate. */
  datatype Applied = Applied(session: Session) | Stuck(designator: string)

  /** The session after a redesignated component's association is forgotten in the cache and the store. */
  function Forget(s: Session, c: BoardComponent, redesignated: set<string>): Session {
    if c.designator in redesignated then s.(cache := s.cache - {c.Key()}, associations := s.associations - {c.Key()}) else s
  }

  /**
   * The first pass on one component: a redesignated component's
   * association is forgotten; a component with a rotation override has
   * its associated part's rotation set, in the store and in the cached
   * part; with no associated part the command panics.
   */
  function OverrideOne(s: Session, c: BoardComponent, redesignated: set<string>, rotations: map<string, real>): Applied {
    var s1 := Forget(s, c, redesignated);
    if c.designator !in rotations then Applied(s1)
    else
      var found := Lookup(s1, c);
      if found.None? then Stuck(c.designator)
      else
        var updated := found.value.(rotation := rotations[c.designator]);
        Applied(s1.(cache := s1.cache[c.Key() := Some(updated)], components := s1.components[found.value.CID() := updated]))
  }

  /** The first pass over the components, in order, stopping at the first panic. */
  function OverrideAll(s: Session, placed: seq<BoardComponent>, redesignated: set<string>, rotations: map<string, real>): Applied {
    if placed == [] then Applied(s)
    else
      match OverrideAll(s, placed[..|placed| - 1], redesignated, rotations)
      case Stuck(d) => Stuck(d)
      case Applied(s1) => OverrideOne(s1, placed[|placed| - 1], redesignated, rotations)
  }

  /** Forgetting an association keeps `Sound`. */
  lemma ForgetSound(s: Session, original: Components, categories: IdLists, indexes: Indexes, c: BoardComponent, redesignated: set<string>)
    requires Sound(s, original, categories, indexes)
    ensures Sound(Forget(s, c, redesignated), original, categories, indexes)
  {
  }

  /** Setting the rotation of a looked-up part keeps the cache agreeing with, and backed by, the store. */
  lemma SetRotationCacheSound(s: Session, original: Components, categories: IdLists, indexes: Indexes, c: BoardComponent, rotation: real)
    requires Sound(s, original, categories, indexes)
    requires Lookup(s, c).Some?
    ensures var updated := Lookup(s, c).value.(rotation := rotation);
      var s2 := s.(cache := s.cache[c.Key() := Some(updated)], components := s.components[updated.CID() := updated]);
      forall k | k in s2.cache :: Agrees(s2.cache[k], k, s2.associations) && Backed(s2.cache[k].value, s2.components)
  {
    var found := Lookup(s, c).value;
    LookupSound(s, original, categories, indexes, c);
    var updated := found.(rotation := rotation);
    var s2 := s.(cache := s.cache[c.Key() := Some(updated)], components := s.components[updated.CID() := updated]);
    forall k | k in s2.cache ensures Agrees(s2.cache[k], k, s2.associations) && Backed(s2.cache[k].value, s2.components) {
      if k != c.Key() {
        var v := s2.cache[k].value;
        if v.id != 0 && v.CID() == found.CID() {
          CidInjective(v.id, found.id);
        }
      }
    }
  }

  /** Setting the rotation of a looked-up part changes a stored part in its rotation only, or the skip record. */
  lemma SetRotationPartsSound(s: Session, original: Components, categories: IdLists, indexes: Indexes, c: BoardComponent, rotation: real)
    requires Sound(s, original, categories, indexes)
    requires Lookup(s, c).Some?
    ensures var updated := Lookup(s, c).value.(rotation := rotation);
      var parts := s.components[updated.CID() := updated];
      && StoreValid(parts, categories, indexes)
      && forall k | k in parts && k != "C0" :: k in original && parts[k] == original[k].(rotation := parts[k].rotation)
  {
    var found := Lookup(s, c).value;
    LookupSound(s, original, categories, indexes, c);
    RotationKeepsStoreValid(s.components, categories, indexes, found, rotation);
    CidZero(found.id);
  }

  /** Setting the rotation of a looked-up part, in the store and in the cache, keeps `Sound`. */
  lemma SetRotationSound(s: Session, original: Components, categories: IdLists, indexes: Indexes, c: BoardComponent, rotation: real)
    requires Sound(s, original, categories, indexes)
    requires Lookup(s, c).Some?
    ensures var updated := Lookup(s, c).value.(rotation := rotation);
      Sound(s.(cache := s.cache[c.Key() := Some(updated)], components := s.components[updated.CID() := updated]),
            original, categories, indexes)
  {
    SetRotationCacheSound(s, original, categories, indexes, c, rotation);
    SetRotationPartsSound(s, original, categories, indexes, c, rotation);
  }

  /** One step of the first pass keeps `Sound`. */
  lemma OverrideOneSound(s: Session, original: Components, categories: IdLists, indexes: Indexes,
                         c: BoardComponent, redesignated: set<string>, rotations: map<string, real>)
    requires Sound(s, original, categories, indexes)
    requires OverrideOne(s, c, redesignated, rotations).Applied?
    ensures Sound(OverrideOne(s, c, redesignated, rotations).session, original, categories, indexes)
  {
    ForgetSound(s, original, categories, indexes, c, redesignated);
    if c.designator in rotations {
      SetRotationSound(Forget(s, c, redesignated), original, categories, indexes, c, rotations[c.designator]);
    }
  }

  /**
   * The first pass keeps `Sound`: the cache agrees with the associations,
   * and the stored parts change in their rotation only, apart from the
   * skip record "C0".
   */
  lemma {:induction false} OverrideAllSound(s: Session, original: Components, categories: IdLists, indexes: Indexes,
                                            placed: seq<BoardComponent>, redesignated: set<string>, rotations: map<string, real>)
    requires Sound(s, original, categories, indexes)
    requires OverrideAll(s, placed, redesignated, rotations).Applied?
    ensures Sound(OverrideAll(s, placed, redesignated, rotations).session, original, categories, indexes)
  {
    if placed != [] {
      var n := |placed| - 1;
      OverrideAllSound(s, original, categories, indexes, placed[..n], redesignated, rotations);
      OverrideOneSound(OverrideAll(s, placed[..n], redesignated, rotations).session, original, categories, indexes,
                       placed[n], redesignated, rotations);
    }
  }

  /** Once the first pass has panicked it stays panicked with the same designator. */
  lemma {:induction false} StuckStays(s: Session, placed: seq<BoardComponent>, n: nat, redesignated: set<string>, rotations: map<string, real>)
    requires n <= |placed| && OverrideAll(s, placed[..n], redesignated, rotations).Stuck?
    ensures OverrideAll(s, placed, redesignated, rotations) == OverrideAll(s, placed[..n], redesignated, rotations)
    decreases |placed|
  {
    if n < |placed| {
      var m := |placed| - 1;
      assert placed[..m][..n] == placed[..n];
      StuckStays(s, placed[..m], n, redesignated, rotations);
    } else {
      assert placed[..n] == placed;
    }
  }

  /** The association keys of the redesignated components. */
  function RedesignatedKeys(placed: seq<BoardComponent>, redesignated: set<string>): set<string> {
    if placed == [] then {}
    else
      var c := placed[|placed| - 1];
      RedesignatedKeys(placed[..|placed| - 1], redesignated) + (if c.designator in redesignated then {c.Key()} else {})
  }

  /** The first pass forgets exactly the associations of the redesignated components and leaves the package associations alone. */
  lemma {:induction false} OverrideAllAssociations(s: Session, placed: seq<BoardComponent>, redesignated: set<string>, rotations: map<string, real>)
    requires OverrideAll(s, placed, redesignated, rotations).Applied?
    ensures var r := OverrideAll(s, placed, redesignated, rotations).session;
      r.associations == s.associations - RedesignatedKeys(placed, redesignated) && r.packageAssociations == s.packageAssociations
  {
    if placed != [] {
      var n := |placed| - 1;
      var c := placed[n];
      OverrideAllAssociations(s, placed[..n], redesignated, rotations);
      var before := OverrideAll(s, placed[..n], redesignated, rotations).session;
      var gone := if c.designator in redesignated then {c.Key()} else {};
      assert OverrideOne(before, c, redesignated, rotations).session.associations == before.associations - gone;
      RemoveTwice(s.associations, RedesignatedKeys(placed[..n], redesignated), gone);
    }
  }

  lemma RemoveTwice(m: map<string, string>, a: set<string>, b: set<string>)
    ensures (m - a) - b == m - (a + b)
  {
  }

  /**
   * One step of the first pass that does not panic keeps an assemblable
   * key without association, and a redesignated component leaves its own
   * key so.
   */
  lemma OverrideOneForgets(s: Session, categories: IdLists, indexes: Indexes, c: BoardComponent,
                           redesignated: set<string>, rotations: map<string, real>, key: string)
    requires StoreValid(s.components, categories, indexes)
    requires OverrideOne(s, c, redesignated, rotations).Applied?
    requires KeyAssemblable(key)
    requires (key !in s.cache && key !in s.associations) || (c.designator in redesignated && key == c.Key())
    ensures var r := OverrideOne(s, c, redesignated, rotations).session;
      key !in r.cache && key !in r.associations
  {
    var s1 := Forget(s, c, redesignated);
    if key == c.Key() && c.designator in rotations {
      KeyTellsAssembly(c);
      AssociatedTriState(s1.components, categories, indexes, s1.associations, c);
      assert false;
    }
  }

  /** A redesignated component's key is among the redesignated keys. */
  lemma {:induction false} RedesignatedKeyOf(placed: seq<BoardComponent>, redesignated: set<string>, j: nat)
    requires j < |placed| && placed[j].designator in redesignated
    ensures placed[j].Key() in RedesignatedKeys(placed, redesignated)
  {
    var n := |placed| - 1;
    if j < n {
      RedesignatedKeyOf(placed[..n], redesignated, j);
      assert placed[..n][j] == placed[j];
    }
  }

  /**
   * When the first pass does not panic, every assemblable redesignated key
   * is left with no association in the cache or the store: a later
   * rotation override on it would have found nothing to rotate.
   */
  lemma {:induction false} OverrideAllForgets(s: Session, original: Components, categories: IdLists, indexes: Indexes,
                                              placed: seq<BoardComponent>, redesignated: set<string>, rotations: map<string, real>, key: string)
    requires Sound(s, original, categories, indexes)
    requires OverrideAll(s, placed, redesignated, rotations).Applied?
    requires key in RedesignatedKeys(placed, redesignated) && KeyAssemblable(key)
    ensures var r := OverrideAll(s, placed, redesignated, rotations).session;
      key !in r.cache && key !in r.associations
  {
    var n := |placed| - 1;
    var front := placed[..n];
    OverrideAllSound(s, original, categories, indexes, front, redesignated, rotations);
    if key in RedesignatedKeys(front, redesignated) {
      OverrideAllForgets(s, original, categories, indexes, front, redesignated, rotations, key);
    }
    OverrideOneForgets(OverrideAll(s, front, redesignated, rotations).session, categories, indexes, placed[n],
                       redesignated, rotations, key);
  }

  /** Component i has the last word on its key's rotation: no later component with its key is rotated or redesignated. */
  predicate LastOverride(placed: seq<BoardComponent>, i: nat, redesignated: set<string>, rotations: map<string, real>) {
    && i < |placed| && placed[i].designator in rotations
    && forall j | i < j < |placed| && placed[j].Key() == placed[i].Key() ::
         placed[j].designator !in rotations && placed[j].designator !in redesignated
  }

  /** After the first pass, a component with the last word on its key's rotation leaves its override in the cached part. */
  lemma {:induction false} OverrideAllRotates(s: Session, placed: seq<BoardComponent>, redesignated: set<string>, rotations: map<string, real>, i: nat)
    requires OverrideAll(s, placed, redesignated, rotations).Applied?
    requires LastOverride(placed, i, redesignated, rotations)
    ensures var r := OverrideAll(s, placed, redesignated, rotations).session;
      placed[i].Key() in r.cache && r.cache[placed[i].Key()].Some?
      && r.cache[placed[i].Key()].value.rotation == rotations[placed[i].designator]
  {
    var n := |placed| - 1;
    if i < n {
      assert LastOverride(placed[..n], i, redesignated, rotations);
      OverrideAllRotates(s, placed[..n], redesignated, rotations, i);
    }
  }

  /** The first pass panics only on a rotation override of an assemblable component that has no association. */
  lemma {:induction false} OverrideAllStuck(s: Session, original: Components, categories: IdLists, indexes: Indexes,
                                            placed: seq<BoardComponent>, redesignated: set<string>, rotations: map<string, real>)
    requires Sound(s, original, categories, indexes)
    requires OverrideAll(s, placed, redesignated, rotations).Stuck?
    ensures var d := OverrideAll(s, placed, redesignated, rotations).designator;
      d in rotations && exists j | 0 <= j < |placed| :: placed[j].designator == d && CanAssemble(placed[j])
  {
    var n := |placed| - 1;
    var front := placed[..n];
    if OverrideAll(s, front, redesignated, rotations).Stuck? {
      OverrideAllStuck(s, original, categories, indexes, front, redesignated, rotations);
      var j :| 0 <= j < n && front[j].designator == OverrideAll(s, front, redesignated, rotations).designator && CanAssemble(front[j]);
      assert placed[j] == front[j];
    } else {
      OverrideAllSound(s, original, categories, indexes, front, redesignated, rotations);
      var r1 := OverrideAll(s, front, redesignated, rotations).session;
      ForgetSound(r1, original, categories, indexes, placed[n], redesignated);
      LookupMissesAssemblable(Forget(r1, placed[n], redesignated), original, categories, indexes, placed[n]);
    }
  }

  /**
   * The first pass on one component over the live association map and
   * store. `SetRotation` changes the part the cache handed out in place,
   * so the cached entry is written back with the new rotation.
   */
  method OverrideComponent(am: AssociationMap, c: BoardComponent, redesignated: set<string>, rotations: map<string, real>)
    returns (stuck: bool)
    modifies am`cache, am.library`components, am.library`associations, am.library`packageAssociations
    ensures var start := Session(old(am.cache), old(am.library.components), old(am.library.associations), old(am.library.packageAssociations));
      var result := OverrideOne(start, c, redesignated, rotations);
      && (stuck <==> result.Stuck?)
      && (result.Applied? ==> result.session == Session(am.cache, am.library.components, am.library.associations, am.library.packageAssociations))
  {
    if c.designator in redesignated {
      am.Associate(c, None);
    }
    OverrideOneCases(Session(old(am.cache), old(am.library.components), old(am.library.associations), old(am.library.packageAssociations)),
                     c, redesignated, rotations);
    stuck := false;
    if c.designator in rotations {
      stuck := RotateAssociated(am, c, rotations[c.designator]);
    }
  }

  /** Sets the rotation of the part associated with the component, in the store and in the cache; reports a missing association. */
  method RotateAssociated(am: AssociationMap, c: BoardComponent, angle: real) returns (stuck: bool)
    modifies am`cache, am.library`components
    ensures var found := Lookup(Session(old(am.cache), old(am.library.components), am.library.associations, am.library.packageAssociations), c);
      && (stuck <==> found.None?)
      && (found.Some? ==>
            var updated := found.value.(rotation := angle);
            am.cache == old(am.cache)[c.Key() := Some(updated)] && am.library.components == old(am.library.components)[found.value.CID() := updated])
  {
    var library := am.library;
    ghost var before := Session(am.cache, library.components, library.associations, library.packageAssociations);
    var found := am.FindAssociated(c);
    assert found == Lookup(before, c);
    if found.None? {
      return true;
    }
    ghost var cached := am.cache;
    var updated := library.SetRotation(found.value, angle);
    am.cache := am.cache[c.Key() := Some(updated)];
    OverwriteCached(before.cache, cached, c.Key(), found, Some(updated));
    stuck := false;
  }

  /** Writing a key over a cache that may have just cached that key gives the same map as writing it over the earlier cache. */
  lemma OverwriteCached(before: map<string, Option<LibraryComponent>>, cached: map<string, Option<LibraryComponent>>,
                        key: string, found: Option<LibraryComponent>, value: Option<LibraryComponent>)
    requires cached == before || cached == before[key := found]
    ensures cached[key := value] == before[key := value]
  {
  }

  /** `OverrideOne` case by case, in terms of the session after forgetting. */
  lemma OverrideOneCases(s: Session, c: BoardComponent, redesignated: set<string>, rotations: map<string, real>)
    ensures var s1 := Forget(s, c, redesignated);
      var r := OverrideOne(s, c, redesignated, rotations);
      && (c.designator !in rotations ==> r == Applied(s1))
      && (c.designator in rotations && Lookup(s1, c).None? ==> r == Stuck(c.designator))
      && (c.designator in rotations && Lookup(s1, c).Some? ==>
            var updated := Lookup(s1, c).value.(rotation := rotations[c.designator]);
            r == Applied(s1.(cache := s1.cache[c.Key() := Some(updated)],
                             components := s1.components[Lookup(s1, c).value.CID() := updated])))
  {
  }

  /** The first pass of the command (generate.go:138-158). */
  method ApplyOverrides(am: AssociationMap, placed: seq<BoardComponent>, redesignated: set<string>, rotations: map<string, real>)
    returns (stuck: Option<string>)
    modifies am`cache, am.library`components, am.library`associations, am.library`packageAssociations
    ensures var start := Session(old(am.cache), old(am.library.components), old(am.library.associations), old(am.library.packageAssociations));
      var result := OverrideAll(start, placed, redesignated, rotations);
      && (stuck.Some? <==> result.Stuck?)
      && (result.Stuck? ==> stuck.value == result.designator)
      && (result.Applied? ==> result.session == Session(am.cache, am.library.components, am.library.associations, am.library.packageAssociations))
  {
    ghost var start := Session(am.cache, am.library.components, am.library.associations, am.library.packageAssociations);
    var library := am.library;
    for i := 0 to |placed|
      invariant OverrideAll(start, placed[..i], redesignated, rotations)
        == Applied(Session(am.cache, library.components, library.associations, library.packageAssociations))
    {
      assert placed[..i + 1][..i] == placed[..i];
      var failed := OverrideComponent(am, placed[i], redesignated, rotations);
      if failed {
        StuckStays(start, placed, i + 1, redesignated, rotations);
        return Some(placed[i].designator);
      }
    }
    assert placed[..|placed|] == placed;
    stuck := None;
  }

  // ---------------------------------------------------------------- second pass

  /**
   * The prompt: given a component without an association and the candidate
   * slots offered as suggestions, the text the user types.
   */
  type Resolver = (BoardComponent, seq<Option<LibraryComponent>>) -> string

  /** The part an answer names: the skip part for an empty answer, `Exact` of the answer otherwise. */
  function AnswerPart(components: Components, answer: string): (p: LibraryComponent)
    ensures answer == "" || answer == "C0" || answer !in components ==> p == ZeroComponent
    ensures answer != "" && answer != "C0" && answer in components ==> p == components[answer]
  {
    if answer == "" then ZeroComponent else ExactIn(components, answer)
  }

  /** One component of the second pass: the session after it, the part decided for it, and whether the user was asked. */
  datatype Resolved = Resolved(session: Session, decision: LibraryComponent, asked: bool)

  /**
   * The second pass on one component up to its last lookup: the lookup is
   * cached; a component with no association is asked for, and the
   * answer's part is associated with it in the cache and the store.
   */
  function ResolveOne(s: Session, indexes: Indexes, c: BoardComponent, resolver: Resolver): Resolved {
    var found := Lookup(s, c);
    if found.Some? then Resolved(s.(cache := s.cache[c.Key() := found]), found.value, false)
    else
      var p := AnswerPart(s.components, resolver(c, CandidatesIn(s.components, indexes, c)));
      Resolved(s.(cache := s.cache[c.Key() := Some(p)], associations := s.associations[c.Key() := p.CID()],
                  packageAssociations := s.packageAssociations[c.package := p.package]), p, true)
  }

  /** The second pass over the components: the final session, and per component its part and whether the user was asked. */
  datatype Resolution = Resolution(session: Session, decisions: seq<LibraryComponent>, asked: seq<bool>)

  function ResolveAll(s: Session, indexes: Indexes, placed: seq<BoardComponent>, resolver: Resolver): (r: Resolution)
    ensures |r.decisions| == |placed| && |r.asked| == |placed|
  {
    if placed == [] then Resolution(s, [], [])
    else
      var before := ResolveAll(s, indexes, placed[..|placed| - 1], resolver);
      var one := ResolveOne(before.session, indexes, placed[|placed| - 1], resolver);
      Resolution(one.session, before.decisions + [one.decision], before.asked + [one.asked])
  }

  /** What one step of the second pass does, case by case. */
  lemma ResolveOneEffect(s: Session, indexes: Indexes, c: BoardComponent, resolver: Resolver)
    ensures var o := ResolveOne(s, indexes, c, resolver);
      && o.session.components == s.components
      && o.session.cache == s.cache[c.Key() := Some(o.decision)]
      && (o.asked <==> Lookup(s, c).None?)
      && (!o.asked ==>
            && Lookup(s, c) == Some(o.decision)
            && o.session.associations == s.associations
            && o.session.packageAssociations == s.packageAssociations)
      && (o.asked ==>
            && o.decision == AnswerPart(s.components, resolver(c, CandidatesIn(s.components, indexes, c)))
            && o.session.associations == s.associations[c.Key() := o.decision.CID()]
            && o.session.packageAssociations == s.packageAssociations[c.package := o.decision.package])
  {
  }

  /** The last step of the second pass, in terms of the pass over the components before it. */
  lemma ResolveAllStep(s: Session, indexes: Indexes, placed: seq<BoardComponent>, resolver: Resolver)
    requires placed != []
    ensures var n := |placed| - 1;
      var b := ResolveAll(s, indexes, placed[..n], resolver);
      var r := ResolveAll(s, indexes, placed, resolver);
      var c := placed[n];
      && r.asked[..n] == b.asked && r.decisions[..n] == b.decisions
      && r.session.components == b.session.components
      && r.session.cache == b.session.cache[c.Key() := Some(r.decisions[n])]
      && (r.asked[n] <==> Lookup(b.session, c).None?)
      && (!r.asked[n] ==> Lookup(b.session, c) == Some(r.decisions[n]))
      && r.session.associations == (if r.asked[n] then b.session.associations[c.Key() := r.decisions[n].CID()] else b.session.associations)
      && r.session.packageAssociations ==
           (if r.asked[n] then b.session.packageAssociations[c.package := r.decisions[n].package] else b.session.packageAssociations)
  {
    var n := |placed| - 1;
    ResolveOneEffect(ResolveAll(s, indexes, placed[..n], resolver).session, indexes, placed[n], resolver);
  }

  /** Under the store invariant an answer's part is backed by the store. */
  lemma AnswerBacked(components: Components, categories: IdLists, indexes: Indexes, answer: string)
    requires StoreValid(components, categories, indexes)
    ensures Backed(AnswerPart(components, answer), components)
  {
  }

  /** Associating an assemblable component with a backed part keeps `Sound`. */
  lemma AssociateSound(s: Session, original: Components, categories: IdLists, indexes: Indexes, c: BoardComponent, p: LibraryComponent)
    requires Sound(s, original, categories, indexes)
    requires CanAssemble(c) && Backed(p, s.components)
    ensures Sound(s.(cache := s.cache[c.Key() := Some(p)], associations := s.associations[c.Key() := p.CID()],
                     packageAssociations := s.packageAssociations[c.package := p.package]), original, categories, indexes)
  {
    KeyTellsAssembly(c);
  }

  /** One step of the second pass keeps `Sound`. */
  lemma ResolveOneSound(s: Session, original: Components, categories: IdLists, indexes: Indexes, c: BoardComponent, resolver: Resolver)
    requires Sound(s, original, categories, indexes)
    ensures Sound(ResolveOne(s, indexes, c, resolver).session, original, categories, indexes)
  {
    if Lookup(s, c).Some? {
      LookupSound(s, original, categories, indexes, c);
    } else {
      var answer := resolver(c, CandidatesIn(s.components, indexes, c));
      AnswerBacked(s.components, categories, indexes, answer);
      AssociateSound(s, original, categories, indexes, c, AnswerPart(s.components, answer));
    }
  }

  /** The second pass keeps `Sound` and leaves the stored parts alone. */
  lemma {:induction false} ResolveAllSound(s: Session, original: Components, categories: IdLists, indexes: Indexes,
                                           placed: seq<BoardComponent>, resolver: Resolver)
    requires Sound(s, original, categories, indexes)
    ensures var r := ResolveAll(s, indexes, placed, resolver).session;
      Sound(r, original, categories, indexes) && r.components == s.components
  {
    if placed != [] {
      var n := |placed| - 1;
      ResolveAllSound(s, original, categories, indexes, placed[..n], resolver);
      var before := ResolveAll(s, indexes, placed[..n], resolver).session;
      ResolveOneSound(before, original, categories, indexes, placed[n], resolver);
      ResolveOneEffect(before, indexes, placed[n], resolver);
    }
  }

  /** The second pass over a prefix of the components decides that prefix alike. */
  lemma {:induction false} ResolveAllPrefix(s: Session, indexes: Indexes, placed: seq<BoardComponent>, resolver: Resolver, m: nat)
    requires m <= |placed|
    ensures var r := ResolveAll(s, indexes, placed, resolver);
      var q := ResolveAll(s, indexes, placed[..m], resolver);
      r.decisions[..m] == q.decisions && r.asked[..m] == q.asked
    decreases |placed|
  {
    if m < |placed| {
      var n := |placed| - 1;
      assert placed[..n][..m] == placed[..m];
      ResolveAllPrefix(s, indexes, placed[..n], resolver, m);
      var r := ResolveAll(s, indexes, placed, resolver);
      assert r.decisions[..m] == r.decisions[..n][..m];
      assert r.asked[..m] == r.asked[..n][..m];
    } else {
      assert placed[..m] == placed;
    }
  }

  /**
   * After the second pass every component's key is cached with the part
   * decided for it: components sharing a key share their part.
   */
  lemma {:induction false} ResolveAllDecided(s: Session, indexes: Indexes, placed: seq<BoardComponent>, resolver: Resolver, j: nat)
    requires j < |placed|
    ensures var r := ResolveAll(s, indexes, placed, resolver);
      placed[j].Key() in r.session.cache && r.session.cache[placed[j].Key()] == Some(r.decisions[j])
  {
    var n := |placed| - 1;
    var c := placed[n];
    var b := ResolveAll(s, indexes, placed[..n], resolver);
    var r := ResolveAll(s, indexes, placed, resolver);
    ResolveAllStep(s, indexes, placed, resolver);
    if j < n {
      ResolveAllDecided(s, indexes, placed[..n], resolver, j);
      assert placed[..n][j] == placed[j];
      DecidedExtends(b.session.cache, r.session.cache, b.decisions, r.decisions, placed[j].Key(), c.Key(), j,
                     Lookup(b.session, c), r.asked[n]);
    }
  }

  /**
   * The step of `ResolveAllDecided`: a key cached with an earlier decision
   * keeps it when one more component is decided, since a component whose
   * key is cached is decided by the cache.
   */
  lemma DecidedExtends(before: map<string, Option<LibraryComponent>>, after: map<string, Option<LibraryComponent>>,
                       decided: seq<LibraryComponent>, decisions: seq<LibraryComponent>, key: string, last: string, j: nat,
                       found: Option<LibraryComponent>, asked: bool)
    requires j < |decided| && |decisions| == |decided| + 1 && decisions[..|decided|] == decided
    requires key in before && before[key] == Some(decided[j])
    requires after == before[last := Some(decisions[|decided|])]
    requires last in before ==> found == before[last]
    requires asked <==> found.None?
    requires !asked ==> found == Some(decisions[|decided|])
    ensures key in after && after[key] == Some(decisions[j])
  {
    assert decisions[j] == decisions[..|decided|][j];
  }

  /** Components that share a key are resolved to the same part. */
  lemma SameKeySameDecision(s: Session, indexes: Indexes, placed: seq<BoardComponent>, resolver: Resolver, i: nat, j: nat)
    requires i < |placed| && j < |placed| && placed[i].Key() == placed[j].Key()
    ensures var r := ResolveAll(s, indexes, placed, resolver);
      r.decisions[i] == r.decisions[j]
  {
    ResolveAllDecided(s, indexes, placed, resolver, i);
    ResolveAllDecided(s, indexes, placed, resolver, j);
  }

  /** The association keys of the components. */
  function KeysOf(placed: seq<BoardComponent>): set<string> {
    if placed == [] then {} else KeysOf(placed[..|placed| - 1]) + {placed[|placed| - 1].Key()}
  }

  /** The association keys of the components the user was asked about. */
  function AskedKeys(placed: seq<BoardComponent>, asked: seq<bool>): set<string>
    requires |asked| == |placed|
  {
    if placed == [] then {}
    else AskedKeys(placed[..|placed| - 1], asked[..|asked| - 1]) + (if asked[|asked| - 1] then {placed[|placed| - 1].Key()} else {})
  }

  /** The packages of the components the user was asked about. */
  function AskedPackages(placed: seq<BoardComponent>, asked: seq<bool>): set<string>
    requires |asked| == |placed|
  {
    if placed == [] then {}
    else AskedPackages(placed[..|placed| - 1], asked[..|asked| - 1]) + (if asked[|asked| - 1] then {placed[|placed| - 1].package} else {})
  }

  /** Only components' keys can be asked about. */
  lemma {:induction false} AskedKeysWithin(placed: seq<BoardComponent>, asked: seq<bool>)
    requires |asked| == |placed|
    ensures AskedKeys(placed, asked) <= KeysOf(placed)
  {
    if placed != [] {
      AskedKeysWithin(placed[..|placed| - 1], asked[..|asked| - 1]);
    }
  }

  /** Two maps agree at a key: both lack it, or both map it to the same value. */
  predicate SameAt<V(==)>(m0: map<string, V>, m1: map<string, V>, key: string) {
    (key in m0 <==> key in m1) && (key in m0 ==> m0[key] == m1[key])
  }

  /** The second pass leaves the stored parts alone and changes the cache only at the components' keys. */
  lemma {:induction false} ResolveAllCache(s: Session, indexes: Indexes, placed: seq<BoardComponent>, resolver: Resolver, key: string)
    requires key !in KeysOf(placed)
    ensures var r := ResolveAll(s, indexes, placed, resolver).session;
      r.components == s.components && SameAt(r.cache, s.cache, key)
  {
    if placed != [] {
      ResolveAllCache(s, indexes, placed[..|placed| - 1], resolver, key);
      ResolveAllStep(s, indexes, placed, resolver);
    }
  }

  /** The second pass changes the associations only at the keys of the components the user was asked about. */
  lemma {:induction false} ResolveAllAssociations(s: Session, indexes: Indexes, placed: seq<BoardComponent>, resolver: Resolver, key: string)
    requires key !in AskedKeys(placed, ResolveAll(s, indexes, placed, resolver).asked)
    ensures SameAt(ResolveAll(s, indexes, placed, resolver).session.associations, s.associations, key)
  {
    if placed != [] {
      ResolveAllStep(s, indexes, placed, resolver);
      ResolveAllAssociations(s, indexes, placed[..|placed| - 1], resolver, key);
    }
  }

  /** The second pass changes the package associations only at the packages of the components the user was asked about. */
  lemma {:induction false} ResolveAllPackages(s: Session, indexes: Indexes, placed: seq<BoardComponent>, resolver: Resolver, package: string)
    requires package !in AskedPackages(placed, ResolveAll(s, indexes, placed, resolver).asked)
    ensures SameAt(ResolveAll(s, indexes, placed, resolver).session.packageAssociations, s.packageAssociations, package)
  {
    if placed != [] {
      ResolveAllStep(s, indexes, placed, resolver);
      ResolveAllPackages(s, indexes, placed[..|placed| - 1], resolver, package);
    }
  }

  /** Component j is the first with its key. */
  predicate FirstOfKey(placed: seq<BoardComponent>, j: nat) {
    j < |placed| && placed[j].Key() !in KeysOf(placed[..j])
  }

  /** Component j is decided by one step of the second pass on the session the components before it left. */
  lemma ResolveAllAt(s: Session, indexes: Indexes, placed: seq<BoardComponent>, resolver: Resolver, j: nat)
    requires j < |placed|
    ensures var r := ResolveAll(s, indexes, placed, resolver);
      var o := ResolveOne(ResolveAll(s, indexes, placed[..j], resolver).session, indexes, placed[j], resolver);
      r.decisions[j] == o.decision && r.asked[j] == o.asked
  {
    assert placed[..j + 1][..j] == placed[..j];
    ResolveAllPrefix(s, indexes, placed, resolver, j + 1);
    var r := ResolveAll(s, indexes, placed, resolver);
    assert r.decisions[j] == r.decisions[..j + 1][j];
    assert r.asked[j] == r.asked[..j + 1][j];
  }

  /** The first component with a key finds the store as the command found it. */
  lemma FirstLookup(s: Session, indexes: Indexes, placed: seq<BoardComponent>, resolver: Resolver, j: nat)
    requires FirstOfKey(placed, j)
    ensures var b := ResolveAll(s, indexes, placed[..j], resolver).session;
      b.components == s.components && Lookup(b, placed[j]) == Lookup(s, placed[j])
  {
    var c := placed[j];
    var front := placed[..j];
    var before := ResolveAll(s, indexes, front, resolver);
    ResolveAllCache(s, indexes, front, resolver, c.Key());
    AskedKeysWithin(front, before.asked);
    ResolveAllAssociations(s, indexes, front, resolver, c.Key());
  }

  /**
   * The first component with a key is decided by the store as the command
   * found it: its association if it has one, and otherwise, after asking,
   * the part of the answer typed for it with the candidates the store
   * offers.
   */
  lemma ResolveAllFirst(s: Session, indexes: Indexes, placed: seq<BoardComponent>, resolver: Resolver, j: nat)
    requires FirstOfKey(placed, j)
    ensures var r := ResolveAll(s, indexes, placed, resolver);
      var c := placed[j];
      && (r.asked[j] <==> Lookup(s, c).None?)
      && (!r.asked[j] ==> Lookup(s, c) == Some(r.decisions[j]))
      && (r.asked[j] ==> r.decisions[j] == AnswerPart(s.components, resolver(c, CandidatesIn(s.components, indexes, c))))
  {
    ResolveAllAt(s, indexes, placed, resolver, j);
    FirstLookup(s, indexes, placed, resolver, j);
    ResolveOneEffect(ResolveAll(s, indexes, placed[..j], resolver).session, indexes, placed[j], resolver);
  }

  /** A later component with a key already seen is never asked about. */
  lemma ResolveAllAsksOnce(s: Session, indexes: Indexes, placed: seq<BoardComponent>, resolver: Resolver, j: nat)
    requires j < |placed| && !FirstOfKey(placed, j)
    ensures !ResolveAll(s, indexes, placed, resolver).asked[j]
  {
    var c := placed[j];
    var front := placed[..j];
    ResolveAllAt(s, indexes, placed, resolver, j);
    KeyOfSomeIndex(front, c.Key());
    var i :| 0 <= i < j && front[i].Key() == c.Key();
    ResolveAllDecided(s, indexes, front, resolver, i);
    ResolveOneEffect(ResolveAll(s, indexes, front, resolver).session, indexes, c, resolver);
  }

  /** Every key of the components is the key of one of them. */
  lemma {:induction false} KeyOfSomeIndex(placed: seq<BoardComponent>, key: string)
    requires key in KeysOf(placed)
    ensures exists i | 0 <= i < |placed| :: placed[i].Key() == key
  {
    var n := |placed| - 1;
    if key != placed[n].Key() {
      KeyOfSomeIndex(placed[..n], key);
      var i :| 0 <= i < n && placed[..n][i].Key() == key;
      assert placed[i] == placed[..n][i];
    }
  }

  /** A part cached before the second pass stays cached. */
  lemma {:induction false} ResolveAllKeepsCache(s: Session, indexes: Indexes, placed: seq<BoardComponent>, resolver: Resolver, key: string)
    requires key in s.cache && s.cache[key].Some?
    ensures var r := ResolveAll(s, indexes, placed, resolver).session;
      key in r.cache && r.cache[key] == s.cache[key]
  {
    if placed != [] {
      ResolveAllKeepsCache(s, indexes, placed[..|placed| - 1], resolver, key);
      ResolveAllStep(s, indexes, placed, resolver);
    }
  }

  /** A component whose key held a cached part before the second pass is resolved to that part, without asking. */
  lemma ResolveAllCached(s: Session, indexes: Indexes, placed: seq<BoardComponent>, resolver: Resolver, j: nat)
    requires j < |placed| && placed[j].Key() in s.cache && s.cache[placed[j].Key()].Some?
    ensures var r := ResolveAll(s, indexes, placed, resolver);
      !r.asked[j] && r.decisions[j] == s.cache[placed[j].Key()].value
  {
    ResolveAllAt(s, indexes, placed, resolver, j);
    ResolveAllKeepsCache(s, indexes, placed[..j], resolver, placed[j].Key());
    ResolveOneEffect(ResolveAll(s, indexes, placed[..j], resolver).session, indexes, placed[j], resolver);
  }

  /**
   * After the second pass the store records every decision: the key of an
   * assemblable component is associated with its part's catalog id, a
   * component that cannot be assembled is resolved to the skip part, and
   * every part with a non-zero id is a stored part up to its rotation.
   */
  lemma ResolvedAgree(s: Session, original: Components, categories: IdLists, indexes: Indexes,
                      placed: seq<BoardComponent>, resolver: Resolver, j: nat)
    requires Sound(s, original, categories, indexes) && j < |placed|
    ensures var r := ResolveAll(s, indexes, placed, resolver);
      var c := placed[j];
      && (CanAssemble(c) ==> c.Key() in r.session.associations && r.session.associations[c.Key()] == r.decisions[j].CID())
      && (!CanAssemble(c) ==> r.decisions[j].id == 0)
      && Backed(r.decisions[j], s.components)
  {
    ResolveAllSound(s, original, categories, indexes, placed, resolver);
    ResolveAllDecided(s, indexes, placed, resolver, j);
    KeyTellsAssembly(placed[j]);
  }

  // ---------------------------------------------------------------- both passes

  /**
   * A rotation override reaches the part: when no later component with the
   * same key is redesignated or rotated, the component is resolved to a
   * part carrying the override's angle.
   */
  lemma OverrideReachesPart(s: Session, indexes: Indexes, placed: seq<BoardComponent>, redesignated: set<string>,
                            rotations: map<string, real>, resolver: Resolver, i: nat)
    requires OverrideAll(s, placed, redesignated, rotations).Applied?
    requires LastOverride(placed, i, redesignated, rotations)
    ensures var s1 := OverrideAll(s, placed, redesignated, rotations).session;
      ResolveAll(s1, indexes, placed, resolver).decisions[i].rotation == rotations[placed[i].designator]
  {
    var s1 := OverrideAll(s, placed, redesignated, rotations).session;
    OverrideAllRotates(s, placed, redesignated, rotations, i);
    ResolveAllCached(s1, indexes, placed, resolver, i);
  }

  /**
   * A redesignated assemblable component is asked about again: the first
   * component with its key finds no association left after the first
   * pass.
   */
  lemma RedesignatedAreAsked(s: Session, original: Components, categories: IdLists, indexes: Indexes, placed: seq<BoardComponent>,
                             redesignated: set<string>, rotations: map<string, real>, resolver: Resolver, j: nat)
    requires Sound(s, original, categories, indexes)
    requires OverrideAll(s, placed, redesignated, rotations).Applied?
    requires FirstOfKey(placed, j) && placed[j].designator in redesignated && CanAssemble(placed[j])
    ensures var s1 := OverrideAll(s, placed, redesignated, rotations).session;
      ResolveAll(s1, indexes, placed, resolver).asked[j]
  {
    var s1 := OverrideAll(s, placed, redesignated, rotations).session;
    var c := placed[j];
    RedesignatedKeyOf(placed, redesignated, j);
    KeyTellsAssembly(c);
    OverrideAllForgets(s, original, categories, indexes, placed, redesignated, rotations, c.Key());
    OverrideAllSound(s, original, categories, indexes, placed, redesignated, rotations);
    AssociatedTriState(s1.components, categories, indexes, s1.associations, c);
    ResolveAllFirst(s1, indexes, placed, resolver, j);
  }

  // ---------------------------------------------------------------- output

  /** The components that were not skipped, each with its part, in order. */
  function Kept(placed: seq<BoardComponent>, decisions: seq<LibraryComponent>): (r: seq<(BoardComponent, LibraryComponent)>)
    requires |decisions| == |placed|
    ensures |r| <= |placed|
    ensures forall k | 0 <= k < |r| :: r[k].1.id != 0
  {
    if placed == [] then []
    else
      var n := |placed| - 1;
      KeepIf(Kept(placed[..n], decisions[..n]), placed[n], decisions[n])
  }

  /** A component resolved to the skip part is dropped; any other is kept with its part. */
  function KeepIf(kept: seq<(BoardComponent, LibraryComponent)>, c: BoardComponent, p: LibraryComponent): seq<(BoardComponent, LibraryComponent)> {
    if p.id != 0 then kept + [(c, p)] else kept
  }

  /** The CPL: each kept component rotated by its part's correction. */
  function Rotated(kept: seq<(BoardComponent, LibraryComponent)>): (r: seq<BoardComponent>)
    ensures |r| == |kept|
  {
    if kept == [] then []
    else
      var c := kept[|kept| - 1];
      Rotated(kept[..|kept| - 1]) + [c.0.(rotation := NormalizeAngle(c.0.rotation + c.1.rotation))]
  }

  /** Exactly the components resolved to a part with a non-zero id are kept, each with that part. */
  lemma {:induction false} KeptMembers(placed: seq<BoardComponent>, decisions: seq<LibraryComponent>, c: BoardComponent, p: LibraryComponent)
    requires |decisions| == |placed|
    ensures (c, p) in Kept(placed, decisions) <==> exists j | 0 <= j < |placed| :: placed[j] == c && decisions[j] == p && p.id != 0
  {
    if placed != [] {
      var n := |placed| - 1;
      KeptMembers(placed[..n], decisions[..n], c, p);
      if exists j | 0 <= j < |placed| :: placed[j] == c && decisions[j] == p && p.id != 0 {
        var j :| 0 <= j < |placed| && placed[j] == c && decisions[j] == p && p.id != 0;
        if j < n {
          assert placed[..n][j] == c && decisions[..n][j] == p;
        }
      }
    }
  }

  /**
   * A component whose designator class the assembler does not place (J, H,
   * G, JP, DRA, DS, SW) never reaches the BOM or the CPL.
   */
  lemma NotAssembledNotKept(s: Session, original: Components, categories: IdLists, indexes: Indexes,
                            placed: seq<BoardComponent>, resolver: Resolver, j: nat, p: LibraryComponent)
    requires Sound(s, original, categories, indexes) && j < |placed| && !CanAssemble(placed[j])
    ensures (placed[j], p) !in Kept(placed, ResolveAll(s, indexes, placed, resolver).decisions)
  {
    var decisions := ResolveAll(s, indexes, placed, resolver).decisions;
    KeptMembers(placed, decisions, placed[j], p);
    if (placed[j], p) in Kept(placed, decisions) {
      var k :| 0 <= k < |placed| && placed[k] == placed[j] && decisions[k] == p && p.id != 0;
      ResolvedAgree(s, original, categories, indexes, placed, resolver, k);
      assert false;
    }
  }

  /** The CPL entry of a kept component is the component turned by its part's correction, normalised into [0, 360]. */
  lemma {:induction false} RotatedEntries(kept: seq<(BoardComponent, LibraryComponent)>, k: nat)
    requires k < |kept|
    ensures var c := kept[k].0;
      && Rotated(kept)[k].designator == c.designator && Rotated(kept)[k].x == c.x && Rotated(kept)[k].y == c.y
      && Rotated(kept)[k].layer == c.layer && Rotated(kept)[k].comment == c.comment && Rotated(kept)[k].package == c.package
      && Rotated(kept)[k].rotation == NormalizeAngle(c.rotation + kept[k].1.rotation)
  {
    if k < |kept| - 1 {
      RotatedEntries(kept[..|kept| - 1], k);
    }
  }

  /** One more step of the second pass. */
  lemma ResolveAllSnoc(s: Session, indexes: Indexes, placed: seq<BoardComponent>, resolver: Resolver, i: nat, b: Resolution, o: Resolved)
    requires i < |placed| && ResolveAll(s, indexes, placed[..i], resolver) == b
    requires o == ResolveOne(b.session, indexes, placed[i], resolver)
    ensures ResolveAll(s, indexes, placed[..i + 1], resolver) == Resolution(o.session, b.decisions + [o.decision], b.asked + [o.asked])
  {
    assert placed[..i + 1][..i] == placed[..i];
  }

  /** Keeping one more component. */
  lemma KeptStep(placed: seq<BoardComponent>, decisions: seq<LibraryComponent>, d: LibraryComponent)
    requires |decisions| < |placed|
    ensures var i := |decisions|;
      Kept(placed[..i + 1], decisions + [d]) == KeepIf(Kept(placed[..i], decisions), placed[i], d)
  {
    var i := |decisions|;
    var front := placed[..i + 1];
    var decided := decisions + [d];
    assert front[..i] == placed[..i] && front[i] == placed[i];
    assert decided[..i] == decisions && decided[i] == d;
    assert Kept(front, decided) == KeepIf(Kept(front[..i], decided[..i]), front[i], decided[i]);
  }

  /** Rotating one more kept component. */
  lemma RotatedAppend(kept: seq<(BoardComponent, LibraryComponent)>, x: (BoardComponent, LibraryComponent))
    ensures Rotated(kept + [x]) == Rotated(kept) + [x.0.(rotation := NormalizeAngle(x.0.rotation + x.1.rotation))]
  {
    assert (kept + [x])[..|kept|] == kept;
  }

  /** Adding one more kept component to the BOM. */
  lemma BomOfAppend(kept: seq<(BoardComponent, LibraryComponent)>, x: (BoardComponent, LibraryComponent))
    ensures BomOf(kept + [x]) == AddEntry(BomOf(kept), x.0, x.1)
  {
    assert (kept + [x])[..|kept|] == kept;
  }

  /**
   * The prompt for a component with no association (generate.go:171-187):
   * the user's answer, given the candidates as suggestions, names the part
   * that is then associated with the component in the cache and the store.
   */
  method Ask(am: AssociationMap, c: BoardComponent, resolver: Resolver) returns (p: LibraryComponent)
    modifies am`cache, am.library`associations, am.library`packageAssociations
    ensures p == AnswerPart(am.library.components, resolver(c, CandidatesIn(am.library.components, am.library.indexes, c)))
    ensures am.cache == old(am.cache)[c.Key() := Some(p)]
    ensures am.library.associations == old(am.library.associations)[c.Key() := p.CID()]
    ensures am.library.packageAssociations == old(am.library.packageAssociations)[c.package := p.package]
  {
    var library := am.library;
    var candidates := library.FindMatching(c);
    var answer := resolver(c, candidates);
    p := if answer == "" then ZeroComponent else library.Exact(answer);
    am.Associate(c, Some(p));
  }

  /**
   * The second pass on one component, over the live association map and
   * store (generate.go:166-200): the answer is cached, or asked for and
   * associated, and read back by a last lookup.
   */
  method ResolveComponent(am: AssociationMap, c: BoardComponent, resolver: Resolver) returns (decision: LibraryComponent, asked: bool)
    modifies am`cache, am.library`associations, am.library`packageAssociations
    ensures var start := Session(old(am.cache), am.library.components, old(am.library.associations), old(am.library.packageAssociations));
      var o := ResolveOne(start, am.library.indexes, c, resolver);
      && decision == o.decision && asked == o.asked
      && o.session == Session(am.cache, am.library.components, am.library.associations, am.library.packageAssociations)
  {
    var library := am.library;
    ghost var start := Session(am.cache, library.components, library.associations, library.packageAssociations);
    asked := false;
    var found := am.FindAssociated(c);
    assert found == Lookup(start, c);
    CachedAfterFind(start.cache, am.cache, c.Key(), found);
    if found.Some? && found.value.id == 0 {
      return found.value, false;
    }
    ghost var cached := am.cache;
    found := am.FindAssociated(c);
    if found.None? {
      var p := Ask(am, c, resolver);
      OverwriteCached(start.cache, cached, c.Key(), None, Some(p));
      asked := true;
    }
    found := am.FindAssociated(c);
    decision := found.value;
  }

  /** After a lookup through the cache, the cache maps the key to the answer, whether it was cached before or not. */
  lemma CachedAfterFind(before: map<string, Option<LibraryComponent>>, after: map<string, Option<LibraryComponent>>,
                        key: string, found: Option<LibraryComponent>)
    requires key in before ==> found == before[key] && after == before
    requires key !in before ==> after == before[key := found]
    ensures after == before[key := found]
  {
  }

  /**
   * The end of the second pass on one component (generate.go:193-211): a
   * component resolved to the skip part is dropped; any other goes to the
   * BOM with its part and, rotated by the part's correction, to the CPL.
   */
  method Place(bom: Bom, cpl: seq<BoardComponent>, c: BoardComponent, decision: LibraryComponent,
               ghost kept: seq<(BoardComponent, LibraryComponent)>) returns (placed: seq<BoardComponent>)
    requires bom.entries == BomOf(kept) && cpl == Rotated(kept)
    modifies bom
    ensures bom.entries == BomOf(KeepIf(kept, c, decision)) && placed == Rotated(KeepIf(kept, c, decision))
  {
    if decision.id == 0 {
      return cpl;
    }
    bom.AddComponent(c, decision);
    BomOfAppend(kept, (c, decision));
    var rotated := Rotate(c, decision.rotation);
    RotatedAppend(kept, (c, decision));
    placed := cpl + [rotated];
  }


  /**
   * The second pass of the command (generate.go:161-213): every component
   * is resolved; the skipped ones (part id 0) are dropped, the others go to
   * the BOM with their part and, rotated by its correction, to the CPL.
   */
  method ResolveComponents(am: AssociationMap, placed: seq<BoardComponent>, resolver: Resolver)
    returns (bom: map<int, BomEntry>, cpl: seq<BoardComponent>)
    modifies am`cache, am.library`associations, am.library`packageAssociations
    ensures var start := Session(old(am.cache), am.library.components, old(am.library.associations), old(am.library.packageAssociations));
      var r := ResolveAll(start, am.library.indexes, placed, resolver);
      && r.session == Session(am.cache, am.library.components, am.library.associations, am.library.packageAssociations)
      && bom == BomOf(Kept(placed, r.decisions))
      && cpl == Rotated(Kept(placed, r.decisions))
  {
    ghost var start := Session(am.cache, am.library.components, am.library.associations, am.library.packageAssociations);
    var library := am.library;
    var entries := new Bom();
    ghost var decisions: seq<LibraryComponent> := [];
    ghost var asked: seq<bool> := [];
    ghost var kept: seq<(BoardComponent, LibraryComponent)> := [];
    cpl := [];
    for i := 0 to |placed|
      invariant ResolveAll(start, library.indexes, placed[..i], resolver)
        == Resolution(Session(am.cache, library.components, library.associations, library.packageAssociations), decisions, asked)
      invariant |decisions| == i && fresh(entries)
      invariant kept == Kept(placed[..i], decisions)
      invariant entries.entries == BomOf(kept) && cpl == Rotated(kept)
    {
      ghost var before := Resolution(Session(am.cache, library.components, library.associations, library.packageAssociations), decisions, asked);
      var decision, wasAsked := ResolveComponent(am, placed[i], resolver);
      ResolveAllSnoc(start, library.indexes, placed, resolver, i, before,
                     Resolved(Session(am.cache, library.components, library.associations, library.packageAssociations), decision, wasAsked));
      KeptStep(placed, decisions, decision);
      cpl := Place(entries, cpl, placed[i], decision, kept);
      kept := KeepIf(kept, placed[i], decision);
      decisions := decisions + [decision];
      asked := asked + [wasAsked];
    }
    assert placed[..|placed|] == placed;
    bom := entries.entries;
  }

  // ---------------------------------------------------------------- the command

  /** Some order of the BOM's part ids, each once: the order Go's map iteration takes is unspecified. */
  method BomOrder(entries: map<int, BomEntry>) returns (order: seq<int>)
    ensures Enumerates(order, entries)
  {
    order := [];
    var rest := entries.Keys;
    while rest != {}
      invariant forall i, j | 0 <= i < j < |order| :: order[i] != order[j]
      invariant rest <= entries.Keys
      invariant forall id :: id in entries.Keys <==> id in rest || id in order
      invariant forall id | id in order :: id !in rest
      decreases rest
    {
      NonEmptyHasMember(rest);
      var id :| id in rest;
      order := order + [id];
      rest := rest - {id};
    }
    ghost var listed := set i | 0 <= i < |order| :: order[i];
    forall id | id in entries.Keys ensures id in listed {
      assert id in order;
      var i :| 0 <= i < |order| && order[i] == id;
    }
    forall id | id in listed ensures id in entries.Keys {
      var i :| 0 <= i < |order| && order[i] == id;
      assert order[i] in order;
    }
    assert entries.Keys == listed;
  }

  /** A set that is not empty has a member. */
  lemma NonEmptyHasMember(s: set<int>)
    requires s != {}
    ensures exists x :: x in s
  {
    if forall x :: x !in s {
      assert false;
    }
  }

  /**
   * The body of the generate command from the parsing of its flags to the
   * writing of the BOM and CPL files: the outcome, the rows of both files
   * and the order of the BOM's lines. The position file arrives as rows,
   * the prompt as `resolver`, number parsing and formatting as functions.
   */
  method Run(library: Library, posRows: seq<Row>, parseFloat: (string, int) -> ParsedFloat, redesignate: string, rotate: string,
             resolver: Resolver, formatFloat: (real, nat) -> string)
    returns (outcome: Outcome, bomOrder: seq<int>, bomRows: seq<Row>, cplRows: seq<Row>)
    modifies library`components, library`associations, library`packageAssociations
    ensures var pieces := Split(rotate, ',');
      rotate != "" && |pieces| % 2 == 1 ==>
        && outcome == Panicked(OddRotateList)
        && unchanged(library`components, library`associations, library`packageAssociations)
    ensures var pieces := Split(rotate, ',');
      (rotate == "" || |pieces| % 2 == 0) && PosComponents(posRows, parseFloat).None? ==>
        && outcome == Panicked(ShortPosRow)
        && unchanged(library`components, library`associations, library`packageAssociations)
    ensures var pieces := Split(rotate, ',');
      (rotate == "" || |pieces| % 2 == 0) && PosComponents(posRows, parseFloat).Some? ==>
        var placed := PosComponents(posRows, parseFloat).value;
        var redesignated := if redesignate == "" then {} else set k | 0 <= k < |Split(redesignate, ',')| :: Split(redesignate, ',')[k];
        var rotations := if rotate == "" then map[] else Overrides(pieces, parseFloat);
        var start := Session(map[], old(library.components), old(library.associations), old(library.packageAssociations));
        var first := OverrideAll(start, placed, redesignated, rotations);
        && (first.Stuck? ==> outcome == Panicked(NilAssociation(first.designator)))
        && (first.Applied? ==>
              var r := ResolveAll(first.session, library.indexes, placed, resolver);
              var kept := Kept(placed, r.decisions);
              && outcome == Generated(BomOf(kept), Rotated(kept))
              && library.components == r.session.components
              && library.associations == r.session.associations
              && library.packageAssociations == r.session.packageAssociations
              && Enumerates(bomOrder, outcome.bom)
              && |bomRows| == |bomOrder| + 1 && bomRows[0] == BomHeader
              && (forall i | 0 <= i < |bomOrder| :: bomRows[i + 1] == BomRow(bomOrder[i], outcome.bom[bomOrder[i]]))
              && |cplRows| == |outcome.cpl| + 1 && cplRows[0] == CplHeader
              && (forall i | 0 <= i < |outcome.cpl| ::
                    var c := outcome.cpl[i];
                    cplRows[i + 1] == [c.designator, formatFloat(c.x, 4), formatFloat(c.y, 4), c.layer, formatFloat(c.rotation, 0)]))
  {
    bomOrder, bomRows, cplRows := [], [], [];
    var redesignated := ParseRedesignations(redesignate);
    var rotations := ParseRotations(rotate, parseFloat);
    if rotations.None? {
      return Panicked(OddRotateList), bomOrder, bomRows, cplRows;
    }
    var placed := ReadPOS(posRows, parseFloat);
    if placed.None? {
      return Panicked(ShortPosRow), bomOrder, bomRows, cplRows;
    }
    outcome, bomOrder, bomRows, cplRows := Assemble(library, placed.value, redesignated, rotations.value, resolver, formatFloat);
  }

  /**
   * The command once its flags and the position file are read: the two
   * passes over the placed components, then the BOM and CPL rows.
   */
  method Assemble(library: Library, placed: seq<BoardComponent>, redesignated: set<string>, rotations: map<string, real>,
                  resolver: Resolver, formatFloat: (real, nat) -> string)
    returns (outcome: Outcome, bomOrder: seq<int>, bomRows: seq<Row>, cplRows: seq<Row>)
    modifies library`components, library`associations, library`packageAssociations
    ensures var start := Session(map[], old(library.components), old(library.associations), old(library.packageAssociations));
      var first := OverrideAll(start, placed, redesignated, rotations);
      && (first.Stuck? ==> outcome == Panicked(NilAssociation(first.designator)))
      && (first.Applied? ==>
            var r := ResolveAll(first.session, library.indexes, placed, resolver);
            var kept := Kept(placed, r.decisions);
            && outcome == Generated(BomOf(kept), Rotated(kept))
            && library.components == r.session.components
            && library.associations == r.session.associations
            && library.packageAssociations == r.session.packageAssociations
            && Enumerates(bomOrder, outcome.bom)
            && |bomRows| == |bomOrder| + 1 && bomRows[0] == BomHeader
            && (forall i | 0 <= i < |bomOrder| :: bomRows[i + 1] == BomRow(bomOrder[i], outcome.bom[bomOrder[i]]))
            && |cplRows| == |outcome.cpl| + 1 && cplRows[0] == CplHeader
            && (forall i | 0 <= i < |outcome.cpl| ::
                  var c := outcome.cpl[i];
                  cplRows[i + 1] == [c.designator, formatFloat(c.x, 4), formatFloat(c.y, 4), c.layer, formatFloat(c.rotation, 0)]))
  {
    bomOrder, bomRows, cplRows := [], [], [];
    var am := new AssociationMap(library);
    var stuck := ApplyOverrides(am, placed, redesignated, rotations);
    if stuck.Some? {
      return Panicked(NilAssociation(stuck.value)), bomOrder, bomRows, cplRows;
    }
    var bom, cpl := ResolveComponents(am, placed, resolver);
    bomOrder := BomOrder(bom);
    bomRows := WriteBOM(bom, bomOrder);
    cplRows := WriteCPL(cpl, formatFloat);
    outcome := Generated(bom, cpl);
  }
}
