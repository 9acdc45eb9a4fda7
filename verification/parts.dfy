/**
 * The two records the engine works with: a catalog part (`LibraryComponent`,
 * lib/library.go) and a placed board component (`BoardComponent`,
 * lib/cpl.go), with their derived names: the catalog id "C<n>", the
 * class prefix and value of a part, and the designator prefix, value and
 * association key of a board component.
 */
module Parts {
  import opened Wrappers
  import opened Text
  import opened Numbers
  import opened Util
  import opened ValueScan

  /** A catalog part. Rotation is the placement correction, in degrees. */
  datatype LibraryComponent = LibraryComponent(
    id: int,
    firstCategory: string,
    secondCategory: string,
    part: string,
    package: string,
    solderJoint: string,
    manufacturer: string,
    libraryType: string,
    description: string,
    rotation: real)
  {
    /** The catalog id, "C" followed by the decimal id. */
    function CID(): string {
      CidOf(id)
    }

    /** The designator class a first category stands for: C, R, L or none. */
    function Prefix(): string {
      CategoryPrefix(firstCategory)
    }

    /** The value read from the description: the first value-with-unit, its unit suffix trimmed. */
    function Value(): string {
      if Prefix() == "" then "" else NormalizeValue(FindString(description, UnitsOf(Prefix())))
    }
  }

  /** The part Go's zero value stands for: id 0, every text empty, rotation 0. */
  const ZeroComponent: LibraryComponent := LibraryComponent(0, "", "", "", "", "", "", "", "", 0.0)

  /** `fmt.Sprintf("C%1.1d", id)`. */
  function CidOf(id: int): string {
    "C" + FormatInt(id)
  }

  function CategoryPrefix(category: string): (r: string)
    ensures r == "C" <==> category == "Capacitors"
    ensures r == "R" <==> category == "Resistors"
    ensures r == "L" <==> category == "Inductors & Chokes & Transformers"
    ensures r in {"", "C", "R", "L"}
  {
    if category == "Capacitors" then "C"
    else if category == "Resistors" then "R"
    else if category == "Inductors & Chokes & Transformers" then "L"
    else ""
  }

  /** The unit alternatives of the value pattern used for each class. */
  function UnitsOf(prefix: string): (units: seq<string>)
    ensures UnitsWellFormed(units)
  {
    UnitTablesWellFormed();
    if prefix == "C" then CapacitorUnits
    else if prefix == "R" then ResistorUnits
    else InductorUnits
  }

  /** A component placed on the board, as the position file lists it. */
  datatype BoardComponent = BoardComponent(
    designator: string,
    comment: string,
    package: string,
    x: real,
    y: real,
    rotation: real,
    layer: string)
  {
    /** The letters of the designator ("R12" -> "R", "SW3" -> "SW"). */
    function Prefix(): string {
      LettersOnly(designator)
    }

    /** The comment with its unit suffix trimmed. */
    function Value(): string {
      NormalizeValue(comment)
    }

    /** The association key: prefix, raw comment and package, with ':' in the last two replaced by '_'. */
    function Key(): string {
      Prefix() + ":" + Sanitize(comment) + ":" + Sanitize(package)
    }
  }

  /** `strings.ReplaceAll(s, ":", "_")`. */
  function Sanitize(s: string): (r: string)
    ensures |r| == |s| && ':' !in r
  {
    ReplaceChar(s, ':', '_')
  }

  // ---------------------------------------------------------------- catalog ids

  /** Distinct ids have distinct catalog ids. */
  lemma CidInjective(m: int, n: int)
    ensures CidOf(m) == CidOf(n) <==> m == n
  {
    if CidOf(m) == CidOf(n) {
      assert FormatInt(m) == CidOf(m)[1..] == CidOf(n)[1..] == FormatInt(n);
      FormatIntInjective(m, n);
    }
  }

  /** The skip sentinel "C0" is the catalog id of id 0 and of no other. */
  lemma CidZero(n: int)
    ensures CidOf(n) == "C0" <==> n == 0
  {
    assert CidOf(0) == "C0";
    CidInjective(n, 0);
  }

  /** `FromCID` reads back every 64-bit id that `CID` wrote. */
  lemma FromCidOfCid(n: int)
    requires IsInt64(n)
    ensures FromCID(CidOf(n)) == n
  {
    assert HasPrefix(CidOf(n), "C");
    assert TrimPrefix(CidOf(n), "C") == FormatInt(n);
    FormatIntRoundTrip(n);
  }

  // ---------------------------------------------------------------- values

  /**
   * Trimming unit suffixes that contain no digit or '.' never cuts into a
   * leading run of digits and dots.
   */
  lemma {:induction false} TrimEachKeepsRun(val: string, run: string, suffixes: seq<string>)
    requires HasPrefix(val, run)
    requires forall t | 0 <= t < |run| :: IsValueChar(run[t])
    requires forall j, t | 0 <= j < |suffixes| && 0 <= t < |suffixes[j]| :: !IsValueChar(suffixes[j][t])
    ensures HasPrefix(TrimEach(val, suffixes), run)
    decreases |suffixes|
  {
    if suffixes != [] {
      var suf := suffixes[0];
      var once := TrimSuffix(val, suf);
      if HasSuffix(val, suf) && run != [] {
        var start := |val| - |suf|;
        forall q | start <= q < |val| ensures !IsValueChar(val[q]) {
          assert val[q] == val[start..][q - start];
        }
        assert IsValueChar(val[|run| - 1]) by {
          assert val[|run| - 1] == val[..|run|][|run| - 1];
        }
        assert |once| >= |run|;
      }
      assert HasPrefix(once, run) by {
        if HasSuffix(val, suf) {
          assert once[..|run|] == val[..|run|];
        }
      }
      TrimEachKeepsRun(once, run, suffixes[1..]);
    }
  }

  lemma UnitSuffixesHaveNoValueChars()
    ensures forall j, t | 0 <= j < |UnitSuffixes| && 0 <= t < |UnitSuffixes[j]| :: !IsValueChar(UnitSuffixes[j][t])
  {
  }

  /**
   * The value of a catalog part is empty when its class is none of C, R, L
   * or when the description holds no value with a unit of its class;
   * otherwise it is the leftmost such value, keeping all its digits and
   * dots and losing at most its unit suffix.
   */
  lemma ValueFromDescription(c: LibraryComponent)
    ensures c.Prefix() == "" ==> c.Value() == ""
    ensures c.Prefix() != "" ==>
      (c.Value() == "" <==> forall i: nat, k: nat, u: string :: !MatchAt(c.description, i, k, u, UnitsOf(c.Prefix())))
    ensures c.Prefix() != "" && c.Value() != "" ==>
      exists i: nat, k: nat, u: string ::
        && MatchAt(c.description, i, k, u, UnitsOf(c.Prefix()))
        && (forall i': nat, k': nat, u': string | i' < i :: !MatchAt(c.description, i', k', u', UnitsOf(c.Prefix())))
        && HasPrefix(c.description[i..k] + u, c.Value())
        && HasPrefix(c.Value(), c.description[i..k])
  {
    if c.Prefix() != "" {
      var s := c.description;
      var units := UnitsOf(c.Prefix());
      FindStringLeftmost(s, units);
      var found := FindString(s, units);
      if found != "" {
        var i: nat, k: nat, u: string :| MatchAt(s, i, k, u, units) && found == s[i..k] + u
          && (forall i': nat, k': nat, u': string | i' < i :: !MatchAt(s, i', k', u', units));
        assert HasPrefix(found, s[i..k]) by {
          assert found[..k - i] == s[i..k];
        }
        UnitSuffixesHaveNoValueChars();
        TrimEachKeepsRun(found, s[i..k], UnitSuffixes);
        assert |s[i..k]| > 0;
      } else {
        assert NormalizeValue(found) == "";
      }
    }
  }

  // ---------------------------------------------------------------- keys

  /** The key splits on ':' into exactly its three fields. */
  lemma KeyFields(b: BoardComponent)
    ensures Split(b.Key(), ':') == [b.Prefix(), Sanitize(b.comment), Sanitize(b.package)]
  {
    var xs := [b.Prefix(), Sanitize(b.comment), Sanitize(b.package)];
    assert ':' !in b.Prefix() by {
      assert !IsAsciiLetter(':');
    }
    assert Join(xs[2..], ':') == Sanitize(b.package);
    assert Join(xs[1..], ':') == Sanitize(b.comment) + [':'] + Sanitize(b.package);
    assert Join(xs, ':') == b.Key();
    SplitJoin(xs, ':');
  }

  /** Every key holds exactly two ':' separators. */
  lemma KeyHasTwoColons(b: BoardComponent)
    ensures Count(b.Key(), ':') == 2
  {
    KeyFields(b);
  }

  /** Two components share a key exactly when prefix, sanitised comment and sanitised package agree. */
  lemma KeyInjective(a: BoardComponent, b: BoardComponent)
    ensures a.Key() == b.Key() <==>
      a.Prefix() == b.Prefix() && Sanitize(a.comment) == Sanitize(b.comment) && Sanitize(a.package) == Sanitize(b.package)
  {
    KeyFields(a);
    KeyFields(b);
  }

  /** Components with the same key have the same designator prefix. */
  lemma SameKeySamePrefix(a: BoardComponent, b: BoardComponent)
    requires a.Key() == b.Key()
    ensures a.Prefix() == b.Prefix()
  {
    KeyInjective(a, b);
  }

  /** The key keeps the raw comment: "10k" and "10kOhms" have one value but two keys. */
  lemma KeyUsesRawComment()
    ensures var a := BoardComponent("R1", "10k", "R_0603", 0.0, 0.0, 0.0, "top");
      var b := BoardComponent("R1", "10kOhms", "R_0603", 0.0, 0.0, 0.0, "top");
      a.Value() == b.Value() && a.Key() != b.Key()
  {
    NormalizeValueExampleKilo();
    NormalizeValueExampleOhms();
    var a := BoardComponent("R1", "10k", "R_0603", 0.0, 0.0, 0.0, "top");
    var b := BoardComponent("R1", "10kOhms", "R_0603", 0.0, 0.0, 0.0, "top");
    KeyInjective(a, b);
    assert |Sanitize(a.comment)| != |Sanitize(b.comment)|;
  }

  /** Sanitising is lossy: a comment "a:b" and a comment "a_b" share a key. */
  lemma KeyConflatesColon()
    ensures var a := BoardComponent("U1", "a:b", "P", 0.0, 0.0, 0.0, "top");
      var b := BoardComponent("U1", "a_b", "P", 0.0, 0.0, 0.0, "top");
      a.comment != b.comment && a.Key() == b.Key()
  {
    var a := BoardComponent("U1", "a:b", "P", 0.0, 0.0, 0.0, "top");
    var b := BoardComponent("U1", "a_b", "P", 0.0, 0.0, 0.0, "top");
    assert Sanitize(a.comment) == "a_b" == Sanitize(b.comment);
  }
}
