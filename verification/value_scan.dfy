/**
 * The value extractors of lib/library.go: `FindString` of the patterns
 * `[0-9\.]+(nF|pF|uF)`, `[0-9\.]+(k|MOhms|KOhms|Ohms)` and
 * `[0-9\.]+(uH|mH)` over a part description, written as a scanner.
 *
 * Every unit starts with a letter, so the greedy digit run of a match is
 * always the whole run of value characters: a match starts at i exactly
 * when a run of value characters starts at i and the text after the end
 * of that run begins with a unit. `FindString` returns the leftmost match
 * (the first unit in pattern order when several could follow), or "".
 */
module ValueScan {
  import opened Wrappers
  import opened Text

  predicate IsValueChar(c: char) {
    '0' <= c <= '9' || c == '.'
  }

  const CapacitorUnits: seq<string> := ["nF", "pF", "uF"]
  const ResistorUnits: seq<string> := ["k", "MOhms", "KOhms", "Ohms"]
  const InductorUnits: seq<string> := ["uH", "mH"]

  /** Every unit is non-empty and begins with a character a digit run cannot contain. */
  predicate UnitsWellFormed(units: seq<string>) {
    forall i | 0 <= i < |units| :: |units[i]| > 0 && !IsValueChar(units[i][0])
  }

  /** The end of the longest run of value characters starting at i. */
  function RunEnd(s: string, i: nat): (j: nat)
    requires i <= |s|
    ensures i <= j <= |s|
    ensures forall t | i <= t < j :: IsValueChar(s[t])
    ensures j < |s| ==> !IsValueChar(s[j])
    decreases |s| - i
  {
    if i < |s| && IsValueChar(s[i]) then RunEnd(s, i + 1) else i
  }

  /** The first unit, in pattern order, that the text from k starts with. */
  function FirstUnit(s: string, k: nat, units: seq<string>): (r: Option<string>)
    requires k <= |s|
    ensures r.Some? ==> r.value in units && HasPrefix(s[k..], r.value)
    ensures r.None? ==> forall i | 0 <= i < |units| :: !HasPrefix(s[k..], units[i])
  {
    if units == [] then None
    else if HasPrefix(s[k..], units[0]) then Some(units[0])
    else FirstUnit(s, k, units[1..])
  }

  /** The pattern matches `s[i..k] + u`: a non-empty run of value characters, then the unit u. */
  predicate MatchAt(s: string, i: nat, k: nat, u: string, units: seq<string>) {
    i < k <= |s| && (forall t | i <= t < k :: IsValueChar(s[t])) && u in units && HasPrefix(s[k..], u)
  }

  /** Some match of the pattern starts at i. */
  predicate MatchStartsAt(s: string, i: nat, units: seq<string>) {
    i < |s| && IsValueChar(s[i]) && FirstUnit(s, RunEnd(s, i), units).Some?
  }

  /** The text of the match the regular expression engine picks at a start position. */
  function MatchText(s: string, i: nat, units: seq<string>): string
    requires MatchStartsAt(s, i, units)
  {
    s[i..RunEnd(s, i)] + FirstUnit(s, RunEnd(s, i), units).value
  }

  /** `MatchStartsAt` is exactly "some match starts here", and the run end is the only possible k. */
  lemma MatchAtCharacterised(s: string, i: nat, k: nat, u: string, units: seq<string>)
    requires UnitsWellFormed(units)
    ensures MatchAt(s, i, k, u, units) ==> k == RunEnd(s, i) && MatchStartsAt(s, i, units)
    ensures MatchStartsAt(s, i, units) ==> MatchAt(s, i, RunEnd(s, i), FirstUnit(s, RunEnd(s, i), units).value, units)
  {
    if MatchAt(s, i, k, u, units) {
      RunEndOfPrefix(s, i, k);
      var n :| 0 <= n < |units| && units[n] == u;
      assert s[k] == s[k..][0] == u[0];
      assert !FirstUnit(s, k, units).None?;
    }
  }

  /** A run of value characters from i to k ends at or after k. */
  lemma {:induction false} RunEndOfPrefix(s: string, i: nat, k: nat)
    requires i <= k <= |s|
    requires forall t | i <= t < k :: IsValueChar(s[t])
    ensures RunEnd(s, i) >= k
    decreases k - i
  {
    if i < k {
      RunEndOfPrefix(s, i + 1, k);
    }
  }

  /** Every position inside a run shares the run's end. */
  lemma {:induction false} RunEndInside(s: string, i: nat, j: nat)
    requires i <= |s| && i <= j <= RunEnd(s, i)
    ensures RunEnd(s, j) == RunEnd(s, i)
    decreases j - i
  {
    if i < j {
      RunEndInside(s, i + 1, j);
    }
  }

  /** The scan: skip to the next run of value characters, test what follows it, else continue after it. */
  function FindFrom(s: string, i: nat, units: seq<string>): string
    requires i <= |s|
    decreases |s| - i
  {
    if i == |s| then ""
    else if !IsValueChar(s[i]) then FindFrom(s, i + 1, units)
    else
      var k := RunEnd(s, i);
      match FirstUnit(s, k, units)
      case Some(u) => s[i..k] + u
      case None => FindFrom(s, k, units)
  }

  /** `regexp.FindString` for the pattern `[0-9\.]+(units[0]|units[1]|...)`. */
  function FindString(s: string, units: seq<string>): string {
    FindFrom(s, 0, units)
  }

  /** The scan from i finds the leftmost match at or after i, or "" when there is none. */
  lemma {:induction false} FindFromLeftmost(s: string, i: nat, units: seq<string>)
    requires i <= |s|
    requires UnitsWellFormed(units)
    ensures FindFrom(s, i, units) == "" <==> forall j | i <= j < |s| :: !MatchStartsAt(s, j, units)
    ensures FindFrom(s, i, units) != "" ==>
      exists j | i <= j < |s| ::
        && MatchStartsAt(s, j, units)
        && (forall j' | i <= j' < j :: !MatchStartsAt(s, j', units))
        && FindFrom(s, i, units) == MatchText(s, j, units)
    decreases |s| - i
  {
    if i == |s| {
    } else if !IsValueChar(s[i]) {
      FindFromLeftmost(s, i + 1, units);
      assert !MatchStartsAt(s, i, units);
      if FindFrom(s, i, units) != "" {
        var j :| i + 1 <= j < |s| && MatchStartsAt(s, j, units)
          && (forall j' | i + 1 <= j' < j :: !MatchStartsAt(s, j', units))
          && FindFrom(s, i + 1, units) == MatchText(s, j, units);
        assert forall j' | i <= j' < j :: !MatchStartsAt(s, j', units);
      }
    } else {
      var k := RunEnd(s, i);
      match FirstUnit(s, k, units)
      case Some(u) =>
        assert MatchStartsAt(s, i, units);
        assert FindFrom(s, i, units) == MatchText(s, i, units);
      case None =>
        forall j | i <= j < k ensures !MatchStartsAt(s, j, units) {
          RunEndInside(s, i, j);
        }
        FindFromLeftmost(s, k, units);
        if FindFrom(s, i, units) != "" {
          var j :| k <= j < |s| && MatchStartsAt(s, j, units)
            && (forall j' | k <= j' < j :: !MatchStartsAt(s, j', units))
            && FindFrom(s, k, units) == MatchText(s, j, units);
          assert forall j' | i <= j' < j :: !MatchStartsAt(s, j', units);
        }
    }
  }

  /**
   * `FindString` returns "" exactly when the pattern matches nowhere, and
   * otherwise the text of the leftmost match, which is a substring of `s`
   * followed by one of the units.
   */
  lemma FindStringLeftmost(s: string, units: seq<string>)
    requires UnitsWellFormed(units)
    ensures FindString(s, units) == "" <==> forall i: nat, k: nat, u: string :: !MatchAt(s, i, k, u, units)
    ensures FindString(s, units) != "" ==>
      exists i: nat, k: nat, u: string ::
        && MatchAt(s, i, k, u, units)
        && FindString(s, units) == s[i..k] + u
        && (forall i': nat, k': nat, u': string | i' < i :: !MatchAt(s, i', k', u', units))
  {
    FindFromLeftmost(s, 0, units);
    forall i: nat, k: nat, u: string | MatchAt(s, i, k, u, units) ensures MatchStartsAt(s, i, units) {
      MatchAtCharacterised(s, i, k, u, units);
    }
    if FindString(s, units) != "" {
      var j :| 0 <= j < |s| && MatchStartsAt(s, j, units)
        && (forall j' | 0 <= j' < j :: !MatchStartsAt(s, j', units))
        && FindString(s, units) == MatchText(s, j, units);
      var k := RunEnd(s, j);
      var u := FirstUnit(s, k, units).value;
      MatchAtCharacterised(s, j, k, u, units);
      assert MatchAt(s, j, k, u, units);
    } else {
      forall i: nat, k: nat, u: string ensures !MatchAt(s, i, k, u, units) {
        MatchAtCharacterised(s, i, k, u, units);
      }
    }
  }

  lemma UnitTablesWellFormed()
    ensures UnitsWellFormed(CapacitorUnits)
    ensures UnitsWellFormed(ResistorUnits)
    ensures UnitsWellFormed(InductorUnits)
  {
  }
}
