/** The value normaliser and the catalog-id reader of lib/util.go. */
module Util {
  import opened Text
  import opened Numbers

  /** The unit suffixes `NormalizeValue` tries, in this order ("Ω" is U+03A9). */
  const UnitSuffixes: seq<string> := ["\U{03A9}", "Ohms", "Ohm", "F", "H", "f", "h"]

  /** One `strings.TrimSuffix` per suffix, in list order: a left fold over `suffixes`. */
  function TrimEach(val: string, suffixes: seq<string>): (r: string)
    ensures HasPrefix(val, r)
    decreases |suffixes|
  {
    if suffixes == [] then val
    else
      var once := TrimSuffix(val, suffixes[0]);
      var r := TrimEach(once, suffixes[1..]);
      assert HasPrefix(once, r) && HasPrefix(val, once);
      assert val[..|r|] == once[..|r|];
      r
  }

  /**
   * The value part of a component value: the unit suffixes are stripped,
   * each at most once, and nothing else is changed (magnitudes such as
   * "2k2" and "2200" are not unified).
   */
  function NormalizeValue(val: string): (r: string)
    ensures HasPrefix(val, r)
    ensures |val| - |r| <= 4 + 3 + 1 + 1 + 1 + 1 + 1
  {
    TrimEachBound(val, UnitSuffixes);
    TrimEach(val, UnitSuffixes)
  }

  /** Total length of a list of strings. */
  function TotalLength(xs: seq<string>): nat {
    if xs == [] then 0 else |xs[0]| + TotalLength(xs[1..])
  }

  /** Each suffix is removed at most once, so at most their total length goes. */
  lemma {:induction false} TrimEachBound(val: string, suffixes: seq<string>)
    ensures |val| - |TrimEach(val, suffixes)| <= TotalLength(suffixes)
    decreases |suffixes|
  {
    if suffixes != [] {
      TrimEachBound(TrimSuffix(val, suffixes[0]), suffixes[1..]);
    }
  }

  /** A value that ends in none of the suffixes is left as it is. */
  lemma {:induction false} TrimEachUnchanged(val: string, suffixes: seq<string>)
    requires forall i | 0 <= i < |suffixes| :: !HasSuffix(val, suffixes[i])
    ensures TrimEach(val, suffixes) == val
  {
    if suffixes != [] {
      TrimEachUnchanged(val, suffixes[1..]);
    }
  }

  /** An input ending in none of the unit suffixes is returned unchanged ("1200" stays "1200"). */
  lemma NormalizeValueUnchanged(val: string)
    requires forall i | 0 <= i < |UnitSuffixes| :: !HasSuffix(val, UnitSuffixes[i])
    ensures NormalizeValue(val) == val
  {
    TrimEachUnchanged(val, UnitSuffixes);
  }

  /** A string whose last character differs from each suffix's last character ends with none of them. */
  lemma LastCharRulesOut(s: string, suffixes: seq<string>)
    requires s != []
    requires forall i | 0 <= i < |suffixes| :: suffixes[i] != [] && suffixes[i][|suffixes[i]| - 1] != s[|s| - 1]
    ensures forall i | 0 <= i < |suffixes| :: !HasSuffix(s, suffixes[i])
  {
  }

  lemma TrimEachStep(val: string, suffixes: seq<string>)
    requires suffixes != []
    ensures TrimEach(val, suffixes) == TrimEach(TrimSuffix(val, suffixes[0]), suffixes[1..])
  {
  }

  /**
   * The fold over any suffix list: when suffix k is the first that matches
   * and no later one matches what it leaves, exactly suffix k is removed.
   */
  lemma TrimEachStripsAt(val: string, suffixes: seq<string>, k: nat)
    requires k < |suffixes| && HasSuffix(val, suffixes[k])
    requires forall i | 0 <= i < k :: !HasSuffix(val, suffixes[i])
    requires forall i | k < i < |suffixes| :: !HasSuffix(val[..|val| - |suffixes[k]|], suffixes[i])
    ensures TrimEach(val, suffixes) == val[..|val| - |suffixes[k]|]
  {
    var j := 0;
    while j < k
      invariant 0 <= j <= k
      invariant TrimEach(val, suffixes) == TrimEach(val, suffixes[j..])
    {
      TrimEachStep(val, suffixes[j..]);
      assert suffixes[j..][1..] == suffixes[j + 1..];
      j := j + 1;
    }
    TrimEachStep(val, suffixes[k..]);
    assert suffixes[k..][1..] == suffixes[k + 1..];
    TrimEachUnchanged(val[..|val| - |suffixes[k]|], suffixes[k + 1..]);
  }

  /** A value ending in a unit suffix loses that suffix once: "10kOhms" -> "10k", "10uF" -> "10u", "10uH" -> "10u". */
  lemma NormalizeValueStripsUnit(val: string, k: nat)
    requires k < |UnitSuffixes| && HasSuffix(val, UnitSuffixes[k])
    requires forall i | 0 <= i < k :: !HasSuffix(val, UnitSuffixes[i])
    requires var rest := val[..|val| - |UnitSuffixes[k]|];
      forall i | k < i < |UnitSuffixes| :: !HasSuffix(rest, UnitSuffixes[i])
    ensures NormalizeValue(val) == val[..|val| - |UnitSuffixes[k]|]
  {
    TrimEachStripsAt(val, UnitSuffixes, k);
  }

  /** Documented case: "10k" has no unit suffix and is kept. */
  lemma NormalizeValueExampleKilo()
    ensures NormalizeValue("10k") == "10k"
  {
    LastCharRulesOut("10k", UnitSuffixes);
    NormalizeValueUnchanged("10k");
  }

  /** Documented case: "10kOhms" loses "Ohms". */
  lemma NormalizeValueExampleOhms()
    ensures NormalizeValue("10kOhms") == "10k"
  {
    var v := "10kOhms";
    assert v[..3] == "10k" && v[3..] == "Ohms";
    assert HasSuffix(v, UnitSuffixes[1]);
    assert !HasSuffix(v, UnitSuffixes[0]);
    LastCharRulesOut("10k", UnitSuffixes[2..]);
    assert forall i | 1 < i < |UnitSuffixes| :: UnitSuffixes[i] == UnitSuffixes[2..][i - 2];
    NormalizeValueStripsUnit(v, 1);
  }

  /** Documented case: "10uF" loses "F". */
  lemma NormalizeValueExampleFarad()
    ensures NormalizeValue("10uF") == "10u"
  {
    var v := "10uF";
    assert v[..3] == "10u" && v[3..] == "F";
    LastCharRulesOut(v, UnitSuffixes[..3]);
    assert forall i | 0 <= i < 3 :: UnitSuffixes[i] == UnitSuffixes[..3][i];
    LastCharRulesOut("10u", UnitSuffixes[4..]);
    assert forall i | 3 < i < |UnitSuffixes| :: UnitSuffixes[i] == UnitSuffixes[4..][i - 4];
    NormalizeValueStripsUnit(v, 3);
  }

  /** Documented case: "10uH" loses "H". */
  lemma NormalizeValueExampleHenry()
    ensures NormalizeValue("10uH") == "10u"
  {
    var v := "10uH";
    assert v[..3] == "10u" && v[3..] == "H";
    LastCharRulesOut(v, UnitSuffixes[..4]);
    assert forall i | 0 <= i < 4 :: UnitSuffixes[i] == UnitSuffixes[..4][i];
    LastCharRulesOut("10u", UnitSuffixes[5..]);
    assert forall i | 4 < i < |UnitSuffixes| :: UnitSuffixes[i] == UnitSuffixes[5..][i - 5];
    NormalizeValueStripsUnit(v, 4);
  }

  /** Magnitudes are not rescaled: "1200" is not turned into "1.2k". */
  lemma NormalizeValueKeepsMagnitude()
    ensures NormalizeValue("1200") == "1200"
  {
    LastCharRulesOut("1200", UnitSuffixes);
    NormalizeValueUnchanged("1200");
  }

  /** `FromCID`: one leading "C" is dropped and the rest read as a 64-bit integer, errors ignored. */
  function FromCID(cid: string): (r: int)
    ensures IsInt64(r)
    ensures ParseDecimal(TrimPrefix(cid, "C")).None? ==> r == 0
    ensures ParseDecimal(TrimPrefix(cid, "C")).Some? && IsInt64(ParseDecimal(TrimPrefix(cid, "C")).value) ==>
      r == ParseDecimal(TrimPrefix(cid, "C")).value
  {
    ParseIntValue(TrimPrefix(cid, "C"))
  }

  /** One "C" is dropped, not two; an empty or non-numeric id reads as 0. */
  lemma FromCidExamples()
    ensures FromCID("C12") == 12 && FromCID("12") == 12
    ensures FromCID("") == 0 && FromCID("C") == 0 && FromCID("CC5") == 0
  {
    assert TrimPrefix("C12", "C") == "12";
    assert TrimPrefix("CC5", "C") == "C5";
    assert TrimPrefix("C", "C") == "";
    assert DigitsValue("12") == DigitsValue("1") * 10 + 2;
  }
}
