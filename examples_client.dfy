/** Callers of the joiner, checked only through its contracts: each method
    replays one documented scenario and asserts the value it must give. */
module JoinerClients {
  import opened Wrappers
  import opened Strings
  import opened PreussUtils

  /** `Boolean.toString`. */
  function BoolText(b: bool): string
  {
    if b then "true" else "false"
  }

  /** The empty value replaces `prefix + suffix` only until the first add. */
  method EmptyValueScenario()
  {
    var j := new StringJoiner("-", "[", "]");
    assert j.ToString() == "[]";
    assert j.Length() == 2;
    var _ := j.SetEmptyValue("EMPTY");
    assert j.ToString() == "EMPTY";
    var _ := j.Add(Some(""));
    assert "[" + "" + "]" == "[]";
    assert j.ToString() == "[]";
  }

  /** A null element reads as "null", after the delimiter. */
  method NullElementScenario()
  {
    var j := new StringJoiner("-", "[", "]");
    var _ := j.Add(Some(""));
    assert j.fragments == [""];
    var _ := j.Add(None);
    assert Join([""], "-") == "" by { assert |[""]| == 1; }
    assert "[" + "" + "-" + "null" + "]" == "[-null]";
    assert j.ToString() == "[-null]";
    assert j.Length() == 7;
  }

  method MergeEmptyScenario()
  {
    var j := new StringJoiner.Default();
    var _ := j.Add(Some("a"));
    var _ := j.Add(Some("b"));
    assert j.fragments == ["a", "b"];
    var empty := new StringJoiner.WithDelimiter("-");
    var _ := j.Merge(empty);
    assert j.fragments == ["a", "b"];
    assert Join(["a", "b"], ",") == "a" + "," + Join(["b"], ",");
    assert j.ToString() == "a,b";
  }

  /** The joins the merge scenario relies on. */
  lemma MergeJoins()
    ensures Join(["x", "y"], "-") == "x-y"
    ensures Join(["a", "x-y"], ",") == "a,x-y"
  {
  }

  /** Two fragments "x" and "y" under delimiter "-" merge as "x-y". */
  method MergeScenario()
  {
    var other := new StringJoiner("-", "<", ">");
    var _ := other.Add(Some("x"));
    var _ := other.Add(Some("y"));
    var k := new StringJoiner.Default();
    var _ := k.Add(Some("a"));
    assert other.fragments == ["x", "y"] && k.fragments == ["a"];
    var _ := k.Merge(other);
    MergeJoins();
    assert other.fragments == ["x", "y"];
    assert k.fragments == ["a", "x-y"];
    assert k.ToString() == k.prefix + Join(k.fragments, k.delimiter) + k.suffix;
    assert "" + "a,x-y" + "" == "a,x-y";
    assert k.ToString() == "a,x-y";
  }

  /** For any joiner, adding the empty string after setting an empty value
      makes the joiner non-empty: from then on its value ignores the empty
      value, and a joiner that had nothing in it shows `prefix + suffix`. */
  method EmptyStringStillCounts(j: StringJoiner, e: string)
    modifies j
    ensures j.fragments == old(j.fragments) + [""] && j.fragments != []
    ensures j.emptyValue == Some(e)
    ensures old(j.fragments) == [] ==> j.ToString() == j.prefix + j.suffix
    ensures old(j.fragments) != [] ==>
              j.ToString() == j.prefix + Join(old(j.fragments), j.delimiter) + j.delimiter + j.suffix
  {
    var _ := j.SetEmptyValue(e);
    var _ := j.Add(Some(""));
    assert j.prefix + "" + j.suffix == j.prefix + j.suffix;
  }

  method NotEmptyScenario()
  {
    var j := new StringJoiner.Default();
    var _ := j.AddIfNotEmpty(Some("P:"), Some(""));
    assert j.fragments == [];
    var _ := j.AddIfNotEmpty(Some("P:"), Some("v"));
    assert Text(Some("P:")) + "v" == "P:v";
    assert j.fragments == ["P:v"];
  }

  method NotBlankScenario()
  {
    var j := new StringJoiner.Default();
    assert !IsBlank(" x") by { assert !IsWhitespace(" x"[1]); }
    assert IsBlank("   ");
    var _ := j.AddIfNotBlank(Some("P:"), Some("   "));
    assert j.fragments == [];
    var _ := j.AddIfNotBlank(Some("P:"), Some(" x"));
    assert j.fragments == [" x"];
  }

  method PredicateScenario()
  {
    var j := new StringJoiner.Default();
    var isTrue := (e: Option<bool>) => e == Some(true);
    var _ := j.AddIfTrue(Some("flag="), Some(true), isTrue, BoolText);
    assert Text(Some("flag=")) + ValueOf(Some(true), BoolText) == "flag=true";
    var _ := j.AddIfTrue(Some("flag="), Some(false), isTrue, BoolText);
    var _ := j.AddTrueElseOther(Some("flag="), Some(false), Some("default"), isTrue, BoolText);
    assert Text(Some("flag=")) + Text(Some("default")) == "flag=default";
    assert j.fragments == ["flag=true", "flag=default"];
  }

  /** A null piece contributes "null" to the concatenation. */
  lemma ConcatWithNull()
    ensures Concat([Some("a"), None, Some("b")]) == "anullb"
  {
  }

  method ConcatenatedScenario()
  {
    var j := new StringJoiner.Default();
    var _ := j.AddConcatenated([Some("a"), None, Some("b")]);
    ConcatWithNull();
    assert j.fragments == ["anullb"];
  }
}
