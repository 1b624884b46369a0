/**
 * The label map: each name of the (trimmed, newline-split) label list maps
 * to the decimal form of its 0-based position; a repeated name keeps the
 * position of its last occurrence.
 */
module LabelMap {
  import opened Text

  /** The map the `forEach` over the names builds, entry by entry. */
  function LabelIndex(names: seq<string>): map<string, string>
    decreases |names|
  {
    if |names| == 0 then map[]
    else LabelIndex(names[..|names| - 1])[names[|names| - 1] := NatToString(|names| - 1)]
  }

  /** No later position holds the same name as position `j`. */
  predicate IsLastOccurrence(names: seq<string>, j: nat)
    requires j < |names|
  {
    forall j' :: j < j' < |names| ==> names[j'] != names[j]
  }

  /** The keys of the label map are exactly the names. */
  lemma {:induction false} LabelIndexKeys(names: seq<string>)
    ensures forall k :: k in LabelIndex(names) <==> k in names
    decreases |names|
  {
    if |names| > 0 {
      var n := |names| - 1;
      var prefix := names[..n];
      LabelIndexKeys(prefix);
      assert names == prefix + [names[n]];
      forall k
        ensures k in LabelIndex(names) <==> k in names
      {
        assert k in names <==> k in prefix || k == names[n];
      }
    }
  }

  /** Each name maps to the decimal form of the position of its last occurrence. */
  lemma {:induction false} LabelIndexLast(names: seq<string>)
    ensures forall j :: 0 <= j < |names| && IsLastOccurrence(names, j) ==>
      names[j] in LabelIndex(names) && LabelIndex(names)[names[j]] == NatToString(j)
    decreases |names|
  {
    if |names| > 0 {
      var n := |names| - 1;
      var prefix := names[..n];
      LabelIndexLast(prefix);
      forall j | 0 <= j < |names| && IsLastOccurrence(names, j)
        ensures names[j] in LabelIndex(names) && LabelIndex(names)[names[j]] == NatToString(j)
      {
        if j < n {
          assert IsLastOccurrence(prefix, j);
          assert prefix[j] == names[j] && names[j] != names[n];
        }
      }
    }
  }

  /** Every value of the label map is a string of decimal digits. */
  lemma {:induction false} LabelIndexDigits(names: seq<string>)
    ensures forall k :: k in LabelIndex(names) ==> AllDigits(LabelIndex(names)[k])
    decreases |names|
  {
    if |names| > 0 {
      var n := |names| - 1;
      LabelIndexDigits(names[..n]);
      forall k | k in LabelIndex(names)
        ensures AllDigits(LabelIndex(names)[k])
      {
        if k != names[n] {
          assert k in LabelIndex(names[..n]);
        }
      }
    }
  }

  /** The list `a\nb\na` maps `a` to `2` and `b` to `1`. */
  lemma LabelIndexExample()
    ensures LabelIndex(["a", "b", "a"]) == map["a" := "2", "b" := "1"]
  {
    var names := ["a", "b", "a"];
    assert names[..2] == ["a", "b"];
    assert names[..2][..1] == ["a"];
    assert names[..2][..1][..0] == [];
    assert NatToString(0) == "0" && NatToString(1) == "1" && NatToString(2) == "2";
    assert LabelIndex(["a"]) == map["a" := "0"];
    assert LabelIndex(["a", "b"]) == map["a" := "0", "b" := "1"];
  }

  /** The `forEach` that fills the label map. */
  method BuildLabelMap(names: seq<string>) returns (labelsMap: map<string, string>)
    ensures labelsMap == LabelIndex(names)
  {
    labelsMap := map[];
    for idx := 0 to |names|
      invariant labelsMap == LabelIndex(names[..idx])
    {
      labelsMap := labelsMap[names[idx] := NatToString(idx)];
      assert names[..idx + 1][..idx] == names[..idx];
    }
    assert names[..|names|] == names;
  }
}
