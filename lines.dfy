/**
 * The per-line pass over one annotation file: each line is split on single
 * spaces, kept only when its class field (first token) is a target class,
 * and a kept line gets its class field replaced by the file's chosen class.
 */
module Lines {
  import opened Wrappers
  import opened Text

  /** The class field: the first space-separated token (possibly empty). */
  function FirstToken(line: string): string
  {
    Split(line, ' ')[0]
  }

  /** A line survives the filter when there is no target list or the list
      holds its class field. */
  predicate KeepsLine(line: string, targets: Option<seq<string>>)
  {
    targets.None? || FirstToken(line) in targets.value
  }

  /** The class a file's kept lines receive: the label-map entry for the
      file, else the replacement class, else none (the field is kept). */
  function Choose(mapped: Option<string>, replacement: Option<string>): Option<string>
  {
    if mapped.Some? then mapped else replacement
  }

  /** A kept line with its class field set to `cls`, rejoined with spaces. */
  function RewriteLine(line: string, cls: Option<string>): string
  {
    var tokens := Split(line, ' ');
    Join(if cls.Some? then tokens[0 := cls.value] else tokens, ' ')
  }

  /** The output lines of a file: the kept lines, rewritten, in order. */
  function Survivors(lines: seq<string>, targets: Option<seq<string>>, cls: Option<string>): seq<string>
    decreases |lines|
  {
    if |lines| == 0 then []
    else
      var last := lines[|lines| - 1];
      Survivors(lines[..|lines| - 1], targets, cls)
        + (if KeepsLine(last, targets) then [RewriteLine(last, cls)] else [])
  }

  /** The positions of the kept lines: increasing, and holding exactly the
      positions whose line passes the filter. */
  function SurvivorIndices(lines: seq<string>, targets: Option<seq<string>>): (idx: seq<nat>)
    ensures forall k :: 0 <= k < |idx| ==> idx[k] < |lines|
    ensures forall k, k' :: 0 <= k < k' < |idx| ==> idx[k] < idx[k']
    decreases |lines|
  {
    if |lines| == 0 then []
    else
      var n := |lines| - 1;
      SurvivorIndices(lines[..n], targets) + (if KeepsLine(lines[n], targets) then [n] else [])
  }

  /** The kept positions are exactly the positions whose line passes the filter. */
  lemma {:induction false} SurvivorIndicesExact(lines: seq<string>, targets: Option<seq<string>>)
    ensures forall j :: 0 <= j < |lines| ==> (KeepsLine(lines[j], targets) <==> j in SurvivorIndices(lines, targets))
    decreases |lines|
  {
    if |lines| > 0 {
      var n := |lines| - 1;
      var prefix := lines[..n];
      SurvivorIndicesExact(prefix, targets);
      var idx := SurvivorIndices(prefix, targets);
      var extraIdx: seq<nat> := if KeepsLine(lines[n], targets) then [n] else [];
      assert SurvivorIndices(lines, targets) == idx + extraIdx;
      forall j | 0 <= j < |lines|
        ensures KeepsLine(lines[j], targets) <==> j in idx + extraIdx
      {
        if j < n {
          assert prefix[j] == lines[j];
          assert j !in extraIdx;
        } else {
          assert j !in idx;
        }
      }
    }
  }

  /** Rewriting touches only the class field: the line is its first token
      followed by a rest that is empty or starts with a space; the rest is
      kept, and with no class to set the line is returned unchanged. */
  lemma RewriteLineEffect(line: string, cls: Option<string>)
    ensures var tok := FirstToken(line);
      && ' ' !in tok
      && |tok| <= |line| && line == tok + line[|tok|..]
      && (line[|tok|..] == "" || line[|tok|] == ' ')
      && (cls.None? ==> RewriteLine(line, cls) == line)
      && (cls.Some? ==> RewriteLine(line, cls) == cls.value + line[|tok|..])
  {
    var tokens := Split(line, ' ');
    var tok := tokens[0];
    JoinSplit(line, ' ');
    var tail := if |tokens| == 1 then "" else [' '] + Join(tokens[1..], ' ');
    if |tokens| > 1 {
      JoinAppend([tok], tokens[1..], ' ');
      assert [tok] + tokens[1..] == tokens;
    }
    assert line == tok + tail;
    assert line[|tok|..] == tail;
    if cls.Some? {
      var repl := tokens[0 := cls.value];
      assert repl == [cls.value] + tokens[1..];
      if |tokens| > 1 {
        JoinAppend([cls.value], tokens[1..], ' ');
      }
    }
  }

  /** The output lines are the rewritten lines at the kept positions, in order. */
  lemma {:induction false} SurvivorsSelect(lines: seq<string>, targets: Option<seq<string>>, cls: Option<string>)
    ensures |Survivors(lines, targets, cls)| == |SurvivorIndices(lines, targets)|
    ensures forall k :: 0 <= k < |SurvivorIndices(lines, targets)| ==>
      Survivors(lines, targets, cls)[k] == RewriteLine(lines[SurvivorIndices(lines, targets)[k]], cls)
    decreases |lines|
  {
    if |lines| > 0 {
      var n := |lines| - 1;
      var prefix := lines[..n];
      SurvivorsSelect(prefix, targets, cls);
      var out, idx := Survivors(prefix, targets, cls), SurvivorIndices(prefix, targets);
      var extra := if KeepsLine(lines[n], targets) then [RewriteLine(lines[n], cls)] else [];
      var extraIdx: seq<nat> := if KeepsLine(lines[n], targets) then [n] else [];
      assert Survivors(lines, targets, cls) == out + extra;
      assert SurvivorIndices(lines, targets) == idx + extraIdx;
      forall k | 0 <= k < |idx + extraIdx|
        ensures (out + extra)[k] == RewriteLine(lines[(idx + extraIdx)[k]], cls)
      {
        if k < |idx| {
          assert (idx + extraIdx)[k] == idx[k] && (out + extra)[k] == out[k];
          assert prefix[idx[k]] == lines[idx[k]];
        } else {
          assert (idx + extraIdx)[k] == n && (out + extra)[k] == RewriteLine(lines[n], cls);
        }
      }
    }
  }

  /** Output line `k` comes from the `k`-th kept input line: its class field
      is the chosen class (or stays when there is none) and the rest of the
      line, every other token and space included, is kept. */
  lemma SurvivorLine(lines: seq<string>, targets: Option<seq<string>>, cls: Option<string>, k: nat)
    requires k < |SurvivorIndices(lines, targets)|
    ensures var j := SurvivorIndices(lines, targets)[k];
      var tok := FirstToken(lines[j]);
      var out := Survivors(lines, targets, cls);
      && KeepsLine(lines[j], targets)
      && k < |out| && |tok| <= |lines[j]|
      && out[k] == (if cls.Some? then cls.value else tok) + lines[j][|tok|..]
  {
    SurvivorsSelect(lines, targets, cls);
    SurvivorIndicesExact(lines, targets);
    var j := SurvivorIndices(lines, targets)[k];
    assert j in SurvivorIndices(lines, targets);
    RewriteLineEffect(lines[j], cls);
  }

  /** No output line remains exactly when no line passes the filter. */
  lemma SurvivorsEmpty(lines: seq<string>, targets: Option<seq<string>>, cls: Option<string>)
    ensures Survivors(lines, targets, cls) == [] <==>
      forall j :: 0 <= j < |lines| ==> !KeepsLine(lines[j], targets)
  {
    SurvivorsSelect(lines, targets, cls);
    SurvivorIndicesExact(lines, targets);
    var idx := SurvivorIndices(lines, targets);
    if idx != [] {
      assert idx[0] in idx;
    }
  }

  /** With no target list and no class to set, the output is the input. */
  lemma {:induction false} SurvivorsUnfiltered(lines: seq<string>)
    ensures Survivors(lines, None, None) == lines
    decreases |lines|
  {
    if |lines| > 0 {
      var n := |lines| - 1;
      SurvivorsUnfiltered(lines[..n]);
      RewriteLineEffect(lines[n], None);
      assert lines[..n] + [lines[n]] == lines;
    }
  }

  /** The single empty line of an empty file survives an absent target list
      and becomes the chosen class, or stays empty. */
  lemma SurvivorsOfEmpty(cls: Option<string>)
    ensures Survivors([""], None, cls) == [cls.GetOr("")]
  {
    RewriteLineEffect("", cls);
    assert [""][..0] == [];
  }

  /** Output lines hold no line break when neither the input lines nor the
      class value do, so the output file splits back into them. */
  lemma {:induction false} SurvivorsSingleLine(lines: seq<string>, targets: Option<seq<string>>, cls: Option<string>)
    requires forall j :: 0 <= j < |lines| ==> '\n' !in lines[j]
    requires cls.Some? ==> '\n' !in cls.value
    ensures forall k :: 0 <= k < |Survivors(lines, targets, cls)| ==> '\n' !in Survivors(lines, targets, cls)[k]
    decreases |lines|
  {
    if |lines| > 0 {
      var n := |lines| - 1;
      SurvivorsSingleLine(lines[..n], targets, cls);
      var line := lines[n];
      RewriteLineEffect(line, cls);
      var tok := FirstToken(line);
      var rest := line[|tok|..];
      assert '\n' !in rest by {
        assert forall i :: 0 <= i < |rest| ==> rest[i] == line[|tok| + i];
      }
      var r := RewriteLine(line, cls);
      assert '\n' !in r by {
        if cls.Some? {
          assert r == cls.value + rest;
          assert forall i :: 0 <= i < |r| ==> r[i] == (if i < |cls.value| then cls.value[i] else rest[i - |cls.value|]);
        }
      }
    }
  }

  /** The loop over the lines of one file: split each line, test its class
      field, set the class field of a kept line, rejoin and collect. */
  method FilterAndRewrite(lines: seq<string>, targets: Option<seq<string>>,
                          mapped: Option<string>, replacement: Option<string>)
    returns (newLines: seq<string>)
    ensures newLines == Survivors(lines, targets, Choose(mapped, replacement))
  {
    newLines := [];
    for i := 0 to |lines|
      invariant newLines == Survivors(lines[..i], targets, Choose(mapped, replacement))
    {
      var tokens := Split(lines[i], ' ');
      if targets.None? || tokens[0] in targets.value {
        if mapped.Some? {
          tokens := tokens[0 := mapped.value];
        } else if replacement.Some? {
          tokens := tokens[0 := replacement.value];
        }
        newLines := newLines + [Join(tokens, ' ')];
      }
      assert lines[..i + 1][..i] == lines[..i];
    }
    assert lines[..|lines|] == lines;
  }
}
