/**
 * The reorganiser: one sequential pass over a listing of a flat folder of
 * `<name>.txt` / `<name>.jpg` pairs. A paired annotation file whose lines
 * are all filtered out is quarantined (it moves to `validate/<base>.txt`
 * and its image to `validate/<base>.jpg`); any other paired annotation file is kept (its filtered
 * lines go to `labels/<new>.txt`, the original is deleted and the image
 * moves to `images/<new>.jpg`, where `<new>` carries the counter, which
 * then goes up by one). Every other entry is left alone.
 *
 * The folders are maps from file names to contents; `Snapshot` is the
 * state of all four folders and the counter, `Step` is the effect of one
 * listing entry on it and `Run` the effect of a whole listing.
 */
module Reorganizer {
  import opened Wrappers
  import opened Text
  import opened Paths
  import opened Lines
  import opened LabelMap

  /** The options of one pass: the target classes (`null` when absent), the
      replacement class and the label-list file name. */
  datatype Config = Config(targets: Option<seq<string>>, replacement: Option<string>, labelsFile: Option<string>)

  /** The files directly in the folder, in its three output folders, and the counter. */
  datatype Snapshot = Snapshot(
    dir: map<string, string>,
    images: map<string, string>,
    labels: map<string, string>,
    validate: map<string, string>,
    counter: nat)

  /** What one listing entry leads to. */
  datatype Outcome =
    | Skipped
    | Quarantined(base: string)
    | Kept(base: string, number: nat, lines: seq<string>)

  datatype Status = Done | LabelsUnreadable

  /** The output folders, which the listing leaves out. */
  const OutputDirs: set<string> := {"images", "labels", "validate"}

  /** A label file is given: as for JavaScript's truthiness test, an empty
      file name counts as none. */
  predicate GivesLabelsFile(cfg: Config)
  {
    cfg.labelsFile.Some? && cfg.labelsFile.value != ""
  }

  /** The label-map entry for a file's label key, when a label file was given. */
  function Mapped(cfg: Config, labelsMap: map<string, string>, key: string): Option<string>
  {
    if GivesLabelsFile(cfg) && key in labelsMap then Some(labelsMap[key]) else None
  }

  /** The class every kept line of a file with this label key receives. */
  function ClassFor(cfg: Config, labelsMap: map<string, string>, key: string): Option<string>
  {
    Choose(Mapped(cfg, labelsMap, key), cfg.replacement)
  }

  /** The lines of an annotation file: its trimmed content split on line feeds. */
  function AnnotationLines(content: string): seq<string>
  {
    Split(Trim(content), '\n')
  }

  /** The label map a pass uses: built from the label file when one is given
      and could be read, empty otherwise. */
  function LabelMapFor(cfg: Config, labelsText: Option<string>): map<string, string>
  {
    if GivesLabelsFile(cfg) && labelsText.Some?
    then LabelIndex(Split(Trim(labelsText.value), '\n'))
    else map[]
  }

  /** How one listing entry is handled in state `s`. A kept file always has
      at least one line and takes the current counter value. */
  function Classify(s: Snapshot, file: string, cfg: Config, labelsMap: map<string, string>): (o: Outcome)
    requires IsTxtEntry(file) ==> file in s.dir
    ensures !o.Skipped? ==> IsTxtEntry(file) && o.base == BaseName(file) && o.base + ".jpg" in s.dir
    ensures o.Kept? ==> o.number == s.counter && |o.lines| > 0
  {
    if !IsTxtEntry(file) then Skipped
    else
      var base := BaseName(file);
      if base + ".jpg" !in s.dir then Skipped
      else
        var lines := AnnotationLines(s.dir[file]);
        var newLines := Survivors(lines, cfg.targets, ClassFor(cfg, labelsMap, LabelKey(base)));
        if |newLines| == 0 && |lines| > 0 then Quarantined(base)
        else Kept(base, s.counter, newLines)
  }

  /** Quarantine: the annotation file moves to `validate/<base>.txt` (which
      renames it when its extension is not lower-case) and its image to
      `validate/<base>.jpg`. */
  function Quarantine(s: Snapshot, file: string, base: string): Snapshot
    requires file in s.dir && base + ".jpg" in s.dir
  {
    var image := base + ".jpg";
    s.(dir := s.dir - {file, image},
       validate := s.validate[base + ".txt" := s.dir[file]][image := s.dir[image]])
  }

  /** Keep: the new lines go to `labels/`, the annotation file is deleted, the
      image moves to `images/` under the same new base name, the counter goes up. */
  function Keep(s: Snapshot, file: string, base: string, number: nat, newLines: seq<string>): Snapshot
    requires base + ".jpg" in s.dir
  {
    var image := base + ".jpg";
    var newBase := NewBaseName(base, number);
    s.(dir := s.dir - {file, image},
       labels := s.labels[newBase + ".txt" := Join(newLines, '\n')],
       images := s.images[newBase + ".jpg" := s.dir[image]],
       counter := s.counter + 1)
  }

  /** The effect of one listing entry on the folders and the counter. */
  function Step(s: Snapshot, file: string, cfg: Config, labelsMap: map<string, string>): Snapshot
    requires IsTxtEntry(file) ==> file in s.dir
  {
    match Classify(s, file, cfg, labelsMap)
    case Skipped => s
    case Quarantined(base) => Quarantine(s, file, base)
    case Kept(base, number, newLines) => Keep(s, file, base, number, newLines)
  }

  predicate Distinct(files: seq<string>)
  {
    forall i, j :: 0 <= i < j < |files| ==> files[i] != files[j]
  }

  /** Every annotation entry still to be handled is a file of the folder. */
  predicate TxtPresent(dir: map<string, string>, files: seq<string>)
  {
    forall k :: 0 <= k < |files| && IsTxtEntry(files[k]) ==> files[k] in dir
  }

  /** The listing names entries of the folder, each once, besides the output folders. */
  predicate ListingOf(dir: map<string, string>, listing: seq<string>)
  {
    Distinct(listing) && forall f :: f in listing && f !in OutputDirs ==> f in dir
  }

  /** The listing without the three output folders, order kept. */
  function Listed(listing: seq<string>): (files: seq<string>)
    ensures forall k :: 0 <= k < |files| ==> files[k] in listing && files[k] !in OutputDirs
    ensures Distinct(listing) ==> Distinct(files)
    decreases |listing|
  {
    if |listing| == 0 then []
    else
      var rest := Listed(listing[1..]);
      assert Distinct(listing) ==> listing[0] !in listing[1..];
      (if listing[0] in OutputDirs then [] else [listing[0]]) + rest
  }

  /** The filtered listing holds exactly the entries that are not output folders. */
  lemma {:induction false} ListedMembers(listing: seq<string>)
    ensures forall f :: f in Listed(listing) <==> f in listing && f !in OutputDirs
    decreases |listing|
  {
    if |listing| > 0 {
      ListedMembers(listing[1..]);
      var head: seq<string> := if listing[0] in OutputDirs then [] else [listing[0]];
      assert Listed(listing) == head + Listed(listing[1..]);
      assert forall f :: f in listing <==> f == listing[0] || f in listing[1..];
    }
  }

  /** Dropping the output folders from a listing keeps the order of the
      other entries: the filter of two listings in a row is the filter of
      the first, then that of the second. */
  lemma {:induction false} ListedAppend(a: seq<string>, b: seq<string>)
    ensures Listed(a + b) == Listed(a) + Listed(b)
    decreases |a|
  {
    if |a| == 0 {
      assert a + b == b;
    } else {
      assert (a + b)[1..] == a[1..] + b;
      ListedAppend(a[1..], b);
    }
  }

  /** A single entry is kept exactly when it is not an output folder. */
  lemma ListedSingle(f: string)
    ensures Listed([f]) == if f in OutputDirs then [] else [f]
  {
    assert [f][1..] == [];
  }

  /** A step only removes the entry it handles and an image file, so every
      later annotation entry is still present. */
  lemma StepKeepsLaterTxt(s: Snapshot, files: seq<string>, cfg: Config, labelsMap: map<string, string>)
    requires |files| > 0 && Distinct(files) && TxtPresent(s.dir, files)
    ensures Distinct(files[1..])
    ensures TxtPresent(Step(s, files[0], cfg, labelsMap).dir, files[1..])
  {
    var o := Classify(s, files[0], cfg, labelsMap);
    StepDir(s, files[0], cfg, labelsMap);
    var base := if o.Skipped? then "" else o.base;
    RemovalKeepsLaterTxt(s.dir, Step(s, files[0], cfg, labelsMap).dir, files, base, o.Skipped?);
  }

  /** Removing the first entry and a `.jpg` file from the folder, or nothing,
      keeps every later annotation entry. */
  lemma RemovalKeepsLaterTxt(d: map<string, string>, d': map<string, string>, files: seq<string>,
                             base: string, none: bool)
    requires |files| > 0 && Distinct(files) && TxtPresent(d, files)
    requires d' == if none then d else d - {files[0], base + ".jpg"}
    ensures Distinct(files[1..]) && TxtPresent(d', files[1..])
  {
    JpgIsNotTxt(base);
    forall k | 1 <= k < |files| && IsTxtEntry(files[k])
      ensures files[k] in d'
    {
      assert files[k] != files[0];
    }
    assert forall k :: 0 <= k < |files| - 1 ==> files[1..][k] == files[k + 1];
  }

  /** A step removes the handled entry and its image from the folder, or
      nothing, and raises the counter by one exactly when the entry is kept. */
  lemma StepDir(s: Snapshot, file: string, cfg: Config, labelsMap: map<string, string>)
    requires IsTxtEntry(file) ==> file in s.dir
    ensures var o := Classify(s, file, cfg, labelsMap);
      Step(s, file, cfg, labelsMap).dir == if o.Skipped? then s.dir else s.dir - {file, o.base + ".jpg"}
    ensures Step(s, file, cfg, labelsMap).counter ==
      s.counter + if Classify(s, file, cfg, labelsMap).Kept? then 1 else 0
  {
    var o := Classify(s, file, cfg, labelsMap);
    match o
    case Skipped =>
    case Quarantined(base) =>
      assert Step(s, file, cfg, labelsMap) == Quarantine(s, file, base);
    case Kept(base, number, newLines) =>
      assert Step(s, file, cfg, labelsMap) == Keep(s, file, base, number, newLines);
  }

  /** Handling a listing is handling its first entry, then the rest. */
  lemma RunCons(s: Snapshot, files: seq<string>, cfg: Config, labelsMap: map<string, string>)
    requires |files| > 0 && Distinct(files) && TxtPresent(s.dir, files)
    ensures Distinct(files[1..]) && TxtPresent(Step(s, files[0], cfg, labelsMap).dir, files[1..])
    ensures Run(s, files, cfg, labelsMap) == Run(Step(s, files[0], cfg, labelsMap), files[1..], cfg, labelsMap)
  {
    StepKeepsLaterTxt(s, files, cfg, labelsMap);
  }

  /** The effect of handling `files` in order, starting from `s`. */
  function Run(s: Snapshot, files: seq<string>, cfg: Config, labelsMap: map<string, string>): Snapshot
    requires Distinct(files) && TxtPresent(s.dir, files)
    decreases |files|
  {
    if |files| == 0 then s
    else
      StepKeepsLaterTxt(s, files, cfg, labelsMap);
      Run(Step(s, files[0], cfg, labelsMap), files[1..], cfg, labelsMap)
  }

  /** The outcome of each entry of `files`, in order. */
  function Trace(s: Snapshot, files: seq<string>, cfg: Config, labelsMap: map<string, string>): seq<Outcome>
    requires Distinct(files) && TxtPresent(s.dir, files)
    decreases |files|
  {
    if |files| == 0 then []
    else
      StepKeepsLaterTxt(s, files, cfg, labelsMap);
      [Classify(s, files[0], cfg, labelsMap)] + Trace(Step(s, files[0], cfg, labelsMap), files[1..], cfg, labelsMap)
  }

  /** The number of kept files among some outcomes. */
  function CountKept(t: seq<Outcome>): nat
    decreases |t|
  {
    if |t| == 0 then 0 else CountKept(t[..|t| - 1]) + (if t[|t| - 1].Kept? then 1 else 0)
  }

  /** An entry that is not an annotation file, or whose image is missing,
      changes nothing; any other entry changes the folder. */
  lemma StepSkipped(s: Snapshot, file: string, cfg: Config, labelsMap: map<string, string>)
    requires IsTxtEntry(file) ==> file in s.dir
    ensures Step(s, file, cfg, labelsMap) == s <==>
      !IsTxtEntry(file) || BaseName(file) + ".jpg" !in s.dir
  {
    var o := Classify(s, file, cfg, labelsMap);
    if !o.Skipped? {
      assert file !in Step(s, file, cfg, labelsMap).dir;
    }
  }

  /** A paired annotation file is quarantined exactly when none of its lines
      passes the filter (its split content always has a line). Quarantine
      moves the annotation file to `validate/<base>.txt` and its image to
      `validate/<base>.jpg`; the counter,
      `labels/` and `images/` stay as they were. */
  lemma QuarantinedPair(s: Snapshot, file: string, cfg: Config, labelsMap: map<string, string>)
    requires IsTxtEntry(file) && file in s.dir && BaseName(file) + ".jpg" in s.dir
    ensures var lines := AnnotationLines(s.dir[file]);
      Classify(s, file, cfg, labelsMap).Quarantined? <==>
        forall j :: 0 <= j < |lines| ==> !KeepsLine(lines[j], cfg.targets)
    ensures Classify(s, file, cfg, labelsMap).Quarantined? ==>
      var base := BaseName(file);
      var r := Step(s, file, cfg, labelsMap);
      && r.dir == s.dir - {file, base + ".jpg"}
      && r.validate == s.validate[base + ".txt" := s.dir[file]][base + ".jpg" := s.dir[base + ".jpg"]]
      && r.labels == s.labels && r.images == s.images && r.counter == s.counter
  {
    var base := BaseName(file);
    var lines := AnnotationLines(s.dir[file]);
    var cls := ClassFor(cfg, labelsMap, LabelKey(base));
    SurvivorsEmpty(lines, cfg.targets, cls);
    ClassifyPaired(s, file, cfg, labelsMap);
    if Survivors(lines, cfg.targets, cls) == [] {
      assert Step(s, file, cfg, labelsMap) == Quarantine(s, file, base);
    }
  }

  /** A paired annotation file with a line passing the filter is kept: the
      rewritten surviving lines (at least one) are written, joined by line
      feeds, to `labels/` under the new base name, the image moves to
      `images/` under the same new base name, the original annotation file is
      gone, `validate/` is untouched and the counter goes up by one. */
  lemma KeptPair(s: Snapshot, file: string, cfg: Config, labelsMap: map<string, string>)
    requires IsTxtEntry(file) && file in s.dir && BaseName(file) + ".jpg" in s.dir
    requires exists j :: (0 <= j < |AnnotationLines(s.dir[file])| &&
                          KeepsLine(AnnotationLines(s.dir[file])[j], cfg.targets))
    ensures var base := BaseName(file);
      var out := Survivors(AnnotationLines(s.dir[file]), cfg.targets, ClassFor(cfg, labelsMap, LabelKey(base)));
      var newBase := NewBaseName(base, s.counter);
      var r := Step(s, file, cfg, labelsMap);
      && |out| > 0
      && r.labels == s.labels[newBase + ".txt" := Join(out, '\n')]
      && r.images == s.images[newBase + ".jpg" := s.dir[base + ".jpg"]]
      && r.dir == s.dir - {file, base + ".jpg"}
      && r.validate == s.validate
      && r.counter == s.counter + 1
  {
    var base := BaseName(file);
    var lines := AnnotationLines(s.dir[file]);
    var cls := ClassFor(cfg, labelsMap, LabelKey(base));
    SurvivorsEmpty(lines, cfg.targets, cls);
    StepPaired(s, file, cfg, labelsMap);
  }

  /** The label file written for a kept pair, with the label map of the
      pass, reads back, split on line feeds, as exactly its rewritten
      surviving lines, unless the replacement class holds a line feed (a
      mapped class is a digit string). */
  lemma KeptLabelFileReadsBack(s: Snapshot, file: string, cfg: Config, labelsText: Option<string>)
    requires IsTxtEntry(file) && file in s.dir && BaseName(file) + ".jpg" in s.dir
    requires Classify(s, file, cfg, LabelMapFor(cfg, labelsText)).Kept?
    requires cfg.replacement.Some? ==> '\n' !in cfg.replacement.value
    ensures var newBase := NewBaseName(BaseName(file), s.counter);
      var r := Step(s, file, cfg, LabelMapFor(cfg, labelsText));
      newBase + ".txt" in r.labels &&
      Split(r.labels[newBase + ".txt"], '\n') == Classify(s, file, cfg, LabelMapFor(cfg, labelsText)).lines
  {
    var labelsMap := LabelMapFor(cfg, labelsText);
    var base := BaseName(file);
    var lines := AnnotationLines(s.dir[file]);
    var key := LabelKey(base);
    var cls := ClassFor(cfg, labelsMap, key);
    if Mapped(cfg, labelsMap, key).Some? {
      LabelIndexDigits(Split(Trim(labelsText.value), '\n'));
      assert AllDigits(labelsMap[key]);
      assert forall k :: 0 <= k < |labelsMap[key]| ==> labelsMap[key][k] != '\n';
    }
    var out := Survivors(lines, cfg.targets, cls);
    StepPaired(s, file, cfg, labelsMap);
    ClassifyPaired(s, file, cfg, labelsMap);
    assert out != [] && Classify(s, file, cfg, labelsMap).lines == out;
    SurvivorsSingleLine(lines, cfg.targets, cls);
    SplitJoin(out, '\n');
  }

  /** A paired annotation file is quarantined when no line survives, kept otherwise. */
  lemma ClassifyPaired(s: Snapshot, file: string, cfg: Config, labelsMap: map<string, string>)
    requires IsTxtEntry(file) && file in s.dir && BaseName(file) + ".jpg" in s.dir
    ensures var base := BaseName(file);
      var out := Survivors(AnnotationLines(s.dir[file]), cfg.targets, ClassFor(cfg, labelsMap, LabelKey(base)));
      Classify(s, file, cfg, labelsMap) == if out == [] then Quarantined(base) else Kept(base, s.counter, out)
  {
  }

  /** The effect of a paired annotation file: quarantine when no line
      survives, keep with the surviving lines otherwise. */
  lemma StepPaired(s: Snapshot, file: string, cfg: Config, labelsMap: map<string, string>)
    requires IsTxtEntry(file) && file in s.dir && BaseName(file) + ".jpg" in s.dir
    ensures var base := BaseName(file);
      var out := Survivors(AnnotationLines(s.dir[file]), cfg.targets, ClassFor(cfg, labelsMap, LabelKey(base)));
      Step(s, file, cfg, labelsMap) ==
        if out == [] then Quarantine(s, file, base) else Keep(s, file, base, s.counter, out)
  {
    ClassifyPaired(s, file, cfg, labelsMap);
  }

  /** An empty (or all-blank) annotation file is not skipped: with no target
      list it is kept, as one line holding the chosen class (or nothing). */
  lemma EmptyAnnotationKept(s: Snapshot, file: string, cfg: Config, labelsMap: map<string, string>)
    requires IsTxtEntry(file) && file in s.dir && BaseName(file) + ".jpg" in s.dir
    requires Trim(s.dir[file]) == "" && cfg.targets.None?
    ensures Classify(s, file, cfg, labelsMap) ==
      Kept(BaseName(file), s.counter, [ClassFor(cfg, labelsMap, LabelKey(BaseName(file))).GetOr("")])
  {
    var base := BaseName(file);
    var cls := ClassFor(cfg, labelsMap, LabelKey(base));
    var lines := AnnotationLines(s.dir[file]);
    assert lines == [""];
    SurvivorsOfEmpty(cls);
    ClassifyPaired(s, file, cfg, labelsMap);
  }

  /** With a target list, an empty (or all-blank) annotation file is
      quarantined exactly when the list lacks the empty class name (which
      `-o a,` supplies). */
  lemma EmptyAnnotationWithTargets(s: Snapshot, file: string, cfg: Config, labelsMap: map<string, string>)
    requires IsTxtEntry(file) && file in s.dir && BaseName(file) + ".jpg" in s.dir
    requires Trim(s.dir[file]) == "" && cfg.targets.Some?
    ensures Classify(s, file, cfg, labelsMap).Quarantined? <==> "" !in cfg.targets.value
  {
    var base := BaseName(file);
    var lines := AnnotationLines(s.dir[file]);
    var cls := ClassFor(cfg, labelsMap, LabelKey(base));
    assert lines == [""];
    assert KeepsLine("", cfg.targets) <==> "" in cfg.targets.value by {
      assert FirstToken("") == "";
    }
    SurvivorsEmpty(lines, cfg.targets, cls);
    ClassifyPaired(s, file, cfg, labelsMap);
  }

  lemma {:induction false} CountKeptCons(o: Outcome, t: seq<Outcome>)
    ensures CountKept([o] + t) == (if o.Kept? then 1 else 0) + CountKept(t)
    decreases |t|
  {
    if |t| > 0 {
      var n := |t| - 1;
      CountKeptCons(o, t[..n]);
      assert ([o] + t)[..|[o] + t| - 1] == [o] + t[..n];
    }
  }

  lemma {:induction false} CountKeptMonotone(t: seq<Outcome>, i: nat, j: nat)
    requires i <= j <= |t|
    ensures CountKept(t[..i]) <= CountKept(t[..j])
    decreases j - i
  {
    if i < j {
      CountKeptMonotone(t, i, j - 1);
      assert t[..j][..j - 1] == t[..j - 1];
    }
  }

  /** Each kept outcome is numbered `c` plus the number of kept outcomes before it. */
  predicate NumberedFrom(t: seq<Outcome>, c: nat)
  {
    forall i :: 0 <= i < |t| && t[i].Kept? ==> t[i].number == c + CountKept(t[..i])
  }

  /** The outcomes of a listing are the outcome of its first entry, then
      those of the rest. */
  lemma TraceCons(s: Snapshot, files: seq<string>, cfg: Config, labelsMap: map<string, string>)
    requires |files| > 0 && Distinct(files) && TxtPresent(s.dir, files)
    ensures Distinct(files[1..]) && TxtPresent(Step(s, files[0], cfg, labelsMap).dir, files[1..])
    ensures Trace(s, files, cfg, labelsMap) ==
      [Classify(s, files[0], cfg, labelsMap)] + Trace(Step(s, files[0], cfg, labelsMap), files[1..], cfg, labelsMap)
  {
    StepKeepsLaterTxt(s, files, cfg, labelsMap);
  }

  /** A pass yields one outcome per listed entry, and its final counter is
      the initial one plus the number of kept files. */
  lemma {:induction false} RunCounter(s: Snapshot, files: seq<string>, cfg: Config, labelsMap: map<string, string>)
    requires Distinct(files) && TxtPresent(s.dir, files)
    ensures |Trace(s, files, cfg, labelsMap)| == |files|
    ensures Run(s, files, cfg, labelsMap).counter == s.counter + CountKept(Trace(s, files, cfg, labelsMap))
    decreases |files|
  {
    if |files| > 0 {
      RunCons(s, files, cfg, labelsMap);
      TraceCons(s, files, cfg, labelsMap);
      var s' := Step(s, files[0], cfg, labelsMap);
      RunCounter(s', files[1..], cfg, labelsMap);
      StepDir(s, files[0], cfg, labelsMap);
      CountKeptCons(Classify(s, files[0], cfg, labelsMap), Trace(s', files[1..], cfg, labelsMap));
    }
  }

  /** The kept files of a pass take consecutive counter values in listing
      order, starting from the initial counter: each takes the initial value
      plus the number of files kept before it. */
  lemma {:induction false} TraceNumbering(s: Snapshot, files: seq<string>, cfg: Config, labelsMap: map<string, string>)
    requires Distinct(files) && TxtPresent(s.dir, files)
    ensures NumberedFrom(Trace(s, files, cfg, labelsMap), s.counter)
    decreases |files|
  {
    if |files| > 0 {
      TraceCons(s, files, cfg, labelsMap);
      var o := Classify(s, files[0], cfg, labelsMap);
      var s' := Step(s, files[0], cfg, labelsMap);
      TraceNumbering(s', files[1..], cfg, labelsMap);
      StepDir(s, files[0], cfg, labelsMap);
      var t' := Trace(s', files[1..], cfg, labelsMap);
      var t := Trace(s, files, cfg, labelsMap);
      assert t == [o] + t';
      forall i | 0 <= i < |t| && t[i].Kept?
        ensures t[i].number == s.counter + CountKept(t[..i])
      {
        if i > 0 {
          assert t[i] == t'[i - 1];
          assert t[..i] == [o] + t'[..i - 1];
          CountKeptCons(o, t'[..i - 1]);
        } else {
          assert t[..0] == [];
        }
      }
    }
  }

  /** No two kept files of one pass receive the same new base name. */
  lemma RunKeptNamesDistinct(s: Snapshot, files: seq<string>, cfg: Config, labelsMap: map<string, string>)
    requires Distinct(files) && TxtPresent(s.dir, files)
    ensures var t := Trace(s, files, cfg, labelsMap);
      forall i, j :: 0 <= i < j < |t| && t[i].Kept? && t[j].Kept? ==>
        NewBaseName(t[i].base, t[i].number) != NewBaseName(t[j].base, t[j].number)
  {
    TraceNumbering(s, files, cfg, labelsMap);
    var t := Trace(s, files, cfg, labelsMap);
    forall i, j | 0 <= i < j < |t| && t[i].Kept? && t[j].Kept?
      ensures NewBaseName(t[i].base, t[i].number) != NewBaseName(t[j].base, t[j].number)
    {
      NumbersIncrease(t, s.counter, i, j);
      NewBaseNamesDistinct(t[i].base, t[i].number, t[j].base, t[j].number);
    }
  }

  /** When each kept outcome is numbered from `c` by the kept outcomes before
      it, a later kept outcome has a larger number. */
  lemma NumbersIncrease(t: seq<Outcome>, c: nat, i: nat, j: nat)
    requires NumberedFrom(t, c)
    requires i < j < |t| && t[i].Kept? && t[j].Kept?
    ensures t[i].number < t[j].number
  {
    CountKeptMonotone(t, i + 1, j);
    assert t[..i + 1][..i] == t[..i] && t[..i + 1][i] == t[i];
    assert CountKept(t[..i + 1]) == CountKept(t[..i]) + 1;
  }

  /** The label file a kept outcome is written to. */
  function LabelFileName(o: Outcome): string
    requires o.Kept?
  {
    NewBaseName(o.base, o.number) + ".txt"
  }

  /** The name a kept outcome's image is moved to. */
  function ImageFileName(o: Outcome): string
    requires o.Kept?
  {
    NewBaseName(o.base, o.number) + ".jpg"
  }

  /** Kept outcomes with different numbers are written to different files. */
  lemma KeptFileNamesDistinct(o1: Outcome, o2: Outcome)
    requires o1.Kept? && o2.Kept? && o1.number != o2.number
    ensures LabelFileName(o1) != LabelFileName(o2) && ImageFileName(o1) != ImageFileName(o2)
  {
    var a, b := NewBaseName(o1.base, o1.number), NewBaseName(o2.base, o2.number);
    NewBaseNamesDistinct(o1.base, o1.number, o2.base, o2.number);
    assert (a + ".txt")[..|a|] == a && (b + ".txt")[..|b|] == b;
    assert (a + ".jpg")[..|a|] == a && (b + ".jpg")[..|b|] == b;
  }

  /** A step writes `labels/` and `images/` only when the entry is kept: its
      lines to its label file and the image to its new image name. */
  lemma StepOutputs(s: Snapshot, file: string, cfg: Config, labelsMap: map<string, string>)
    requires IsTxtEntry(file) ==> file in s.dir
    ensures var o := Classify(s, file, cfg, labelsMap);
      Step(s, file, cfg, labelsMap).labels ==
        if o.Kept? then s.labels[LabelFileName(o) := Join(o.lines, '\n')] else s.labels
    ensures var o := Classify(s, file, cfg, labelsMap);
      Step(s, file, cfg, labelsMap).images ==
        if o.Kept? then s.images[ImageFileName(o) := s.dir[o.base + ".jpg"]] else s.images
  {
    var o := Classify(s, file, cfg, labelsMap);
    match o
    case Skipped =>
    case Quarantined(base) =>
      assert Step(s, file, cfg, labelsMap) == Quarantine(s, file, base);
    case Kept(base, number, newLines) =>
      assert Step(s, file, cfg, labelsMap) == Keep(s, file, base, number, newLines);
  }

  /** No kept outcome is written to `lkey` in `labels/` or to `ikey` in `images/`. */
  predicate AvoidsFiles(t: seq<Outcome>, lkey: string, ikey: string)
  {
    forall i :: 0 <= i < |t| && t[i].Kept? ==> LabelFileName(t[i]) != lkey && ImageFileName(t[i]) != ikey
  }

  /** Every kept outcome's lines are in its label file of `r`, and its image,
      as it was in `s`, under its new image name. */
  predicate StoresKept(s: Snapshot, t: seq<Outcome>, r: Snapshot)
  {
    forall i :: 0 <= i < |t| && t[i].Kept? ==>
      && t[i].base + ".jpg" in s.dir
      && LabelFileName(t[i]) in r.labels && r.labels[LabelFileName(t[i])] == Join(t[i].lines, '\n')
      && ImageFileName(t[i]) in r.images && r.images[ImageFileName(t[i])] == s.dir[t[i].base + ".jpg"]
  }

  lemma AvoidsFilesCons(o: Outcome, t: seq<Outcome>, lkey: string, ikey: string)
    requires AvoidsFiles([o] + t, lkey, ikey)
    ensures AvoidsFiles(t, lkey, ikey)
    ensures o.Kept? ==> LabelFileName(o) != lkey && ImageFileName(o) != ikey
  {
    assert ([o] + t)[0] == o;
    assert forall i :: 0 <= i < |t| ==> ([o] + t)[i + 1] == t[i];
  }

  /** A pass whose kept files avoid a label file and an image name leaves
      those two as they were. */
  lemma {:induction false} RunKeepsFiles(s: Snapshot, files: seq<string>, cfg: Config, labelsMap: map<string, string>,
                                         lkey: string, ikey: string)
    requires Distinct(files) && TxtPresent(s.dir, files)
    requires lkey in s.labels && ikey in s.images
    requires AvoidsFiles(Trace(s, files, cfg, labelsMap), lkey, ikey)
    ensures var r := Run(s, files, cfg, labelsMap);
      lkey in r.labels && r.labels[lkey] == s.labels[lkey] && ikey in r.images && r.images[ikey] == s.images[ikey]
    decreases |files|
  {
    if |files| > 0 {
      RunCons(s, files, cfg, labelsMap);
      TraceCons(s, files, cfg, labelsMap);
      StepOutputs(s, files[0], cfg, labelsMap);
      var s' := Step(s, files[0], cfg, labelsMap);
      AvoidsFilesCons(Classify(s, files[0], cfg, labelsMap), Trace(s', files[1..], cfg, labelsMap), lkey, ikey);
      RunKeepsFiles(s', files[1..], cfg, labelsMap, lkey, ikey);
    }
  }

  /** The first entry of a listing, when kept, is still in `labels/` and
      `images/` after the whole pass: no later file takes its names. */
  lemma RunStoresFirst(s: Snapshot, files: seq<string>, cfg: Config, labelsMap: map<string, string>)
    requires |files| > 0 && Distinct(files) && TxtPresent(s.dir, files)
    requires Classify(s, files[0], cfg, labelsMap).Kept?
    ensures var o := Classify(s, files[0], cfg, labelsMap);
      var r := Run(s, files, cfg, labelsMap);
      && LabelFileName(o) in r.labels && r.labels[LabelFileName(o)] == Join(o.lines, '\n')
      && ImageFileName(o) in r.images && r.images[ImageFileName(o)] == s.dir[o.base + ".jpg"]
  {
    var o := Classify(s, files[0], cfg, labelsMap);
    RunCons(s, files, cfg, labelsMap);
    StepDir(s, files[0], cfg, labelsMap);
    StepOutputs(s, files[0], cfg, labelsMap);
    var s' := Step(s, files[0], cfg, labelsMap);
    var t' := Trace(s', files[1..], cfg, labelsMap);
    TraceNumbering(s', files[1..], cfg, labelsMap);
    forall j | 0 <= j < |t'| && t'[j].Kept?
      ensures LabelFileName(t'[j]) != LabelFileName(o) && ImageFileName(t'[j]) != ImageFileName(o)
    {
      assert t'[j].number >= s'.counter;
      KeptFileNamesDistinct(o, t'[j]);
    }
    RunKeepsFiles(s', files[1..], cfg, labelsMap, LabelFileName(o), ImageFileName(o));
  }

  /** Every file of `d'` is a file of `d` with the same content. */
  predicate DirShrinks(d: map<string, string>, d': map<string, string>)
  {
    forall f :: f in d' ==> f in d && d'[f] == d[f]
  }

  /** After a pass, every kept file's rewritten lines are in `labels/` under
      its new name and its image in `images/` under the same new base name:
      no kept pair is overwritten by a later one. */
  lemma {:induction false} RunStoresKept(s: Snapshot, files: seq<string>, cfg: Config, labelsMap: map<string, string>)
    requires Distinct(files) && TxtPresent(s.dir, files)
    ensures StoresKept(s, Trace(s, files, cfg, labelsMap), Run(s, files, cfg, labelsMap))
    decreases |files|
  {
    if |files| > 0 {
      RunCons(s, files, cfg, labelsMap);
      TraceCons(s, files, cfg, labelsMap);
      StepDir(s, files[0], cfg, labelsMap);
      var o := Classify(s, files[0], cfg, labelsMap);
      var s' := Step(s, files[0], cfg, labelsMap);
      assert DirShrinks(s.dir, s'.dir);
      RunStoresKept(s', files[1..], cfg, labelsMap);
      if o.Kept? {
        RunStoresFirst(s, files, cfg, labelsMap);
      }
      StoresKeptCons(s, s', o, Trace(s', files[1..], cfg, labelsMap), Run(s', files[1..], cfg, labelsMap));
    }
  }

  /** What a pass stores for its first entry and for the rest together make
      what it stores for the whole listing. */
  lemma StoresKeptCons(s: Snapshot, s': Snapshot, o: Outcome, t: seq<Outcome>, r: Snapshot)
    requires StoresKept(s', t, r) && DirShrinks(s.dir, s'.dir)
    requires o.Kept? ==>
      && o.base + ".jpg" in s.dir
      && LabelFileName(o) in r.labels && r.labels[LabelFileName(o)] == Join(o.lines, '\n')
      && ImageFileName(o) in r.images && r.images[ImageFileName(o)] == s.dir[o.base + ".jpg"]
    ensures StoresKept(s, [o] + t, r)
  {
    var t2 := [o] + t;
    forall i | 0 <= i < |t2| && t2[i].Kept?
      ensures && t2[i].base + ".jpg" in s.dir
        && LabelFileName(t2[i]) in r.labels && r.labels[LabelFileName(t2[i])] == Join(t2[i].lines, '\n')
        && ImageFileName(t2[i]) in r.images && r.images[ImageFileName(t2[i])] == s.dir[t2[i].base + ".jpg"]
    {
      if i > 0 {
        assert t2[i] == t[i - 1];
      }
    }
  }

  /** The folder being reorganised, changed in place by the pass. */
  class Folder {
    var dir: map<string, string>
    var images: map<string, string>
    var labels: map<string, string>
    var validate: map<string, string>
    var counter: nat

    constructor (dir0: map<string, string>, images0: map<string, string>,
                 labels0: map<string, string>, validate0: map<string, string>, start: nat)
      ensures State() == Snapshot(dir0, images0, labels0, validate0, start)
    {
      dir, images, labels, validate, counter := dir0, images0, labels0, validate0, start;
    }

    function State(): Snapshot
      reads this
    {
      Snapshot(dir, images, labels, validate, counter)
    }

    /** Moves the annotation file to `validate/<base>.txt` and its image to
        `validate/<base>.jpg`. */
    method MoveToValidate(file: string, baseName: string)
      requires file in dir && baseName + ".jpg" in dir && baseName + ".jpg" != file
      modifies this
      ensures State() == Quarantine(old(State()), file, baseName)
    {
      var matchingImage := baseName + ".jpg";
      validate := validate[baseName + ".txt" := dir[file]];
      dir := dir - {file};
      validate := validate[matchingImage := dir[matchingImage]];
      dir := dir - {matchingImage};
      assert dir == old(dir) - {file, matchingImage};
    }

    /** Writes the new lines to `labels/`, deletes the annotation file, moves
        the image to `images/` under the new base name and counts the pair. */
    method StoreKept(file: string, baseName: string, newLines: seq<string>)
      requires file in dir && baseName + ".jpg" in dir && baseName + ".jpg" != file
      modifies this
      ensures State() == Keep(old(State()), file, baseName, old(counter), newLines)
    {
      var matchingImage := baseName + ".jpg";
      var newBaseName := NewBaseName(baseName, counter);
      labels := labels[newBaseName + ".txt" := Join(newLines, '\n')];
      dir := dir - {file};
      images := images[newBaseName + ".jpg" := dir[matchingImage]];
      dir := dir - {matchingImage};
      counter := counter + 1;
      assert dir == old(dir) - {file, matchingImage};
    }

    /** One iteration of the loop over the listing. */
    method ProcessEntry(file: string, cfg: Config, labelsMap: map<string, string>)
      requires IsTxtEntry(file) ==> file in dir
      modifies this
      ensures State() == Step(old(State()), file, cfg, labelsMap)
    {
      ghost var s := State();
      var ext := LowerAscii(Extname(file));
      var baseName := NodeBasename(file, ext);
      var labelKey := LabelKey(baseName);
      if ext == ".txt" {
        assert IsTxtEntry(file) && baseName == BaseName(file);
        var matchingImage := baseName + ".jpg";
        if matchingImage !in dir {
          return;
        }
        assert matchingImage != file by {
          JpgIsNotTxt(baseName);
        }
        var lines := AnnotationLines(dir[file]);
        var mapped := Mapped(cfg, labelsMap, labelKey);
        var newLines := FilterAndRewrite(lines, cfg.targets, mapped, cfg.replacement);
        StepPaired(s, file, cfg, labelsMap);
        if |newLines| == 0 && |lines| > 0 {
          MoveToValidate(file, baseName);
        } else {
          StoreKept(file, baseName, newLines);
        }
      } else {
        assert !IsTxtEntry(file);
      }
    }

    /** The loop over the listed entries, in order. */
    method ProcessAll(files: seq<string>, cfg: Config, labelsMap: map<string, string>)
      requires Distinct(files) && TxtPresent(dir, files)
      modifies this
      ensures State() == Run(old(State()), files, cfg, labelsMap)
    {
      var i := 0;
      while i < |files|
        invariant 0 <= i <= |files|
        invariant Distinct(files[i..]) && TxtPresent(dir, files[i..])
        invariant Run(State(), files[i..], cfg, labelsMap) == Run(old(State()), files, cfg, labelsMap)
      {
        ghost var before := State();
        ghost var rest := files[i..];
        assert rest[0] == files[i];
        ProcessEntry(files[i], cfg, labelsMap);
        RunCons(before, rest, cfg, labelsMap);
        assert rest[1..] == files[i + 1..];
        i := i + 1;
      }
    }

    /** The whole pass: build the label map when a label file is given (an
        unreadable one stops the pass before anything changes), then handle
        every listed entry except the output folders, in listing order. */
    method ProcessFiles(listing: seq<string>, cfg: Config, labelsText: Option<string>)
      returns (status: Status)
      requires ListingOf(dir, listing)
      modifies this
      ensures status == LabelsUnreadable <==> GivesLabelsFile(cfg) && labelsText.None?
      ensures status == LabelsUnreadable ==> State() == old(State())
      ensures status == Done ==>
        State() == Run(old(State()), Listed(listing), cfg, LabelMapFor(cfg, labelsText))
    {
      var labelsMap: map<string, string> := map[];
      if cfg.labelsFile.Some? && cfg.labelsFile.value != "" {
        if labelsText.None? {
          return LabelsUnreadable;
        }
        labelsMap := BuildLabelMap(Split(Trim(labelsText.value), '\n'));
      }
      var files := Listed(listing);
      ProcessAll(files, cfg, labelsMap);
      return Done;
    }
  }
}
