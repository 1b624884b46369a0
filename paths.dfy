/**
 * File-name computations of the reorganiser: Node's `path.extname` and
 * `path.basename(file, ext)` for names without a slash, the label key of
 * an annotation file and the new base name a kept pair receives.
 */
module Paths {
  import opened Text

  /** Index of the last `.` in `s`, or -1 when there is none. */
  function LastDot(s: string): (k: int)
    ensures -1 <= k < |s|
    ensures k >= 0 ==> s[k] == '.'
    ensures forall j :: k < j < |s| ==> s[j] != '.'
    decreases |s|
  {
    if |s| == 0 then -1
    else if s[|s| - 1] == '.' then |s| - 1
    else LastDot(s[..|s| - 1])
  }

  /** `path.extname(file)` for a name without a slash: from the last dot on,
      unless that dot is the first character or the name is `..`. */
  function Extname(file: string): (ext: string)
    ensures ext == "" <==> LastDot(file) <= 0 || file == ".."
    ensures ext != "" ==>
      && |ext| < |file| && file[|file| - |ext|..] == ext && ext[0] == '.'
      && forall j :: 0 < j < |ext| ==> ext[j] != '.'
  {
    var k := LastDot(file);
    if k <= 0 || file == ".." then "" else file[k..]
  }

  /** `path.basename(file, suffix)` for a name without a slash: the suffix is
      removed (case-sensitively) when the name ends with it. */
  function NodeBasename(file: string, suffix: string): string
  {
    if 0 < |suffix| <= |file| && file[|file| - |suffix|..] == suffix
    then file[..|file| - |suffix|]
    else file
  }

  /** The lower-cased extension is `.txt`. */
  predicate IsTxtEntry(file: string)
  {
    LowerAscii(Extname(file)) == ".txt"
  }

  /** The base name the source derives: the name without its lower-cased extension. */
  function BaseName(file: string): string
  {
    NodeBasename(file, LowerAscii(Extname(file)))
  }

  /** The first two `.`-segments of a base name. */
  function LabelKey(base: string): string
  {
    var parts := Split(base, '.');
    Join(parts[..if |parts| < 2 then |parts| else 2], '.')
  }

  /** Every segment but the last, then `.`, then the counter padded to five digits. */
  function NewBaseName(base: string, counter: nat): string
  {
    var parts := Split(base, '.');
    Join(parts[..|parts| - 1], '.') + "." + Pad5(counter)
  }

  /** A dot followed by no further dot is the last dot. */
  lemma LastDotAt(s: string, k: nat)
    requires k < |s| && s[k] == '.'
    requires forall j :: k < j < |s| ==> s[j] != '.'
    ensures LastDot(s) == k
  {
  }

  /** `path.basename(file, suffix)` is the name with the suffix removed when
      it ends with it, and the name itself otherwise. */
  lemma NodeBasenameSpec(file: string, suffix: string)
    ensures 0 < |suffix| <= |file| && file[|file| - |suffix|..] == suffix ==>
      NodeBasename(file, suffix) + suffix == file
    ensures !(0 < |suffix| <= |file| && file[|file| - |suffix|..] == suffix) ==>
      NodeBasename(file, suffix) == file
  {
    if 0 < |suffix| <= |file| && file[|file| - |suffix|..] == suffix {
      assert file == file[..|file| - |suffix|] + file[|file| - |suffix|..];
    }
  }

  /** An extension lower-cases to `.txt` exactly when it is a dot and the
      letters t, x, t in either case. */
  lemma TxtExtensionCases(ext: string)
    ensures LowerAscii(ext) == ".txt" <==>
      |ext| == 4 && ext[0] == '.' && ext[1] in "tT" && ext[2] in "xX" && ext[3] in "tT"
  {
    if |ext| == 4 {
      var l := LowerAscii(ext);
      if l == ".txt" {
        assert l[0] == '.' && l[1] == 't' && l[2] == 'x' && l[3] == 't';
      } else {
        assert exists k :: 0 <= k < 4 && l[k] != ".txt"[k];
      }
    }
  }

  /** An entry counts as an annotation file exactly when it has a dot after
      its first character and the text from its last dot on lower-cases to
      `.txt`. */
  lemma IsTxtEntrySpec(file: string)
    ensures IsTxtEntry(file) <==> LastDot(file) > 0 && LowerAscii(file[LastDot(file)..]) == ".txt"
  {
    if file == ".." {
      LastDotAt(file, 1);
      assert LowerAscii(file[1..])[0] == '.';
    }
  }

  /** The base name of an annotation file: the name without `.txt` when it
      ends in lower-case `.txt`, and the whole name otherwise (`a.TXT`, say),
      since the suffix is removed case-sensitively. */
  lemma TxtBaseName(file: string)
    requires IsTxtEntry(file)
    ensures |file| > 4
    ensures file[|file| - 4..] == ".txt" ==> BaseName(file) + ".txt" == file
    ensures file[|file| - 4..] != ".txt" ==> BaseName(file) == file
  {
    var ext := Extname(file);
    assert |ext| == 4;
    NodeBasenameSpec(file, ".txt");
    if file[|file| - 4..] != ".txt" {
      assert LowerAscii(ext) == ".txt" != ext;
      assert NodeBasename(file, ".txt") == file;
    }
  }

  /** `a.TXT` is an annotation file whose base name is `a.TXT` itself. */
  lemma UpperCaseTxtEntry(file: string)
    requires file == "a.TXT"
    ensures IsTxtEntry(file) && BaseName(file) == file
  {
    LastDotAt(file, 1);
    assert Extname(file) == ".TXT";
    assert LowerAscii(".TXT") == ".txt";
    TxtBaseName(file);
  }

  /** A name ending in `.jpg` never counts as an annotation file. */
  lemma JpgIsNotTxt(base: string)
    ensures !IsTxtEntry(base + ".jpg")
  {
    var f := base + ".jpg";
    LastDotAt(f, |base|);
    if |base| > 0 {
      assert f != "..";
      assert Extname(f) == ".jpg";
      assert LowerAscii(".jpg")[1] == 'j';
    }
  }

  /** The label key is made of the first two segments of the base name (all
      of them when there are fewer), and the base name continues after the
      key with a dot and the remaining segments. */
  lemma LabelKeySegments(base: string)
    ensures var parts := Split(base, '.');
      && Split(LabelKey(base), '.') == parts[..if |parts| < 2 then |parts| else 2]
      && (|parts| <= 2 ==> LabelKey(base) == base)
      && (|parts| > 2 ==> base == LabelKey(base) + "." + Join(parts[2..], '.'))
  {
    var parts := Split(base, '.');
    var n := if |parts| < 2 then |parts| else 2;
    JoinSplit(base, '.');
    SplitJoin(parts[..n], '.');
    if |parts| > 2 {
      JoinAppend(parts[..2], parts[2..], '.');
      assert parts[..2] + parts[2..] == parts;
    } else {
      assert parts[..n] == parts;
    }
  }

  /** The new base name keeps everything before the last dot of the base name
      (nothing when it has no dot) and appends a dot and the padded counter. */
  lemma NewBaseNameShape(base: string, counter: nat)
    ensures LastDot(base) == -1 ==> NewBaseName(base, counter) == "." + Pad5(counter)
    ensures LastDot(base) >= 0 ==>
      NewBaseName(base, counter) == base[..LastDot(base)] + "." + Pad5(counter)
  {
    var parts := Split(base, '.');
    var n := |parts|;
    JoinSplit(base, '.');
    if n == 1 {
      assert base == parts[0];
      assert '.' !in base;
    } else {
      var stem := Join(parts[..n - 1], '.');
      JoinAppend(parts[..n - 1], parts[n - 1..], '.');
      assert parts[..n - 1] + parts[n - 1..] == parts;
      assert Join(parts[n - 1..], '.') == parts[n - 1];
      assert base == stem + "." + parts[n - 1];
      assert '.' !in parts[n - 1];
      LastDotAt(base, |stem|);
      assert base[..|stem|] == stem;
    }
  }

  /** The counter value can be read back from a new base name: the name ends
      with a dot and the padded counter, which holds no dot. */
  lemma NewBaseNameCounter(base: string, counter: nat)
    ensures var r := NewBaseName(base, counter);
      LastDot(r) >= 0 && r[LastDot(r) + 1..] == Pad5(counter)
  {
    var parts := Split(base, '.');
    var stem := Join(parts[..|parts| - 1], '.');
    var r := NewBaseName(base, counter);
    Pad5Spec(counter);
    assert r == stem + "." + Pad5(counter);
    LastDotAt(r, |stem|);
    assert r[|stem| + 1..] == Pad5(counter);
  }

  /** Two new base names built from different counter values differ. */
  lemma NewBaseNamesDistinct(b1: string, c1: nat, b2: string, c2: nat)
    requires c1 != c2
    ensures NewBaseName(b1, c1) != NewBaseName(b2, c2)
  {
    NewBaseNameCounter(b1, c1);
    NewBaseNameCounter(b2, c2);
    if NewBaseName(b1, c1) == NewBaseName(b2, c2) {
      Pad5Injective(c1, c2);
    }
  }

  /** A name of three dot-free segments `a.b.c`, such as `dog.breed1.a`,
      has label key `a.b`. */
  lemma LabelKeyThreeSegments(a: string, b: string, c: string)
    requires '.' !in a && '.' !in b && '.' !in c
    ensures LabelKey(a + "." + b + "." + c) == a + "." + b
  {
    var parts := [a, b, c];
    assert "." == ['.'];
    assert parts[1..] == [b, c] && parts[1..][1..] == [c];
    assert Join(parts[1..], '.') == b + "." + c;
    assert Join(parts, '.') == a + "." + (b + "." + c);
    assert a + "." + (b + "." + c) == a + "." + b + "." + c;
    SplitJoin(parts, '.');
    assert parts[..2] == [a, b] && parts[..2][1..] == [b];
    assert Join(parts[..2], '.') == a + "." + b;
  }

  /** With counter 7, `dog.breed1.a` becomes `dog.breed1.00007`. */
  lemma NewBaseNameExample(base: string)
    requires base == "dog.breed1.a"
    ensures NewBaseName(base, 7) == "dog.breed1.00007"
  {
    LastDotAt(base, 10);
    NewBaseNameShape(base, 7);
    Pad5Examples();
    assert base[..10] == "dog.breed1";
  }

  /** With counter 7, the single-segment base name `dog` becomes `.00007`. */
  lemma NewBaseNameSingleSegmentExample()
    ensures NewBaseName("dog", 7) == ".00007"
  {
    SplitNoSeparator("dog", '.');
    assert Split("dog", '.')[..0] == [];
    Pad5Examples();
    assert NewBaseName("dog", 7) == "" + "." + "00007";
  }

}
